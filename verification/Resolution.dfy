/** What ResolvePlan adopts and clears (internal/planner/planner.go), and what a
    reconcile leaves alone, over every run. */
module Resolution {
  import opened Options
  import opened NodeTypes
  import opened Executor
  import opened Builders
  import opened StaticPlans
  import opened Reconcile
  import opened PersistedPlans
  import opened PlanContents

  // ---- which plan is a gated roll ----

  /** A template roll: Running, drifted, and no reset or hold comes first. */
  predicate Rolls(n: Node) {
    n.status.phase == Running && PodTemplateDrifted(n.spec, n.status, n.platform) && !ResetOrHold(n)
  }

  lemma {:induction false} FirstClassAt(ts: seq<PlannedTask>, k: nat)
    requires k < |ts| && ts[k].taskType in {ObserveImage, EnsureDataPVC, RestartSeid}
    requires forall i :: 0 <= i < k ==> ts[i].taskType !in {ObserveImage, EnsureDataPVC, RestartSeid}
    ensures FirstClass(ts) == Some(ts[k].taskType)
  {
    if k > 0 { FirstClassAt(ts[1..], k - 1); }
  }

  lemma {:induction false} NoFirstClass(ts: seq<PlannedTask>)
    requires forall i :: 0 <= i < |ts| ==> ts[i].taskType !in {ObserveImage, EnsureDataPVC, RestartSeid}
    ensures FirstClass(ts) == None
  {
    if ts != [] { NoFirstClass(ts[1..]); }
  }

  lemma InTypes(ts: seq<PlannedTask>, t: TaskType)
    ensures t in Types(ts) <==> exists i :: 0 <= i < |ts| && ts[i].taskType == t
  {
    if t in Types(ts) {
      var i :| 0 <= i < |ts| && Types(ts)[i] == t;
      assert ts[i].taskType == t;
    }
    if i :| 0 <= i < |ts| && ts[i].taskType == t { assert Types(ts)[i] == t; }
  }

  lemma {:induction false} ClaimFirst(ts: seq<PlannedTask>, k: nat)
    requires Ordered(Types(ts)) && k < |ts| && ts[k].taskType == EnsureDataPVC
    ensures FirstClass(ts) == Some(EnsureDataPVC)
  {
    var all := Types(ts);
    assert all[0] == ts[0].taskType && all[k] == ts[k].taskType && Rank(all[k]) == 0;
    assert k == 0;
    FirstClassAt(ts, 0);
  }

  lemma {:induction false} ObserveFirst(ts: seq<PlannedTask>, k: nat)
    requires Ordered(Types(ts)) && k < |ts| && ts[k].taskType == ObserveImage && EnsureDataPVC !in Types(ts)
    ensures FirstClass(ts) == Some(ObserveImage)
  {
    var all := Types(ts);
    forall i | 0 <= i < k ensures ts[i].taskType !in {ObserveImage, EnsureDataPVC, RestartSeid} {
      assert Rank(all[i]) < Rank(all[k]) && all[i] == ts[i].taskType && all[k] == ts[k].taskType && all[i] in all;
    }
    FirstClassAt(ts, k);
  }

  /** An ordered plan classifies by the lowest class it has. */
  lemma ClassOf(p: TaskPlan)
    requires Ordered(Types(p.tasks)) && RecordDataReset !in Types(p.tasks)
    ensures EnsureDataPVC in Types(p.tasks) ==> !IsNodeUpdatePlan(p)
    ensures EnsureDataPVC !in Types(p.tasks) && RecordMaintenanceHold !in Types(p.tasks) ==> (IsNodeUpdatePlan(p) <==> ObserveImage in Types(p.tasks))
  {
    hide Ordered, FirstClass;
    var ts := p.tasks;
    InTypes(ts, EnsureDataPVC);
    InTypes(ts, ObserveImage);
    InTypes(ts, RecordDataReset);
    InTypes(ts, RecordMaintenanceHold);
    if EnsureDataPVC in Types(ts) {
      var k :| 0 <= k < |ts| && ts[k].taskType == EnsureDataPVC;
      ClaimFirst(ts, k);
    } else if ObserveImage in Types(ts) {
      var k :| 0 <= k < |ts| && ts[k].taskType == ObserveImage;
      ObserveFirst(ts, k);
    } else if IsNodeUpdatePlan(p) {
      ObservesIfFirst(ts);
    }
  }

  lemma {:induction false} ObservesIfFirst(ts: seq<PlannedTask>)
    requires FirstClass(ts) == Some(ObserveImage)
    ensures exists i :: 0 <= i < |ts| && ts[i].taskType == ObserveImage
  {
    if ts[0].taskType != ObserveImage {
      ObservesIfFirst(ts[1..]);
      var i :| 0 <= i < |ts[1..]| && ts[1..][i].taskType == ObserveImage;
      assert ts[i + 1].taskType == ObserveImage;
    }
  }

  /** With template drift the slot gates exactly the roll: no reset, hold or init plan. */
  lemma GatedIff(n: Node, id: nat)
    requires BuildPlan(n, id).Built?
    ensures PodTemplateDrifted(n.spec, n.status, n.platform) && IsNodeUpdatePlan(BuildPlan(n, id).plan) <==> Rolls(n)
  {
    hide IsNodeUpdatePlan, BuildPlan, PodTemplateDrifted;
    var p := BuildPlan(n, id).plan;
    if ResetOrHold(n) {
      ResetOrHoldIsNoUpdate(n, id);
    } else {
      EveryPlanContents(n, id);
      assert !Carries(n, RecordDataReset);
      ClassOf(p);
    }
  }

  lemma ResetOrHoldIsNoUpdate(n: Node, id: nat)
    requires ResetOrHold(n)
    ensures BuildPlan(n, id).Built? && !IsNodeUpdatePlan(BuildPlan(n, id).plan)
  {
    hide ResetPlanFor, BuildHoldPlan, HoldMove, HoldSteps, FirstClass;
    if DataResetPending(n) {
      ResetPlanIs(n, id);
      var p := BuildPlan(n, id).plan;
      var steps := ResetStepsFor(n.spec.dataResetGeneration, n.spec.hold, n.status.maintenanceHold);
      assert StepsOf(p.tasks)[4].taskType == RecordDataReset && p.tasks[4].taskType == RecordDataReset;
    } else {
      var m := HoldMove(n).value;
      HoldPlanIs(m.0, m.1, id);
      HoldStepsRecord(m.0, m.1);
      var p := BuildPlan(n, id).plan;
      var k := |p.tasks| - 1;
      assert StepsOf(p.tasks)[k].taskType == p.tasks[k].taskType;
      assert forall i :: 0 <= i < |p.tasks| ==> StepsOf(p.tasks)[i].taskType == p.tasks[i].taskType;
    }
  }

  lemma HoldStepsRecord(want: Hold, have: Hold)
    ensures var steps := HoldSteps(want, have);
            && |steps| > 0 && steps[|steps| - 1].taskType == RecordMaintenanceHold
            && forall i :: 0 <= i < |steps| ==> steps[i].taskType != EnsureDataPVC
  {
  }

  // ---- what is adopted ----

  /** An init gate is closed, and only a node that is not yet Running minds. */
  predicate InitBlocked(n: Node, inp: Inputs) { n.status.phase != Running && (inp.stateSyncBlocked || inp.peersBlocked) }

  /** The one refused plan: a genesis ceremony on a mounted config. */
  predicate RefusedCeremony(n: Node) { n.spec.nodeConfig && n.status.phase != Running && Ceremony(n.spec) }

  /** A plan is adopted exactly when one is built, no gate is closed, it is not the
      refused ceremony, and a roll has its slot. Resets, holds and config updates
      never ask for one. */
  predicate Adopts(n: Node, inp: Inputs) {
    && BuildPlan(n, n.history.plansBuilt).Built? && inp.modeValid && !InitBlocked(n, inp)
    && !RefusedCeremony(n) && (Rolls(n) ==> inp.planSlotFree)
  }

  /** Rolls and config updates of a controller-configured node report an update. */
  predicate Announces(n: Node) {
    || Rolls(n)
    || (n.status.phase == Running && !n.spec.nodeConfig && ConfigValuesDrifted(n))
  }

  lemma StartsIff(n: Node, id: nat)
    requires BuildPlan(n, id).Built?
    ensures BuildPlan(n, id).startsUpdate <==> Announces(n)
  {
    hide PodTemplateDrifted, ResetPlanFor, HoldMove, BuildHoldPlan, UpdatePlanFor, WithConfigValues, InsertBefore, ConfigValuesDrifted;
    InitAnnouncesNothing(n.spec, id);
    hide BuildInitPlan;
  }

  lemma InitAnnouncesNothing(s: Spec, id: nat)
    ensures BuildInitPlan(s, id).Built? ==> !BuildInitPlan(s, id).startsUpdate
  {
    hide Splice, Assemble, BaseProg;
  }

  lemma AdoptsIff(n: Node, inp: Inputs)
    requires n.status.plan == None
    ensures var m := PlanNext(n, inp);
            && (m.status.plan.Some? <==> Adopts(n, inp))
            && (Adopts(n, inp) ==>
                  && m.status.plan.value == BuildPlan(n, n.history.plansBuilt).plan
                  && m.status.updateInProgress == (n.status.updateInProgress || Announces(n))
                  && m.status.phase == (if n.status.phase in {Unset, Pending} then Initializing else n.status.phase)
                  && m.history.builtFrom == n.spec && m.history.plansBuilt == n.history.plansBuilt + 1)
            && (!Adopts(n, inp) ==>
                  && m.history == n.history && m.status.phase == n.status.phase
                  && (m.status.updateInProgress ==> n.status.updateInProgress)
                  && (Rolls(n) && BuildPlan(n, n.history.plansBuilt).Built? && inp.modeValid ==> !m.status.updateInProgress))
            && m.spec == n.spec && m.platform == n.platform && m.sidecar == n.sidecar
  {
    hide BuildPlan, IsNodeUpdatePlan, MountedConfigWriter, PodTemplateDrifted, ConfigValuesDrifted;
    var id := n.history.plansBuilt;
    if BuildPlan(n, id).Built? {
      GatedIff(n, id);
      StartsIff(n, id);
      if n.spec.nodeConfig { RefusalIsExactlyTheCeremony(n, id); } else { NoMountNoWriter(n.spec, BuildPlan(n, id).plan); }
    }
  }

  lemma NoMountNoWriter(s: Spec, p: TaskPlan)
    requires !s.nodeConfig
    ensures !MountedConfigWriter(s, p)
  {
  }

  // ---- what a plan may do to its node ----

  lemma ValuedPhases(p: TaskPlan, s: Spec)
    requires WithConfigValues(p, s).Built?
    ensures WithConfigValues(p, s).plan.targetPhase == p.targetPhase && WithConfigValues(p, s).plan.failedPhase == p.failedPhase
  {
    hide Splice;
  }

  /** Every plan heads for Running, and only a plan built before Running can fail its node. */
  lemma EveryPlanTargets(n: Node, id: nat)
    requires BuildPlan(n, id).Built?
    ensures var p := BuildPlan(n, id).plan;
            p.targetPhase == Running && p.failedPhase == if n.status.phase == Running then Unset else Failed
  {
    hide WithConfigValues, InsertBefore, Assemble, BaseProg, PodTemplateDrifted, ConfigValuesDrifted, HoldMove, HoldSteps, DropMarkReady;
    var s := n.spec;
    InitTargets(s, id);
    if n.status.phase == Running && !s.nodeConfig {
      ModeTargets(n, id, UpdateProg(s));
      ModeTargets(n, id, CONFIG_UPDATE_PROG);
    }
    hide BuildInitPlan, AssembleUpdatePlan;
  }

  lemma InitTargets(s: Spec, id: nat)
    ensures BuildInitPlan(s, id).Built? ==> BuildInitPlan(s, id).plan.targetPhase == Running && BuildInitPlan(s, id).plan.failedPhase == Failed
  {
    hide WithConfigValues;
    InitPlanFrom(s, id);
    var p := NewPlan(id, Assemble(id, Plain(InitProgression(s))), Failed);
    if BuildInitPlan(s, id).Built? { ValuedPhases(p, s); }
  }

  lemma ModeTargets(n: Node, id: nat, prog: seq<TaskType>)
    ensures AssembleUpdatePlan(n, id, prog).Built? ==>
              AssembleUpdatePlan(n, id, prog).plan.targetPhase == Running && AssembleUpdatePlan(n, id, prog).plan.failedPhase == Unset
  {
    hide WithConfigValues, InsertBefore;
    if AssembleUpdatePlan(n, id, prog).Built? {
      var full := if n.status.currentConfigHash == "" || ConfigValuesDrifted(n) then InsertBefore(prog, ConfigPatch, ConfigApply).value else prog;
      ValuedPhases(NewPlan(id, Assemble(id, Plain(full)), Unset), n.spec);
    }
  }

  // ---- every run ----

  /** A reported update has a plan on a Running node; a stored plan has left Pending
      behind; an active one fails its node exactly when that was never Running. */
  predicate Steady(n: Node) {
    && PlanOk(n)
    && (n.status.updateInProgress ==> n.status.plan.Some? && n.status.phase == Running)
    && (n.status.plan.Some? ==> n.status.phase in {Initializing, Running, Failed} && n.status.plan.value.targetPhase == Running)
    && (n.HasActivePlan() ==>
          n.status.phase != Failed && n.status.plan.value.failedPhase == if n.status.phase == Running then Unset else Failed)
  }

  lemma {:induction false} ExecuteKeepsFlag(n: Node, p: TaskPlan, o: Oracle)
    ensures var (m, q) := ExecuteFrom(n, p, o);
            && m.status.updateInProgress == n.status.updateInProgress && m.spec == n.spec && m.history.plansBuilt == n.history.plansBuilt
            && q.targetPhase == p.targetPhase && q.failedPhase == p.failedPhase
    decreases |p.tasks| - FirstIncomplete(p.tasks)
  {
    hide Judge, StepWorld;
    var k := FirstIncomplete(p.tasks);
    if k < |p.tasks| {
      WorldKeepsFlag(n, p, p.tasks[k], o(k));
      StepPlanKeeps(p, k, Judge(n, p.tasks[k], o(k)));
      var (m, q) := Advance(n, p, k, o(k));
      if q.tasks[k].status == TaskComplete {
        FrontierMoves(p, Judge(n, p.tasks[k], o(k)));
        ExecuteKeepsFlag(m, q, o);
      }
    }
  }

  lemma WorldKeepsFlag(n: Node, p: TaskPlan, t: PlannedTask, o: Outcome)
    ensures var m := StepWorld(n, p, t, o);
            m.status.updateInProgress == n.status.updateInProgress && m.spec == n.spec && m.history.plansBuilt == n.history.plansBuilt
  {
    hide TaskEffect, Judge;
    EffectKeepsFlag(Submitted(n, t.taskType, o), p, t);
  }

  lemma EffectKeepsFlag(n: Node, p: TaskPlan, t: PlannedTask)
    ensures var m := TaskEffect(n, p, t);
            m.status.updateInProgress == n.status.updateInProgress && m.spec == n.spec && m.history.plansBuilt == n.history.plansBuilt
  {
  }

  lemma ExecuteSteady(n: Node, o: Oracle)
    requires Steady(n) && n.HasActivePlan()
    ensures Steady(ExecutePlan(n, o)) && (n.status.phase == Running ==> ExecutePlan(n, o).status.phase == Running)
  {
    hide PlanInvariant, ExecuteFrom;
    var p := n.status.plan.value;
    ExecutePlanInvariant(n, o);
    ActiveAdvances(p);
    PhaseFollowsPlan(n, p, o);
    ExecuteKeepsFlag(n, p, o);
  }

  lemma ActiveAdvances(p: TaskPlan)
    requires PlanInvariant(p) && p.phase.Active?
    ensures Advancing(p)
  {
  }

  lemma PlanNextSteady(n: Node, inp: Inputs)
    requires Steady(n) && n.status.plan == None && n.status.phase != Failed
    ensures Steady(PlanNext(n, inp)) && (n.status.phase == Running ==> PlanNext(n, inp).status.phase == Running)
  {
    hide PlanNext, BuildPlan, Rolls, PlanInvariant;
    AdoptsIff(n, inp);
    if Adopts(n, inp) {
      EveryPlanTargets(n, n.history.plansBuilt);
      EveryBuiltPlanIsFresh(n, n.history.plansBuilt);
      FreshIsActive(BuildPlan(n, n.history.plansBuilt).plan);
      AnnouncesRunning(n);
    }
  }

  lemma FreshIsActive(p: TaskPlan)
    requires Fresh(p)
    ensures p.phase.Active?
  {
  }

  lemma AnnouncesRunning(n: Node)
    ensures Announces(n) ==> n.status.phase == Running
  {
  }

  /** What comes before ResolvePlan decides: the plan and the phase stay. */
  lemma BeforePlanning(n: Node, inp: Inputs)
    requires Steady(n)
    ensures var b := Probed(Render(ResolveDataReset(n), inp), inp);
            Steady(b) && b.status.plan == n.status.plan && b.status.phase == n.status.phase && b.spec == n.spec
            && b.history.plansBuilt == n.history.plansBuilt
  {
    hide PlanInvariant, DriftRender, RenderMayPin;
  }

  lemma ClearedSteady(n: Node)
    requires Steady(n) && !n.HasActivePlan()
    ensures var c := HandleTerminalPlan(n);
            Steady(c) && c.status.plan == None && c.status.phase == n.status.phase && !c.status.updateInProgress && c.history == n.history
  {
    hide PlanInvariant;
  }

  /** A reconcile keeps it. One that finds an ended plan and adopts none reports no
      update any more, and what it adopts it does not yet execute. */
  lemma ReconcileSteady(n: Node, inp: Inputs)
    requires Steady(n)
    ensures var m := ReconcileNode(n, inp);
            && Steady(m) && (n.status.phase == Running ==> m.status.phase == Running)
            && (!n.HasActivePlan() && n.status.phase != Failed && !n.spec.paused ==>
                  && (m.status.plan.None? ==> !m.status.updateInProgress && m.history.plansBuilt == n.history.plansBuilt)
                  && (m.status.plan.Some? ==> Fresh(m.status.plan.value) && m.history.plansBuilt == n.history.plansBuilt + 1))
  {
    hide Render, Probed, PlanNext, ExecutePlan, Steady, HandleTerminalPlan, BuildPlan, Fresh;
    BeforePlanning(n, inp);
    var b := Render(ResolveDataReset(n), inp);
    var c := Probed(b, inp);
    RenderKeepsPlan(n, inp);
    if n.HasActivePlan() {
      ExecuteSteady(c, inp.oracle);
    } else if n.status.phase != Failed && !n.spec.paused {
      ClearedSteady(c);
      var d := HandleTerminalPlan(c);
      PlanNextSteady(d, inp);
      AdoptsIff(d, inp);
      if Adopts(d, inp) { EveryBuiltPlanIsFresh(d, d.history.plansBuilt); }
    }
  }

  lemma RenderKeepsPlan(n: Node, inp: Inputs)
    ensures var b := Render(ResolveDataReset(n), inp);
            && b.status.plan == n.status.plan && b.spec == n.spec && b.status.phase == n.status.phase
            && (Steady(n) ==> Steady(b) && Steady(ResolveDataReset(n)))
            && b.history.plansBuilt == n.history.plansBuilt
  {
    hide PlanInvariant, DriftRender, RenderMayPin;
  }

  lemma MoveSteady(n: Node, m: Move)
    requires Steady(n)
    ensures Steady(Apply(n, m)) && (n.status.phase == Running ==> Apply(n, m).status.phase == Running)
  {
    hide ReconcileNode, PlanInvariant;
    if m.ReconcileMove? { ReconcileSteady(n, m.inputs); }
  }

  lemma CreatedIsSteady(n: Node)
    requires Created(n)
    ensures Steady(n)
  {
  }

  /** In every run, whatever the edits: a reported update always has a plan, which
      the next reconcile after its end clears; a stored plan has left Pending
      behind; and a Running node stays Running. */
  lemma {:induction false} EveryRunIsSteady(n: Node, moves: seq<Move>)
    requires Steady(n)
    ensures Steady(Run(n, moves)) && (n.status.phase == Running ==> Run(n, moves).status.phase == Running)
    decreases |moves|
  {
    if moves != [] {
      hide Steady, Apply;
      EveryRunIsSteady(n, moves[..|moves| - 1]);
      MoveSteady(Run(n, moves[..|moves| - 1]), moves[|moves| - 1]);
    }
  }

  // ---- nodes that are left alone ----

  /** A Failed node is never planned for again, in any run. */
  lemma {:induction false} FailedStays(n: Node, moves: seq<Move>)
    requires n.status.phase == Failed
    ensures var m := Run(n, moves);
            m.status.phase == Failed && m.status.plan == n.status.plan && m.history.plansBuilt == n.history.plansBuilt
            && m.status.updateInProgress == n.status.updateInProgress
    decreases |moves|
  {
    if moves != [] { FailedStays(n, moves[..|moves| - 1]); }
  }

  /** A reconcile of a paused node records a reset counter that needs no wipe, and nothing else. */
  lemma PausedStands(n: Node, inp: Inputs)
    requires n.spec.paused
    ensures var m := ReconcileNode(n, inp);
            && m.status == n.status.(dataResetGeneration := m.status.dataResetGeneration) && m.sidecar == n.sidecar && m.history.log == n.history.log
            && m.status.dataResetGeneration ==
                 if n.spec.nodeConfig && n.status.phase != Running && n.spec.dataResetGeneration > n.status.dataResetGeneration
                 then n.spec.dataResetGeneration else n.status.dataResetGeneration
  {
    hide ResolvePlan, ExecutePlan, DriftRender;
  }

  /** The sidecar is asked only on a Running node, and a lost answer keeps the last one. */
  lemma ProbeIsForRunning(n: Node, inp: Inputs)
    ensures Probed(n, inp).status.sidecarReady ==
            if n.status.phase == Running && inp.probe.Some? then inp.probe.value else n.status.sidecarReady
    ensures Probed(n, inp) == n.(status := n.status.(sidecarReady := Probed(n, inp).status.sidecarReady))
  {
  }

  // ---- the rendered template ----

  /** A mounted, unpaused, Running node without an active plan or a reported update,
      drifted, with nothing else pending, that has no slot. */
  predicate WaitsForSlot(n: Node, inp: Inputs) {
    && n.spec.nodeConfig && !n.spec.paused && n.status.phase == Running
    && (n.status.plan.Some? ==> n.status.plan.value.phase != Active) && !n.status.updateInProgress
    && PodTemplateDrifted(n.spec, n.status, n.platform)
    && n.spec.dataResetGeneration <= n.status.dataResetGeneration && n.spec.hold == n.status.maintenanceHold
    && !inp.renderSlotFree
  }

  /** Only such a node with a known image is rendered as it runs: image and sidecar
      image as observed or else as live, isolation as observed, the observed pool
      once a rollout was. Every other node is rendered from its spec. */
  lemma RendersAsItRuns(n: Node, inp: Inputs)
    ensures var pinned, st := DriftRender(n, inp), n.status;
            if WaitsForSlot(n, inp) && (st.currentImage != "" || inp.liveSeidImage != "") then
              && pinned.image == (if st.currentImage != "" then st.currentImage else inp.liveSeidImage)
              && pinned.sidecarImage == (if st.currentSidecarImage != "" then st.currentSidecarImage
                                         else if inp.liveSidecarImage != "" then inp.liveSidecarImage else n.spec.sidecarImage)
              && pinned.isolation == (if st.currentIsolation != "" then st.currentIsolation else n.spec.isolation)
              && pinned.nodePool == (if st.currentImage != "" then st.currentNodePool else n.spec.nodePool)
              && pinned.(image := n.spec.image, sidecarImage := n.spec.sidecarImage, isolation := n.spec.isolation, nodePool := n.spec.nodePool) == n.spec
            else pinned == n.spec
    ensures Render(n, inp).status == n.status
  {
    hide PodTemplateDrifted;
  }

  // ---- what counts as drift ----

  /** After an observed rollout the template drifts exactly when a later spec or
      platform asks for another image, sidecar image, isolation or pool. */
  lemma DriftIsAnotherTemplate(n: Node, s: Spec, p: Platform)
    requires n.spec.image != "" && EffectiveSidecarImage(n.spec, n.platform) != ""
    ensures PodTemplateDrifted(s, StampObserved(n).status, p) <==>
            || s.image != n.spec.image
            || (if s.sidecarImage != "" then s.sidecarImage else p.sidecarImage)
                 != (if n.spec.sidecarImage != "" then n.spec.sidecarImage else n.platform.sidecarImage)
            || (if s.isolation != "" then s.isolation else if s.dedicatedAnnotation then "Dedicated" else "Shared")
                 != (if n.spec.isolation != "" then n.spec.isolation else if n.spec.dedicatedAnnotation then "Dedicated" else "Shared")
            || s.nodePool != n.spec.nodePool
  {
  }
}
