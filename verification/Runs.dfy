/** The safety theorems: every state of every legal run, from the node's
    creation on, satisfies the invariant and has a safe log. */
module Runs {
  import opened Options
  import opened NodeTypes
  import opened Executor
  import opened Builders
  import opened StaticPlans
  import opened Reconcile
  import opened Safety

  // ---- the parts of a reconcile ----

  lemma LiftSafe(n: Node)
    requires Inv(n)
    ensures Inv(ResolveDataReset(n))
    ensures n.status.phase != Running ==> !DataResetPending(ResolveDataReset(n))
  {
  }

  lemma RenderSafe(n: Node, inp: Inputs)
    requires Inv(n)
    ensures Inv(Render(n, inp))
    ensures n.HasActivePlan() ==> !Render(n, inp).history.templatePinned
  {
  }

  lemma ProbeSafe(n: Node, inp: Inputs)
    requires Inv(n)
    ensures Inv(Probed(n, inp))
  {
  }

  lemma ClearSafe(n: Node)
    requires Inv(n)
    ensures Inv(HandleTerminalPlan(n))
  {
  }

  lemma {:induction false} ResetGenerationOf(ts: seq<PlannedTask>, k: nat)
    requires k <= |ts|
    requires forall i :: 0 <= i < k ==> ts[i].taskType != RecordDataReset
    ensures k == |ts| ==> ResetGeneration(ts) == None
    ensures k < |ts| && ts[k].taskType == RecordDataReset && ts[k].params.Generation? ==>
              ResetGeneration(ts) == Some(ts[k].params.generation)
  {
    if k > 0 { ResetGenerationOf(ts[1..], k - 1); }
  }

  lemma ShapeTellsReset(ts: seq<PlannedTask>, g: int)
    ensures ResetShape(StepsOf(ts), g) ==> ResetGeneration(ts) == Some(g)
    ensures NoWipe(StepsOf(ts)) ==> ResetGeneration(ts) == None
  {
    assert forall i :: 0 <= i < |ts| ==> StepsOf(ts)[i] == Step(ts[i].taskType, ts[i].params);
    if ResetShape(StepsOf(ts), g) { ResetGenerationOf(ts, 4); }
    if NoWipe(StepsOf(ts)) { ResetGenerationOf(ts, |ts|); }
  }

  lemma AdoptRunning(n: Node, p: TaskPlan)
    requires Base(n) && n.status.phase == Running && RunningPlan(p, p.id)
    requires RunningStepsOf(n) == Some(StepsOf(p.tasks))
    ensures Progress(Adopt(n, p), p, 0)
  {
    RunningPlanShape(n);
    ShapeTellsReset(p.tasks, n.spec.dataResetGeneration);
  }

  lemma AdoptInit(n: Node, p: TaskPlan)
    requires n.status.phase != Running && n.status.phase != Failed
    requires InitSteps(StepsOf(p.tasks)) && p.failedPhase == Failed && p.targetPhase == Running
    ensures Progress(Adopt(n, p), p, 0)
  {
  }

  lemma AdoptBase(n: Node, p: TaskPlan)
    requires Base(n) && n.status.phase != Failed
    ensures Base(Adopt(n, p))
  {
  }

  lemma AdoptSafe(n: Node, p: TaskPlan)
    requires Base(n) && n.status.phase != Failed && Fresh(p) && Progress(Adopt(n, p), p, 0)
    ensures Inv(Adopt(n, p))
  {
    AdoptBase(n, p);
    FreshPlanInvariant(p);
  }

  lemma UpdatingSafe(n: Node, b: bool)
    requires Inv(n)
    ensures Inv(SetUpdating(n, b))
  {
  }

  /** Adopting what the builders built, in either phase. */
  lemma AdoptBuilt(n: Node, m: Node, b: Build)
    requires Inv(n) && n.status.plan == None && n.status.phase != Failed
    requires b == BuildPlan(n, n.history.plansBuilt) && b.Built? && m == SetUpdating(n, m.status.updateInProgress)
    ensures Inv(Adopt(m, b.plan))
  {
    hide SafeLog, OpenResetsPending, CountsAgree, Progress, PlanInvariant;
    UpdatingSafe(n, m.status.updateInProgress);
    if n.status.phase == Running {
      RunningPlanIs(n, n.history.plansBuilt);
      assert RunningStepsOf(m) == RunningStepsOf(n);
      AdoptRunning(m, b.plan);
    } else {
      InitPlanIs(n.spec, n.history.plansBuilt);
      AdoptInit(m, b.plan);
    }
    AdoptSafe(m, b.plan);
  }

  lemma PlanNextSafe(n: Node, inp: Inputs)
    requires Inv(n) && n.status.plan == None && n.status.phase != Failed
    ensures Inv(PlanNext(n, inp))
  {
    hide Inv, BuildPlan, MountedConfigWriter, IsNodeUpdatePlan;
    UpdatingSafe(n, false);
    var b := BuildPlan(n, n.history.plansBuilt);
    if b.Built? {
      var m := if b.startsUpdate then SetUpdating(n, true) else n;
      AdoptBuilt(n, m, b);
    }
  }

  lemma StoreSafe(m: Node, q: TaskPlan)
    requires Base(m) && PlanInvariant(q)
    requires q.phase.Active? ==> Progress(m, q, FirstIncomplete(q.tasks))
    ensures Inv(m.(status := m.status.(plan := Some(q))))
  {
  }

  lemma ActiveIsExecutable(n: Node)
    requires Inv(n) && n.HasActivePlan() && !n.history.templatePinned
    requires n.status.phase != Running ==> !DataResetPending(n)
    ensures Executable(n, n.status.plan.value)
  {
  }

  lemma ExecutePlanSafe(n: Node, o: Oracle)
    requires Inv(n) && n.HasActivePlan() && !n.history.templatePinned
    requires n.status.phase != Running ==> !DataResetPending(n)
    ensures Inv(ExecutePlan(n, o))
  {
    var p := n.status.plan.value;
    ActiveIsExecutable(n);
    ExecuteBase(n, p, o);
    ExecuteProgress(n, p, o);
    ExecuteFromInvariant(n, p, o);
    StoreSafe(ExecuteFrom(n, p, o).0, ExecuteFrom(n, p, o).1);
  }

  /** The rest of a reconcile, once the StatefulSet is rendered. */
  function Finish(b: Node, inp: Inputs): Node {
    if b.HasActivePlan() then ExecutePlan(Probed(b, inp), inp.oracle)
    else PlanNext(HandleTerminalPlan(Probed(b, inp)), inp)
  }

  lemma ReconcileIs(n: Node, inp: Inputs)
    ensures ReconcileNode(n, inp) ==
            var a := ResolveDataReset(n);
            var b := Render(a, inp);
            if a.status.phase == Failed then a else if b.spec.paused then b else Finish(b, inp)
  {
  }

  lemma FinishReconcile(b: Node, inp: Inputs)
    requires Inv(b) && b.status.phase != Failed
    requires b.HasActivePlan() ==> !b.history.templatePinned
    requires b.status.phase != Running ==> !DataResetPending(b)
    ensures Inv(Finish(b, inp))
  {
    var m := Probed(b, inp);
    ProbeSafe(b, inp);
    if b.HasActivePlan() {
      ExecutePlanSafe(m, inp.oracle);
    } else {
      ClearSafe(m);
      PlanNextSafe(HandleTerminalPlan(m), inp);
    }
  }

  lemma ReconcileSafe(n: Node, inp: Inputs)
    requires Inv(n)
    ensures Inv(ReconcileNode(n, inp))
  {
    var a := ResolveDataReset(n);
    LiftSafe(n);
    ReconcileIs(n, inp);
    if a.status.phase != Failed {
      RenderSafe(a, inp);
      if !a.spec.paused { FinishReconcile(Render(a, inp), inp); }
    }
  }

  // ---- the environment's moves ----

  lemma EditBase(n: Node, s: Spec)
    requires Base(n) && Enabled(n, EditSpec(s))
    ensures Base(Edit(n, s))
  {
    var log := n.history.log;
    if s.dataResetGeneration > n.spec.dataResetGeneration {
      var e := CounterRaised(s.dataResetGeneration);
      var l := log + [e];
      SafeAppend(log, e);
      CountsAppend(log, e);
      forall i | 0 <= i < |l| && l[i].GateClosed? && l[i].byReset.Some?
        ensures n.status.phase == Running && l[i].byReset.value <= s.dataResetGeneration
        ensures n.status.dataResetGeneration < l[i].byReset.value || RecordedBetween(l, i, |l|, l[i].byReset.value)
      {
        assert l[i] == log[i];
        if RecordedBetween(log, i, |log|, log[i].byReset.value) {
          RecordedBetweenAppend(log, e, i, |log|, log[i].byReset.value);
        }
      }
    }
  }

  lemma EditProgress(n: Node, s: Spec, p: TaskPlan, k: nat)
    requires Base(n) && Progress(n, p, k) && Enabled(n, EditSpec(s))
    ensures Progress(Edit(n, s), p, k)
  {
    if s.dataResetGeneration > n.spec.dataResetGeneration {
      CountsAppend(n.history.log, CounterRaised(s.dataResetGeneration));
      if n.status.phase == Running && ResetGeneration(p.tasks).Some? && k == 4 {
        StillWiped(n.history.log, CounterRaised(s.dataResetGeneration), p.id);
      }
    }
  }

  lemma EditSafe(n: Node, s: Spec)
    requires Inv(n) && Enabled(n, EditSpec(s))
    ensures Inv(Edit(n, s))
  {
    EditBase(n, s);
    if n.HasActivePlan() { EditProgress(n, s, n.status.plan.value, FirstIncomplete(n.status.plan.value.tasks)); }
  }

  lemma ExternalSafe(n: Node)
    requires Inv(n) && !StartBlocked(n)
    ensures Inv(OpenGate(n, MarkReady))
  {
    OpenGateBase(n, MarkReady);
    if n.HasActivePlan() {
      OpenGateProgress(n, MarkReady, n.status.plan.value, FirstIncomplete(n.status.plan.value.tasks));
    }
  }

  lemma SidecarMoveSafe(n: Node, s: Sidecar)
    requires Inv(n)
    requires s.gateOpen ==> n.sidecar.gateOpen
    requires s.seidRunning ==> n.sidecar.seidRunning || n.sidecar.gateOpen
    ensures Inv(n.(sidecar := s))
  {
  }

  lemma PlatformSafe(n: Node, p: Platform)
    requires Inv(n)
    ensures Inv(n.(platform := p))
  {
  }

  lemma MoveSafe(n: Node, m: Move)
    requires Inv(n) && Enabled(n, m)
    ensures Inv(Apply(n, m))
  {
    match m
    case EditSpec(s) => EditSafe(n, s);
    case EditPlatform(p) => PlatformSafe(n, p);
    case ExternalMarkReady => if !StartBlocked(n) { ExternalSafe(n); }
    case SidecarRestart => SidecarMoveSafe(n, n.sidecar.(gateOpen := false));
    case SeidStarts => SidecarMoveSafe(n, n.sidecar.(seidRunning := true));
    case SeidExits => SidecarMoveSafe(n, n.sidecar.(seidRunning := false));
    case ReconcileMove(inp) => ReconcileSafe(n, inp);
  }

  lemma CreatedSafe(n: Node)
    requires Created(n)
    ensures Inv(n)
  {
  }

  // ---- the theorems ----

  /** Every interleaving of edits, external starts, restarts and reconciles
      keeps the invariant, so its log is safe: no start step ran under a pending
      reset or an unwanted hold, every wipe met a closed gate and a stopped
      seid, and the gate stayed closed from a reset's mark-not-ready to its record. */
  lemma {:induction false} EveryRunIsSafe(n: Node, moves: seq<Move>)
    requires Created(n) && Legal(n, moves)
    ensures Inv(Run(n, moves))
    ensures SafeLog(Run(n, moves).history.log)
    decreases |moves|
  {
    CreatedSafe(n);
    if moves != [] {
      EveryRunIsSafe(n, moves[..|moves| - 1]);
      MoveSafe(Run(n, moves[..|moves| - 1]), moves[|moves| - 1]);
    }
  }

  /** Recorded resets never outnumber raises of the requested counter, and a
      raise still pending on a Running node has not been used up. */
  lemma ResetsNeverOutnumberRaises(n: Node, moves: seq<Move>)
    requires Created(n) && Legal(n, moves)
    ensures var m := Run(n, moves);
            && Records(m.history.log) <= Raises(m.history.log)
            && (m.status.phase == Running && DataResetPending(m) ==> Records(m.history.log) < Raises(m.history.log))
            && 0 <= m.status.dataResetGeneration <= m.spec.dataResetGeneration
  {
    EveryRunIsSafe(n, moves);
  }

  lemma FinishKeepsCounter(b: Node, inp: Inputs)
    ensures Finish(b, inp).status.dataResetGeneration >= b.status.dataResetGeneration
  {
    hide PlanNext;
    if b.HasActivePlan() { ExecuteFrame(Probed(b, inp), b.status.plan.value, inp.oracle); } else { PlanningIsSilent(b, inp); }
  }

  /** The handled counter never falls, whatever the move. */
  lemma CounterNeverFalls(n: Node, m: Move)
    ensures Apply(n, m).status.dataResetGeneration >= n.status.dataResetGeneration
  {
    if m.ReconcileMove? {
      ReconcileIs(n, m.inputs);
      FinishKeepsCounter(Render(ResolveDataReset(n), m.inputs), m.inputs);
    }
  }

  /** The log only grows, and a changed counter was recorded in what it grew by. */
  predicate Explained(n: Node, m: Node) {
    var before, after := n.history.log, m.history.log;
    && before <= after
    && (m.status.dataResetGeneration != n.status.dataResetGeneration ==>
          exists i :: |before| <= i < |after| && after[i].ResetRecorded? && after[i].generation == m.status.dataResetGeneration)
  }

  lemma ExplainedChain(a: Node, b: Node, c: Node)
    requires Explained(a, b) && Explained(b, c)
    ensures Explained(a, c)
  {
    var x, y, z := a.history.log, b.history.log, c.history.log;
    if c.status.dataResetGeneration == b.status.dataResetGeneration != a.status.dataResetGeneration {
      var i :| |x| <= i < |y| && y[i].ResetRecorded? && y[i].generation == b.status.dataResetGeneration;
      assert z[i] == y[i];
    }
  }

  lemma EffectExplained(n: Node, p: TaskPlan, t: PlannedTask)
    ensures Explained(n, TaskEffect(n, p, t))
  {
    var m := TaskEffect(n, p, t);
    if m.status.dataResetGeneration != n.status.dataResetGeneration {
      assert m.history.log[|n.history.log|].ResetRecorded?;
    }
  }

  lemma AdvanceExplained(n: Node, p: TaskPlan, k: nat, o: Outcome)
    requires k < |p.tasks|
    ensures Explained(n, Advance(n, p, k, o).0)
  {
    var m := Submitted(n, p.tasks[k].taskType, o);
    EffectExplained(m, p, p.tasks[k]);
    ExplainedChain(n, m, TaskEffect(m, p, p.tasks[k]));
  }

  lemma {:induction false} ExecuteExplained(n: Node, p: TaskPlan, o: Oracle)
    ensures Explained(n, ExecuteFrom(n, p, o).0)
    decreases |p.tasks| - FirstIncomplete(p.tasks)
  {
    var k := FirstIncomplete(p.tasks);
    if k < |p.tasks| {
      AdvanceExplained(n, p, k, o(k));
      var (m, q) := Advance(n, p, k, o(k));
      if q.tasks[k].status == TaskComplete {
        FrontierMoves(p, Judge(n, p.tasks[k], o(k)));
        ExecuteExplained(m, q, o);
        ExplainedChain(n, m, ExecuteFrom(m, q, o).0);
      }
    }
  }

  lemma PlanningIsSilent(b: Node, inp: Inputs)
    ensures var m := PlanNext(HandleTerminalPlan(Probed(b, inp)), inp);
            m.history.log == b.history.log && m.status.dataResetGeneration == b.status.dataResetGeneration
  {
  }

  lemma FinishExplained(b: Node, inp: Inputs)
    ensures Explained(b, Finish(b, inp))
  {
    if b.HasActivePlan() {
      ExecuteExplained(Probed(b, inp), b.status.plan.value, inp.oracle);
    } else {
      PlanningIsSilent(b, inp);
    }
  }

  lemma ReconcileExplained(n: Node, inp: Inputs)
    requires n.status.phase == Running
    ensures Explained(n, ReconcileNode(n, inp))
  {
    ReconcileIs(n, inp);
    assert ResolveDataReset(n) == n;
    var b := Render(n, inp);
    FinishExplained(b, inp);
    assert Explained(n, b);
    ExplainedChain(n, b, Finish(b, inp));
  }

  /** On a Running node the handled counter rises only by a logged record-data-reset
      (which, in a safe log, directly follows its plan's wipe). */
  lemma RunningRiseIsRecorded(n: Node, m: Move)
    requires n.status.phase == Running
    ensures Explained(n, Apply(n, m))
  {
    if m.ReconcileMove? { ReconcileExplained(n, m.inputs); }
  }

  /** In no run does a Running node with a hold requested have its gate opened,
      except once under AfterExit with no reset pending. */
  lemma HoldIsNeverReleased(n: Node, moves: seq<Move>)
    requires Created(n) && Legal(n, moves)
    ensures forall i :: 0 <= i < |Run(n, moves).history.log| ==>
              var e := Run(n, moves).history.log[i];
              e.GateOpened? && e.phase == Running && e.hold != NoHold ==> e.once && e.hold == AfterExit && !e.resetPending
  {
    EveryRunIsSafe(n, moves);
  }

  /** The guard never refuses the init plan, whatever edits arrive. */
  lemma InitIsNeverRefused(n: Node, moves: seq<Move>)
    requires Created(n) && Legal(n, moves)
    ensures forall i :: 0 <= i < |Run(n, moves).history.log| ==>
              var e := Run(n, moves).history.log[i];
              e.StartRefused? ==> e.phase == Running && e.specEdited
  {
    EveryRunIsSafe(n, moves);
  }
}
