/** The plans of a node that mounts its config from ConfigMaps: their shapes,
    what they may start, and that none of them writes config
    (internal/planner/static_config.go, maintenance.go, data_reset.go). */
module StaticPlans {
  import opened Options
  import Orders
  import opened NodeTypes
  import opened Executor
  import opened Builders
  import opened PlanProperties

  /** The admission rules of a ConfigMap-configured node that the builders rely on. */
  predicate Admitted(s: Spec) {
    && s.nodeConfig && s.overlay == NoOverlay && s.configHash.Some?
    && !s.genesisCeremony && s.snapshot != StateSyncSnapshot
    && s.dataResetGeneration >= 0
  }

  // ---- shapes ----

  /** What a task list asks for; execution never changes it. */
  function StepsOf(ts: seq<PlannedTask>): (r: seq<Step>)
    ensures |r| == |ts|
    ensures forall i :: 0 <= i < |ts| ==> r[i] == Step(ts[i].taskType, ts[i].params)
  {
    seq(|ts|, i requires 0 <= i < |ts| => Step(ts[i].taskType, ts[i].params))
  }

  function Todo(t: TaskType): Step { Step(t, NoParams) }

  function Recording(h: Hold): Step { Step(RecordMaintenanceHold, HoldInEffect(h)) }

  /** A reset plan's steps: parked under a requested hold, clearing a hold that was in effect. */
  function ResetStepsFor(g: int, want: Hold, have: Hold): seq<Step> {
    var body := [Todo(ObserveImage), Todo(MarkNotReady), Todo(StopSeid), Todo(ResetDataKeepSignState), Step(RecordDataReset, Generation(g))];
    if want != NoHold then body + [Recording(Immediate)]
    else if have != NoHold then body + [Todo(MarkReady), Recording(NoHold)]
    else body + [Todo(MarkReady)]
  }

  /** Any of those endings. */
  predicate ResetShape(steps: seq<Step>, g: int) {
    && 6 <= |steps| <= 7
    && steps[0] == Todo(ObserveImage) && steps[1] == Todo(MarkNotReady) && steps[2] == Todo(StopSeid)
    && steps[3] == Todo(ResetDataKeepSignState) && steps[4] == Step(RecordDataReset, Generation(g))
    && (steps[5] == Todo(MarkReady) || steps[5] == Recording(Immediate))
    && (|steps| == 7 ==> steps[6] == Recording(NoHold))
  }

  predicate NoWipe(steps: seq<Step>) {
    forall i :: 0 <= i < |steps| ==> steps[i].taskType != ResetDataKeepSignState && steps[i].taskType != RecordDataReset
  }

  /** The start steps are ones the start guard lets pass while the hold request is `hold`. */
  predicate StartsFit(steps: seq<Step>, hold: Hold) {
    && (forall i :: 0 <= i < |steps| && steps[i].taskType == MarkReady ==> hold == NoHold)
    && (forall i :: 0 <= i < |steps| && steps[i].taskType == StartSeidOnce ==> hold == AfterExit)
  }

  /** Every start-seid-once is followed by a mark-not-ready before a hold is recorded. */
  predicate StartOnceCloses(steps: seq<Step>) {
    forall i, j :: 0 <= i < j < |steps| && steps[i].taskType == StartSeidOnce && steps[j].taskType == RecordMaintenanceHold ==>
      exists k :: i < k < j && steps[k].taskType == MarkNotReady
  }

  predicate NoWriter(steps: seq<Step>) {
    forall i :: 0 <= i < |steps| ==> !IsConfigWriter(steps[i].taskType)
  }

  /** Steps fit for a Running node under this hold request. */
  predicate RunningSteps(steps: seq<Step>, hold: Hold) {
    StartsFit(steps, hold) && StartOnceCloses(steps) && NoWriter(steps)
  }

  predicate RunningPlan(p: TaskPlan, id: nat) {
    Fresh(p) && p.id == id && p.failedPhase == Unset && p.targetPhase == Running && p.configHash == ""
  }

  // ---- the builders ----

  lemma AssembledPlan(id: nat, steps: seq<Step>)
    requires |steps| > 0
    ensures RunningPlan(NewPlan(id, Assemble(id, steps), Unset), id)
    ensures Fresh(NewPlan(id, Assemble(id, steps), Failed))
    ensures StepsOf(Assemble(id, steps)) == steps
  {
  }

  lemma ResetPlanBase(g: int, id: nat)
    ensures RunningPlan(BuildDataResetPlan(g, id), id)
    ensures StepsOf(BuildDataResetPlan(g, id).tasks) == ResetStepsFor(g, NoHold, NoHold)
  {
    AssembledPlan(id, DataResetSteps(g));
    assert DataResetSteps(g) == ResetStepsFor(g, NoHold, NoHold);
    var ts := Assemble(id, DataResetSteps(g));
    assert StepsOf(ts[3 := ts[3].(maxRetries := DATA_RESET_MAX_RETRIES)]) == StepsOf(ts);
  }

  /** parkInsteadOfRelease and clearHoldAfterRelease succeed on any plan that
      ends in mark-ready, and change only its ending. */
  lemma ParkKeeps(p: TaskPlan)
    requires Fresh(p) && EndsInMarkReady(p)
    ensures ParkInsteadOfRelease(p).Some? && Fresh(ParkInsteadOfRelease(p).value)
    ensures StepsOf(ParkInsteadOfRelease(p).value.tasks) == StepsOf(p.tasks)[|p.tasks| - 1 := Recording(Immediate)]
    ensures ParkInsteadOfRelease(p).value == p.(tasks := ParkInsteadOfRelease(p).value.tasks)
  {
  }

  lemma ClearKeeps(p: TaskPlan)
    requires Fresh(p) && EndsInMarkReady(p)
    ensures ClearHoldAfterRelease(p).Some? && Fresh(ClearHoldAfterRelease(p).value)
    ensures StepsOf(ClearHoldAfterRelease(p).value.tasks) == StepsOf(p.tasks) + [Recording(NoHold)]
    ensures ClearHoldAfterRelease(p).value == p.(tasks := ClearHoldAfterRelease(p).value.tasks)
  {
  }

  lemma ResetPlanIs(n: Node, id: nat)
    ensures ResetPlanFor(n, id).Some?
    ensures RunningPlan(ResetPlanFor(n, id).value, id)
    ensures StepsOf(ResetPlanFor(n, id).value.tasks) == ResetStepsFor(n.spec.dataResetGeneration, n.spec.hold, n.status.maintenanceHold)
  {
    var g := n.spec.dataResetGeneration;
    var p := BuildDataResetPlan(g, id);
    ResetPlanBase(g, id);
    assert StepsOf(p.tasks)[5] == Todo(MarkReady);
    ParkKeeps(p);
    ClearKeeps(p);
    assert ResetStepsFor(g, NoHold, NoHold)[5 := Recording(Immediate)] == ResetStepsFor(g, Immediate, NoHold);
    assert ResetStepsFor(g, NoHold, NoHold) + [Recording(NoHold)] == ResetStepsFor(g, NoHold, Immediate);
  }

  lemma ResetStepsFit(g: int, want: Hold, have: Hold)
    ensures RunningSteps(ResetStepsFor(g, want, have), want)
  {
    var steps := ResetStepsFor(g, want, have);
    assert forall i :: 0 <= i < |steps| ==> steps[i].taskType != StartSeidOnce;
  }

  lemma HoldPlanIs(want: Hold, have: Hold, id: nat)
    ensures RunningPlan(BuildHoldPlan(want, have, id), id)
    ensures StepsOf(BuildHoldPlan(want, have, id).tasks) == HoldSteps(want, have)
  {
    AssembledPlan(id, HoldSteps(want, have));
  }

  /** Moving the hold needs no start step unless the request itself asks for it. */
  lemma HoldStepsFit(want: Hold, have: Hold, hold: Hold)
    requires (want == NoHold || (want == AfterExit && have == Immediate)) ==> want == hold
    ensures RunningSteps(HoldSteps(want, have), hold) && NoWipe(HoldSteps(want, have))
  {
    var steps := HoldSteps(want, have);
    if want == AfterExit && have == Immediate {
      assert steps[3].taskType == MarkNotReady;
      assert forall i :: 0 <= i < |steps| && steps[i].taskType == StartSeidOnce ==> i == 1;
      assert forall i :: 0 <= i < |steps| && steps[i].taskType == RecordMaintenanceHold ==> i == 4;
    } else {
      assert forall i :: 0 <= i < |steps| ==> steps[i].taskType != StartSeidOnce;
    }
  }

  /** The controller-side and bootstrap tasks, none of which touches the gate or writes config. */
  predicate Preparatory(t: TaskType) {
    || t == ValidateSigningKey || t == ValidateNodeKey || t == ValidateOperatorKeyring
    || t == EnsureDataPVC || t == ApplyRBACProxyConfig || t == ApplyStatefulSet || t == ApplyService
    || t == SnapshotRestore || t == ConfigureGenesis
  }

  predicate AllPreparatory(prog: seq<TaskType>) { forall i :: 0 <= i < |prog| ==> Preparatory(prog[i]) }

  lemma KeyGatesPreparatory(s: Spec)
    ensures AllPreparatory(KeyGates(s))
    ensures forall i :: 0 <= i < |KeyGates(s)| ==> KeyGates(s)[i] != EnsureDataPVC
  {
  }

  /** Preparatory steps, observe-image, and mark-ready unless a hold is requested. */
  function UpdateSteps(gates: seq<TaskType>, ready: bool): (r: seq<Step>)
    ensures |r| == |gates| + (if ready then 4 else 3)
    ensures forall i :: 0 <= i < |gates| ==> r[i] == Todo(gates[i])
    ensures r[|gates|..] == [Todo(ApplyStatefulSet), Todo(ApplyService), Todo(ObserveImage)] + if ready then [Todo(MarkReady)] else []
  {
    Plain(gates) + [Todo(ApplyStatefulSet), Todo(ApplyService), Todo(ObserveImage)] + if ready then [Todo(MarkReady)] else []
  }

  lemma {:induction false} DropLast(ts: seq<PlannedTask>)
    requires |ts| > 0 && ts[|ts| - 1].taskType == MarkReady
    requires forall i :: 0 <= i < |ts| - 1 ==> ts[i].taskType != MarkReady
    ensures DropMarkReady(ts) == ts[..|ts| - 1]
  {
    if |ts| > 1 {
      DropLast(ts[1..]);
      assert ts[..|ts| - 1] == [ts[0]] + ts[1..][..|ts| - 2];
    }
  }

  lemma PlainUpdate(gates: seq<TaskType>)
    ensures Plain(gates + [ApplyStatefulSet, ApplyService, ObserveImage, MarkReady]) == UpdateSteps(gates, true)
    ensures UpdateSteps(gates, true)[..|gates| + 3] == UpdateSteps(gates, false)
  {
  }

  lemma UpdatePlanIs(n: Node, id: nat)
    ensures RunningPlan(UpdatePlanFor(n, id), id)
    ensures StepsOf(UpdatePlanFor(n, id).tasks) == UpdateSteps(KeyGates(n.spec), n.spec.hold == NoHold)
  {
    var gates := KeyGates(n.spec);
    PlainUpdate(gates);
    AssembledPlan(id, UpdateSteps(gates, true));
    if n.spec.hold != NoHold {
      UpdateHeld(id, gates);
      KeyGatesPreparatory(n.spec);
    }
  }

  lemma UpdateHeld(id: nat, gates: seq<TaskType>)
    ensures AllPreparatory(gates) ==>
            var ts := DropMarkReady(Assemble(id, UpdateSteps(gates, true)));
            RunningPlan(NewPlan(id, ts, Unset), id) && StepsOf(ts) == UpdateSteps(gates, false)
  {
    if AllPreparatory(gates) {
      var steps := UpdateSteps(gates, true);
      var ts := Assemble(id, steps);
      AssembledPlan(id, steps);
      LastIsMarkReady(gates, ts);
      DropLast(ts);
      PrefixOfUpdate(gates, ts);
      ShorterPlan(id, steps);
    }
  }

  lemma LastIsMarkReady(gates: seq<TaskType>, ts: seq<PlannedTask>)
    requires AllPreparatory(gates) && StepsOf(ts) == UpdateSteps(gates, true)
    ensures |ts| > 0 && ts[|ts| - 1].taskType == MarkReady
    ensures forall i :: 0 <= i < |ts| - 1 ==> ts[i].taskType != MarkReady
  {
    var steps := UpdateSteps(gates, true);
    UpdateStepTypes(gates, true);
    assert forall i :: 0 <= i < |ts| ==> steps[i].taskType == ts[i].taskType;
  }

  lemma PrefixOfUpdate(gates: seq<TaskType>, ts: seq<PlannedTask>)
    requires StepsOf(ts) == UpdateSteps(gates, true)
    ensures StepsOf(ts[..|ts| - 1]) == UpdateSteps(gates, false)
  {
    PlainUpdate(gates);
    var steps := UpdateSteps(gates, true);
    assert StepsOf(ts[..|ts| - 1]) == steps[..|gates| + 3];
    assert steps[..|gates| + 3] == UpdateSteps(gates, false);
  }

  lemma ShorterPlan(id: nat, steps: seq<Step>)
    requires |steps| > 1
    ensures var ts := Assemble(id, steps); RunningPlan(NewPlan(id, ts[..|ts| - 1], Unset), id)
  {
    AssembledPlan(id, steps);
  }

  lemma UpdateStepTypes(gates: seq<TaskType>, ready: bool)
    requires AllPreparatory(gates)
    ensures var r := UpdateSteps(gates, ready);
            && (forall i :: 0 <= i < |gates| + 2 ==> Preparatory(r[i].taskType))
            && r[|gates| + 2].taskType == ObserveImage
            && (ready ==> r[|gates| + 3].taskType == MarkReady)
  {
    var r := UpdateSteps(gates, ready);
    var tail := r[|gates|..];
    assert r[|gates|] == tail[0] && r[|gates| + 1] == tail[1] && r[|gates| + 2] == tail[2];
    if ready { assert r[|gates| + 3] == tail[3]; }
  }

  lemma UpdateStepsFit(gates: seq<TaskType>, hold: Hold)
    requires AllPreparatory(gates)
    ensures RunningSteps(UpdateSteps(gates, hold == NoHold), hold) && NoWipe(UpdateSteps(gates, hold == NoHold))
  {
    UpdateStepTypes(gates, hold == NoHold);
    var steps := UpdateSteps(gates, hold == NoHold);
    assert forall i :: 0 <= i < |steps| ==> Preparatory(steps[i].taskType) || steps[i].taskType == ObserveImage || (hold == NoHold && steps[i].taskType == MarkReady);
  }

  /** The steps buildRunningPlan chooses, arm by arm. */
  function RunningStepsOf(n: Node): Option<seq<Step>> {
    if DataResetPending(n) then Some(ResetStepsFor(n.spec.dataResetGeneration, n.spec.hold, n.status.maintenanceHold))
    else if HoldMove(n).Some? then Some(HoldSteps(HoldMove(n).value.0, HoldMove(n).value.1))
    else if PodTemplateDrifted(n.spec, n.status, n.platform) then Some(UpdateSteps(KeyGates(n.spec), n.spec.hold == NoHold))
    else if n.status.sidecarReady == SidecarNotReady && n.spec.hold == NoHold then Some([Todo(MarkReady)])
    else None
  }

  /** buildRunningPlan never fails, and its plan is fresh and made of those steps. */
  lemma RunningPlanIs(n: Node, id: nat)
    ensures !StaticRunningPlan(n, id).BuildError?
    ensures StaticRunningPlan(n, id).Built? <==> RunningStepsOf(n).Some?
    ensures StaticRunningPlan(n, id).Built? ==>
              && RunningPlan(StaticRunningPlan(n, id).plan, id)
              && StepsOf(StaticRunningPlan(n, id).plan.tasks) == RunningStepsOf(n).value
  {
    if DataResetPending(n) {
      ResetPlanIs(n, id);
    } else if HoldMove(n).Some? {
      HoldPlanIs(HoldMove(n).value.0, HoldMove(n).value.1, id);
    } else if PodTemplateDrifted(n.spec, n.status, n.platform) {
      UpdatePlanIs(n, id);
    } else {
      AssembledPlan(id, [Todo(MarkReady)]);
    }
  }

  /** Every plan of a Running ConfigMap-configured node writes no config, wipes
      only for a pending reset, and while a hold is requested carries no
      mark-ready and closes the gate again after any start-seid-once. */
  lemma RunningPlanShape(n: Node)
    requires RunningStepsOf(n).Some?
    ensures RunningSteps(RunningStepsOf(n).value, n.spec.hold)
    ensures if DataResetPending(n) then ResetShape(RunningStepsOf(n).value, n.spec.dataResetGeneration)
            else NoWipe(RunningStepsOf(n).value)
  {
    if DataResetPending(n) {
      ResetStepsFit(n.spec.dataResetGeneration, n.spec.hold, n.status.maintenanceHold);
    } else if HoldMove(n).Some? {
      HoldStepsFit(HoldMove(n).value.0, HoldMove(n).value.1, n.spec.hold);
    } else if PodTemplateDrifted(n.spec, n.status, n.platform) {
      KeyGatesPreparatory(n.spec);
      UpdateStepsFit(KeyGates(n.spec), n.spec.hold);
    }
  }

  // ---- the init plan ----

  function StrippedProg(snap: Snapshot): seq<TaskType> {
    if snap == S3Snapshot then [SnapshotRestore, ConfigureGenesis, MarkReady] else [ConfigureGenesis, MarkReady]
  }

  predicate Managed(t: TaskType) { t == ConfigValidate || IsConfigWriter(t) }

  lemma {:induction false} DropManagedConcat(a: seq<TaskType>, b: seq<TaskType>)
    ensures DropManaged(a + b) == DropManaged(a) + DropManaged(b)
  {
    if a == [] {
      assert a + b == b;
    } else {
      hide IsConfigWriter;
      var head := if a[0] == ConfigValidate || IsConfigWriter(a[0]) then [] else [a[0]];
      DropManagedConcat(a[1..], b);
      assert (a + b)[1..] == a[1..] + b;
      Orders.Associative(head, DropManaged(a[1..]), DropManaged(b));
    }
  }

  lemma DropManagedUniform(a: seq<TaskType>)
    ensures (forall i :: 0 <= i < |a| ==> Managed(a[i])) ==> DropManaged(a) == []
    ensures (forall i :: 0 <= i < |a| ==> !Managed(a[i])) ==> DropManaged(a) == a
  {
    if a != [] { DropManagedUniform(a[1..]); }
  }

  lemma DropManagedMiddle(head: seq<TaskType>, mid: seq<TaskType>)
    requires forall i :: 0 <= i < |head| ==> !Managed(head[i])
    requires forall i :: 0 <= i < |mid| ==> Managed(mid[i])
    ensures DropManaged(head + mid + [MarkReady]) == head + [MarkReady]
  {
    DropManagedUniform(head);
    DropManagedUniform(mid);
    DropManagedUniform([MarkReady]);
    DropManagedConcat(head, mid);
    DropManagedConcat(head + mid, [MarkReady]);
    assert head + [] == head;
  }

  lemma DropManagedIs(snap: Snapshot)
    ensures DropManaged(SidecarProg(snap)) == StrippedProg(snap)
  {
    match snap
    case NoSnapshot =>
      DropManagedMiddle([ConfigureGenesis], [ConfigApply, ConfigValidate]);
      assert SidecarProg(snap) == [ConfigureGenesis] + [ConfigApply, ConfigValidate] + [MarkReady];
    case S3Snapshot =>
      DropManagedMiddle([SnapshotRestore, ConfigureGenesis], [ConfigApply, ConfigureStateSync, ConfigValidate]);
      assert SidecarProg(snap) == [SnapshotRestore, ConfigureGenesis] + [ConfigApply, ConfigureStateSync, ConfigValidate] + [MarkReady];
    case _ =>
      DropManagedMiddle([ConfigureGenesis], [ConfigApply, ConfigureStateSync, ConfigValidate]);
      assert SidecarProg(snap) == [ConfigureGenesis] + [ConfigApply, ConfigureStateSync, ConfigValidate] + [MarkReady];
  }

  predicate InitSteps(steps: seq<Step>) {
    && |steps| > 0
    && (forall i :: 0 <= i < |steps| - 1 ==> Preparatory(steps[i].taskType))
    && var last := steps[|steps| - 1]; last == Todo(MarkReady) || last == Recording(Immediate)
  }

  lemma InitStepsFit(steps: seq<Step>)
    requires InitSteps(steps)
    ensures NoWipe(steps) && NoWriter(steps)
    ensures forall i :: 0 <= i < |steps| ==> steps[i].taskType != StartSeidOnce
  {
    assert forall i :: 0 <= i < |steps| ==> Preparatory(steps[i].taskType) || i == |steps| - 1;
  }

  lemma BaseProgTypes(s: Spec, snap: Snapshot)
    ensures var prog := BaseProg(s, StrippedProg(snap));
            && |prog| > 0 && prog[|prog| - 1] == MarkReady
            && forall i :: 0 <= i < |prog| - 1 ==> Preparatory(prog[i])
  {
    KeyGatesPreparatory(s);
    var gates := KeyGates(s);
    var prefix := [EnsureDataPVC] + gates + [ApplyRBACProxyConfig, ApplyStatefulSet, ApplyService];
    assert AllPreparatory(prefix);
    var prog := prefix + StrippedProg(snap);
    assert prog == BaseProg(s, StrippedProg(snap));
  }

  lemma StrippedBase(s: Spec, id: nat)
    requires s.nodeConfig && !(s.mode == Validator && s.genesisCeremony)
    ensures var steps := Plain(BaseProg(s, StrippedProg(SnapshotSource(s))));
            && InitSteps(steps)
            && BuildInitPlan(s, id) == WithConfigValues(NewPlan(id, Assemble(id, steps), Failed), s)
  {
    var snap := SnapshotSource(s);
    SidecarProgressionIs(snap);
    DropManagedIs(snap);
    BaseProgTypes(s, snap);
  }

  /** Before the hold is looked at, the init plan is prepared steps and a release. */
  lemma ReleasedInitPlan(s: Spec, id: nat)
    requires Admitted(s)
    ensures var b := BuildInitPlan(s, id);
            && b.Built? && b.plan.id == id && Fresh(b.plan) && b.plan.failedPhase == Failed && b.plan.targetPhase == Running
            && !b.startsUpdate && InitSteps(StepsOf(b.plan.tasks)) && EndsInMarkReady(b.plan)
            && StepsOf(b.plan.tasks)[|b.plan.tasks| - 1] == Todo(MarkReady)
  {
    StrippedBase(s, id);
    var steps := Plain(BaseProg(s, StrippedProg(SnapshotSource(s))));
    AssembledPlan(id, steps);
    assert steps[|steps| - 1] == Todo(MarkReady);
    hide InitSteps, BaseProg, StrippedProg, SnapshotSource, BuildInitPlan;
    var p := NewPlan(id, Assemble(id, steps), Failed).(configHash := s.configHash.value);
    assert BuildInitPlan(s, id) == Built(p, false);
    assert StepsOf(p.tasks)[|steps| - 1].taskType == p.tasks[|steps| - 1].taskType;
  }

  lemma ParkedSteps(p: TaskPlan)
    requires Fresh(p) && EndsInMarkReady(p) && InitSteps(StepsOf(p.tasks))
    ensures InitSteps(StepsOf(p.tasks)[|p.tasks| - 1 := Recording(Immediate)])
  {
  }

  /** The init plan of an admitted node always builds. A requested hold replaces
      its final mark-ready by recording the hold; nothing else in it starts seid. */
  lemma InitPlanIs(s: Spec, id: nat)
    requires Admitted(s)
    ensures var b := StaticInitPlan(s, id);
            && b.Built? && b.plan.id == id && Fresh(b.plan) && b.plan.failedPhase == Failed && b.plan.targetPhase == Running
            && !b.startsUpdate && InitSteps(StepsOf(b.plan.tasks))
            && StepsOf(b.plan.tasks)[|b.plan.tasks| - 1] == if s.hold == NoHold then Todo(MarkReady) else Recording(Immediate)
  {
    hide InitSteps, BuildInitPlan, Fresh, ParkInsteadOfRelease;
    ReleasedInitPlan(s, id);
    var p := BuildInitPlan(s, id).plan;
    ParkKeeps(p);
    ParkedSteps(p);
  }

  // ---- no config writer on a mounted config ----

  lemma WriterInSteps(s: Spec, p: TaskPlan)
    ensures NoWriter(StepsOf(p.tasks)) ==> !MountedConfigWriter(s, p)
  {
    assert forall i :: 0 <= i < |p.tasks| ==> StepsOf(p.tasks)[i].taskType == p.tasks[i].taskType;
  }

  /** For an admitted spec no builder in any phase fails or yields a plan ResolvePlan would refuse. */
  lemma NoRefusalWhenAdmitted(n: Node, id: nat)
    requires Admitted(n.spec)
    ensures !BuildPlan(n, id).BuildError?
    ensures BuildPlan(n, id).Built? ==> !MountedConfigWriter(n.spec, BuildPlan(n, id).plan)
  {
    if n.status.phase == Running {
      RunningPlanIs(n, id);
      if BuildPlan(n, id).Built? {
        RunningPlanShape(n);
        WriterInSteps(n.spec, BuildPlan(n, id).plan);
      }
    } else {
      InitPlanIs(n.spec, id);
      InitStepsFit(StepsOf(BuildPlan(n, id).plan.tasks));
      WriterInSteps(n.spec, BuildPlan(n, id).plan);
    }
  }

  /** Without the admission rules the refusal has exactly one cause: the init
      plan of a genesis-ceremony validator. */
  lemma RefusalIsExactlyTheCeremony(n: Node, id: nat)
    requires n.spec.nodeConfig && BuildPlan(n, id).Built?
    ensures MountedConfigWriter(n.spec, BuildPlan(n, id).plan) <==>
            n.status.phase != Running && n.spec.mode == Validator && n.spec.genesisCeremony
  {
    if n.status.phase == Running {
      RunningPlanIs(n, id);
      RunningPlanShape(n);
      WriterInSteps(n.spec, BuildPlan(n, id).plan);
    } else if n.spec.mode == Validator && n.spec.genesisCeremony {
      CeremonyWrites(n.spec, id);
    } else {
      OtherInitWritesNothing(n.spec, id);
    }
  }

  /** With config-validate stripped there is nowhere to splice an overlay. */
  lemma StrippedOverlayFails(s: Spec, id: nat, steps: seq<Step>)
    requires InitSteps(steps) && WithConfigValues(NewPlan(id, Assemble(id, steps), Failed), s).Built?
    ensures WithConfigValues(NewPlan(id, Assemble(id, steps), Failed), s).plan.tasks == Assemble(id, steps)
  {
    var ts := Assemble(id, steps);
    assert forall i :: 0 <= i < |ts| ==> ts[i].taskType == steps[i].taskType;
    assert OnlyValidateTask(ts, |ts|);
    SpliceAt(id, ts, [], |ts|);
  }

  lemma EndingWritesNothing(s: Spec, p: TaskPlan, steps: seq<Step>)
    requires InitSteps(steps) && p.tasks == Assemble(p.id, steps)
    ensures !MountedConfigWriter(s, p)
    ensures ParkInsteadOfRelease(p).Some? ==> !MountedConfigWriter(s, ParkInsteadOfRelease(p).value)
  {
    InitStepsFit(steps);
    assert forall i :: 0 <= i < |p.tasks| ==> p.tasks[i].taskType == steps[i].taskType;
  }

  lemma OtherInitWritesNothing(s: Spec, id: nat)
    requires s.nodeConfig && !(s.mode == Validator && s.genesisCeremony) && StaticInitPlan(s, id).Built?
    ensures !MountedConfigWriter(s, StaticInitPlan(s, id).plan)
  {
    StrippedBase(s, id);
    StrippedOverlayFails(s, id, Plain(BaseProg(s, StrippedProg(SnapshotSource(s)))));
    var steps := Plain(BaseProg(s, StrippedProg(SnapshotSource(s))));
    assert BuildInitPlan(s, id).plan.id == id;
    EndingWritesNothing(s, BuildInitPlan(s, id).plan, steps);
  }

  lemma CeremonyWrites(s: Spec, id: nat)
    requires s.nodeConfig && s.mode == Validator && s.genesisCeremony && StaticInitPlan(s, id).Built?
    ensures MountedConfigWriter(s, StaticInitPlan(s, id).plan)
  {
    hide Splice, Assemble;
    var p := NewPlan(id, Assemble(id, Plain(GENESIS_PROG)), Failed);
    CeremonyTasks(id, p.tasks);
    assert StaticInitPlan(s, id).plan.tasks[4].taskType == GenerateIdentity;
  }

  lemma CeremonyTasks(id: nat, ts: seq<PlannedTask>)
    requires ts == Assemble(id, Plain(GENESIS_PROG))
    ensures |ts| > 5 && ts[4].taskType == GenerateIdentity
    ensures |Splice(id, ts, [])| > 5 && Splice(id, ts, [])[4].taskType == GenerateIdentity
  {
    assert OnlyValidateTask(ts, 10);
    SpliceAt(id, ts, [], 10);
  }

  // ---- every builder hands over a fresh plan, for every spec ----

  /** The splice numbers whatever list it is given. */
  lemma {:induction false} SpliceIsFresh(id: nat, src: seq<PlannedTask>, out: seq<PlannedTask>)
    requires PositionIDs(id, out) && UntouchedFrom(out, 0) && UntouchedFrom(src, 0)
    ensures PositionIDs(id, Splice(id, src, out)) && UntouchedFrom(Splice(id, src, out), 0)
    ensures |Splice(id, src, out)| >= |out| + |src|
    decreases |src|
  {
    if src != [] {
      var head := if src[0].taskType == ConfigValidate then out + [BuildPlannedTask(id, ConfigPatch, |out|, OverlayPatch)] else out;
      SpliceIsFresh(id, src[1..], head + [src[0].(id := TaskID(id, src[0].taskType, |head|))]);
    }
  }

  lemma OverlaidIsFresh(p: TaskPlan, s: Spec)
    requires Fresh(p) && WithConfigValues(p, s).Built?
    ensures Fresh(WithConfigValues(p, s).plan) && WithConfigValues(p, s).plan.id == p.id
  {
    hide Splice;
    SpliceIsFresh(p.id, p.tasks, []);
  }

  lemma InitIsFresh(s: Spec, id: nat)
    requires BuildInitPlan(s, id).Built?
    ensures Fresh(BuildInitPlan(s, id).plan) && BuildInitPlan(s, id).plan.id == id
  {
    hide WithConfigValues, Fresh, BaseProg;
    var prog := if s.mode == Validator && s.genesisCeremony then GENESIS_PROG
                else BaseProg(s, WithoutManagedConfigTasks(s, SidecarProgression(SnapshotSource(s)).value));
    BaseProgNonEmpty(s, prog);
    AssembledPlan(id, Plain(prog));
    OverlaidIsFresh(NewPlan(id, Assemble(id, Plain(prog)), Failed), s);
  }

  lemma BaseProgNonEmpty(s: Spec, prog: seq<TaskType>)
    requires prog == GENESIS_PROG || exists sidecar :: prog == BaseProg(s, sidecar)
    ensures |prog| > 0
  {
  }

  lemma ModeUpdateIsFresh(n: Node, id: nat, prog: seq<TaskType>)
    requires |prog| > 0 && AssembleUpdatePlan(n, id, prog).Built?
    ensures Fresh(AssembleUpdatePlan(n, id, prog).plan) && AssembleUpdatePlan(n, id, prog).plan.id == id
  {
    hide WithConfigValues, Fresh;
    var full := if n.status.currentConfigHash == "" || ConfigValuesDrifted(n) then InsertBefore(prog, ConfigPatch, ConfigApply).value else prog;
    AssembledPlan(id, Plain(full));
    OverlaidIsFresh(NewPlan(id, Assemble(id, Plain(full)), Unset), n.spec);
  }

  /** For every spec, mode and phase, admitted or not. */
  lemma EveryBuiltPlanIsFresh(n: Node, id: nat)
    requires BuildPlan(n, id).Built?
    ensures Fresh(BuildPlan(n, id).plan) && BuildPlan(n, id).plan.id == id && PlanInvariant(BuildPlan(n, id).plan)
  {
    hide PlanInvariant, Fresh, StaticRunningPlan, BuildInitPlan, AssembleUpdatePlan;
    if n.spec.nodeConfig && n.status.phase == Running {
      RunningPlanIs(n, id);
    } else if n.spec.nodeConfig {
      InitIsFresh(n.spec, id);
      if n.spec.hold != NoHold { ParkKeeps(BuildInitPlan(n.spec, id).plan); }
    } else if n.status.phase != Running {
      InitIsFresh(n.spec, id);
    } else if PodTemplateDrifted(n.spec, n.status, n.platform) {
      ModeUpdateIsFresh(n, id, UpdateProg(n.spec));
    } else if ConfigValuesDrifted(n) {
      ModeUpdateIsFresh(n, id, CONFIG_UPDATE_PROG);
    } else {
      AssembledPlan(id, [Step(MarkReady, NoParams)]);
    }
    FreshPlanInvariant(BuildPlan(n, id).plan);
  }
}
