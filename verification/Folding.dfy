/** Raises of the reset counter fold: however many arrive while a reset plan
    runs, one further wipe is recorded for all of them. */
module Folding {
  import opened Options
  import opened NodeTypes
  import opened Executor
  import opened Builders
  import opened StaticPlans
  import opened Reconcile
  import opened Safety
  import opened Runs
  import opened PersistedPlans

  function RecordsOf(n: Node): nat { Records(n.history.log) }

  predicate Behind(n: Node) { n.status.dataResetGeneration < n.spec.dataResetGeneration }

  /** Plan p with k tasks done is a reset whose record is still to come. */
  predicate Unrecorded(p: TaskPlan, k: nat) { ResetGeneration(p.tasks).Some? && k <= 4 }

  /** How many more resets may be recorded if the counter is not raised again:
      one for the requested value, and one before it for an unfinished reset plan
      that was built for a lower one. */
  function OwedBy(n: Node, p: TaskPlan, k: nat): nat {
    if !Behind(n) then 0
    else if Unrecorded(p, k) && ResetGeneration(p.tasks).value < n.spec.dataResetGeneration then 2
    else 1
  }

  function Owed(n: Node): nat {
    if n.HasActivePlan() then OwedBy(n, n.status.plan.value, FirstIncomplete(n.status.plan.value.tasks))
    else if Behind(n) then 1 else 0
  }

  // ---- one attempt ----

  lemma EmitCounts(n: Node, e: Event)
    ensures RecordsOf(n.Emit(e)) == RecordsOf(n) + if e.ResetRecorded? then 1 else 0
  {
    CountsAppend(n.history.log, e);
  }

  lemma EffectCounts(n: Node, p: TaskPlan, t: PlannedTask)
    requires t.taskType != RecordDataReset
    ensures var m := TaskEffect(n, p, t); RecordsOf(m) == RecordsOf(n) && m.status.dataResetGeneration == n.status.dataResetGeneration
  {
    hide Records;
    match t.taskType
    case MarkReady => EmitCounts(n, GateOpened(false, n.status.phase, n.spec.hold, DataResetPending(n)));
    case StartSeidOnce => EmitCounts(n, GateOpened(true, n.status.phase, n.spec.hold, DataResetPending(n)));
    case MarkNotReady => EmitCounts(n, GateClosed(ResetGeneration(p.tasks)));
    case ResetDataKeepSignState => EmitCounts(n, WipeCompleted(p.id));
    case ObserveImage => EmitCounts(n, ImageStamped(n.history.templatePinned));
    case RecordMaintenanceHold => if t.params.HoldInEffect? { EmitCounts(n, HoldRecorded(t.params.hold)); }
    case _ =>
  }

  lemma SubmissionCounts(n: Node, t: TaskType, o: Outcome)
    ensures var m := Submitted(n, t, o); RecordsOf(m) == RecordsOf(n) && m.status == n.status && m.spec == n.spec
  {
    hide Records;
    EmitCounts(n, WipeSubmitted(n.sidecar.gateOpen, n.sidecar.seidRunning));
  }

  /** Any attempt but a completed record-data-reset leaves the count and the counter. */
  lemma AttemptCounts(n: Node, p: TaskPlan, t: PlannedTask, o: Outcome)
    requires t.taskType != RecordDataReset || !Judge(n, t, o).Completes?
    ensures var m := StepWorld(n, p, t, o); RecordsOf(m) == RecordsOf(n) && m.status.dataResetGeneration == n.status.dataResetGeneration
  {
    hide Records, TaskEffect;
    var m := Submitted(n, t.taskType, o);
    SubmissionCounts(n, t.taskType, o);
    if Judge(n, t, o).Completes? {
      EffectCounts(m, p, t);
    } else {
      EmitCounts(m, StartRefused(n.status.phase, n.spec != n.history.builtFrom));
      EmitCounts(m, GateOpened(t.taskType == StartSeidOnce, m.status.phase, m.spec.hold, DataResetPending(m)));
    }
  }

  /** Only a reset plan has a record-data-reset, as its fifth task. */
  lemma RecordIsFifth(n: Node, p: TaskPlan, k: nat)
    requires Executable(n, p) && k == FirstIncomplete(p.tasks) < |p.tasks| && p.tasks[k].taskType == RecordDataReset
    ensures ResetGeneration(p.tasks).Some? && k == 4 && Behind(n) && p.tasks[k].params == Generation(ResetGeneration(p.tasks).value)
    ensures n.status.dataResetGeneration < ResetGeneration(p.tasks).value
  {
    hide Records, Base, TasksInvariant;
    StepNoWipe(p, k);
    ResetStepAt(p, ResetGeneration(p.tasks).value, k);
  }

  /** A completed record-data-reset is one record, up to the plan's own value. */
  lemma RecordCounts(n: Node, p: TaskPlan, k: nat, o: Outcome)
    requires Executable(n, p) && k == FirstIncomplete(p.tasks) < |p.tasks| && p.tasks[k].taskType == RecordDataReset
    requires Judge(n, p.tasks[k], o).Completes?
    ensures ResetGeneration(p.tasks).Some? && k == 4 && Behind(n)
    ensures var m := StepWorld(n, p, p.tasks[k], o);
            RecordsOf(m) == RecordsOf(n) + 1 && m.status.dataResetGeneration == ResetGeneration(p.tasks).value
  {
    hide Executable, Records, ResetGeneration, Behind;
    RecordIsFifth(n, p, k);
    var g := ResetGeneration(p.tasks).value;
    EmitCounts(n, ResetRecorded(p.id, g, n.status.dataResetGeneration));
  }

  lemma AttemptOwes(n: Node, p: TaskPlan, o: Outcome)
    requires Executable(n, p) && FirstIncomplete(p.tasks) < |p.tasks|
    ensures var k := FirstIncomplete(p.tasks);
            var v, m := Judge(n, p.tasks[k], o), StepWorld(n, p, p.tasks[k], o);
            m.spec == n.spec && RecordsOf(m) + OwedBy(m, p, if v.Completes? then k + 1 else k) <= RecordsOf(n) + OwedBy(n, p, k)
  {
    hide RecordsOf, Base, Progress, TasksInvariant, Judge;
    var k := FirstIncomplete(p.tasks);
    WorldFrame(n, p, p.tasks[k], o);
    if p.tasks[k].taskType == RecordDataReset && Judge(n, p.tasks[k], o).Completes? {
      RecordCounts(n, p, k, o);
    } else {
      AttemptCounts(n, p, p.tasks[k], o);
    }
  }

  // ---- one execution ----

  /** What is owed once the plan may have ended. */
  function OwedAfter(n: Node, q: TaskPlan): nat {
    if q.phase.Active? then OwedBy(n, q, FirstIncomplete(q.tasks)) else if Behind(n) then 1 else 0
  }

  lemma StepOwes(n: Node, p: TaskPlan, o: Outcome)
    requires Executable(n, p) && FirstIncomplete(p.tasks) < |p.tasks|
    ensures var (m, q) := Advance(n, p, FirstIncomplete(p.tasks), o);
            m.spec == n.spec && RecordsOf(m) + OwedAfter(m, q) <= RecordsOf(n) + OwedBy(n, p, FirstIncomplete(p.tasks))
  {
    hide RecordsOf, Base, Progress, StepWorld, Judge;
    var k := FirstIncomplete(p.tasks);
    var v := Judge(n, p.tasks[k], o);
    AttemptOwes(n, p, o);
    JudgeRetries(n, p.tasks[k], o);
    StepPlanInvariant(p, v);
    StepPlanKeeps(p, k, v);
    var m, q := StepWorld(n, p, p.tasks[k], o), StepPlan(p, k, v);
    assert StepsOf(q.tasks) == StepsOf(p.tasks);
    SameStepsSameReset(q.tasks, p.tasks);
    PhaseOwes(m, p, TargetPhase(m.status.phase, p.failedPhase));
  }

  lemma PhaseOwes(m: Node, p: TaskPlan, phase: Phase)
    ensures var w := m.(status := m.status.(phase := phase));
            RecordsOf(w) == RecordsOf(m) && Behind(w) == Behind(m) && forall k: nat :: OwedBy(w, p, k) == OwedBy(m, p, k)
  {
  }

  lemma {:induction false} ExecuteOwes(n: Node, p: TaskPlan, o: Oracle)
    requires Executable(n, p)
    ensures var (m, q) := ExecuteFrom(n, p, o);
            m.spec == n.spec && RecordsOf(m) + OwedAfter(m, q) <= RecordsOf(n) + OwedBy(n, p, FirstIncomplete(p.tasks))
    decreases |p.tasks| - FirstIncomplete(p.tasks)
  {
    hide Executable, Judge, StepWorld;
    var k := FirstIncomplete(p.tasks);
    if k == |p.tasks| {
      assert RecordsOf(FinishPlan(n, p).0) == RecordsOf(n);
    } else {
      ExecutableAdvances(n, p);
      CompletesIffStatus(n, p, o(k));
      StepOwes(n, p, o(k));
      if Judge(n, p.tasks[k], o(k)).Completes? {
        CompletedStaysExecutable(n, p, o(k));
        FrontierMoves(p, Completes);
        var (m, q) := Advance(n, p, k, o(k));
        ExecutableAdvances(m, q);
        ExecuteOwes(m, q, o);
      }
    }
  }

  lemma ExecutableAdvances(n: Node, p: TaskPlan)
    requires Executable(n, p)
    ensures Advancing(p) && p.phase.Active?
  {
  }

  // ---- one move ----

  lemma ExecutePlanOwes(n: Node, o: Oracle)
    requires Inv(n) && n.HasActivePlan() && !n.history.templatePinned
    requires n.status.phase != Running ==> !DataResetPending(n)
    ensures RecordsOf(ExecutePlan(n, o)) + Owed(ExecutePlan(n, o)) <= RecordsOf(n) + Owed(n)
  {
    hide Executable, Inv;
    var p := n.status.plan.value;
    ActiveIsExecutable(n);
    ExecuteOwes(n, p, o);
    StoredOwes(ExecuteFrom(n, p, o).0, ExecuteFrom(n, p, o).1);
  }

  lemma StoredOwes(m: Node, q: TaskPlan)
    ensures var w := m.(status := m.status.(plan := Some(q))); RecordsOf(w) == RecordsOf(m) && Owed(w) == OwedAfter(m, q)
  {
  }

  /** A plan adopted for a pending reset is for the counter as it stands. */
  lemma AdoptedOwes(n: Node, m: Node, b: Build)
    requires Inv(n) && n.status.plan == None && n.status.phase != Failed
    requires b == BuildPlan(n, n.history.plansBuilt) && b.Built? && m == SetUpdating(n, m.status.updateInProgress)
    ensures RecordsOf(Adopt(m, b.plan)) == RecordsOf(n) && Owed(Adopt(m, b.plan)) <= Owed(n)
  {
    hide BuildPlan, Records, SafeLog, OpenResetsPending, CountsAgree, PlanInvariant, ResetGeneration;
    BuiltFor(n, n.history.plansBuilt);
  }

  lemma BuiltFor(n: Node, id: nat)
    requires Admitted(n.spec) && BuildPlan(n, id).Built?
    ensures var g := ResetGeneration(BuildPlan(n, id).plan.tasks); g == None || g == Some(n.spec.dataResetGeneration)
  {
    hide StaticRunningPlan, StaticInitPlan, RunningStepsOf, ResetShape, NoWipe, InitSteps, ResetGeneration;
    if n.status.phase == Running {
      RunningPlanIs(n, id);
      RunningPlanShape(n);
    } else {
      InitPlanIs(n.spec, id);
      InitStepsFit(StepsOf(BuildPlan(n, id).plan.tasks));
    }
    ShapeTellsReset(BuildPlan(n, id).plan.tasks, n.spec.dataResetGeneration);
  }

  lemma PlanNextOwes(n: Node, inp: Inputs)
    requires Inv(n) && n.status.plan == None && n.status.phase != Failed
    ensures RecordsOf(PlanNext(n, inp)) + Owed(PlanNext(n, inp)) <= RecordsOf(n) + Owed(n)
  {
    hide Inv, BuildPlan, MountedConfigWriter, IsNodeUpdatePlan, Records;
    var b := BuildPlan(n, n.history.plansBuilt);
    if b.Built? { AdoptedOwes(n, if b.startsUpdate then SetUpdating(n, true) else n, b); }
  }

  lemma FinishOwes(b: Node, inp: Inputs)
    requires Inv(b) && b.status.phase != Failed
    requires b.HasActivePlan() ==> !b.history.templatePinned
    requires b.status.phase != Running ==> !DataResetPending(b)
    ensures RecordsOf(Finish(b, inp)) + Owed(Finish(b, inp)) <= RecordsOf(b) + Owed(b)
  {
    hide Inv, PlanNext, ExecutePlan, Records;
    var m := Probed(b, inp);
    ProbeSafe(b, inp);
    if b.HasActivePlan() {
      ExecutePlanOwes(m, inp.oracle);
    } else {
      ClearSafe(m);
      PlanNextOwes(HandleTerminalPlan(m), inp);
    }
  }

  lemma ReconcileOwes(n: Node, inp: Inputs)
    requires Inv(n)
    ensures RecordsOf(ReconcileNode(n, inp)) + Owed(ReconcileNode(n, inp)) <= RecordsOf(n) + Owed(n)
  {
    hide Inv, Finish, Records;
    var a := ResolveDataReset(n);
    LiftSafe(n);
    ReconcileIs(n, inp);
    if a.status.phase != Failed {
      RenderSafe(a, inp);
      if !a.spec.paused { FinishOwes(Render(a, inp), inp); }
    }
  }

  lemma MoveOwes(n: Node, m: Move)
    requires Inv(n) && Enabled(n, m) && Apply(n, m).spec.dataResetGeneration == n.spec.dataResetGeneration
    ensures RecordsOf(Apply(n, m)) + Owed(Apply(n, m)) <= RecordsOf(n) + Owed(n)
  {
    hide Inv, ReconcileNode, Records;
    match m
    case ExternalMarkReady => EmitCounts(n, GateOpened(false, n.status.phase, n.spec.hold, DataResetPending(n)));
    case ReconcileMove(inp) => ReconcileOwes(n, inp);
    case _ =>
  }

  // ---- every run ----

  lemma RequestNeverFalls(n: Node, m: Move)
    requires Enabled(n, m)
    ensures Apply(n, m).spec.dataResetGeneration >= n.spec.dataResetGeneration
  {
    hide ReconcileNode;
    if m.ReconcileMove? { ReconcileStores(n, m.inputs); }
  }

  lemma {:induction false} RequestNeverFallsInRuns(n: Node, moves: seq<Move>)
    requires Legal(n, moves)
    ensures Run(n, moves).spec.dataResetGeneration >= n.spec.dataResetGeneration
    decreases |moves|
  {
    if moves != [] {
      RequestNeverFallsInRuns(n, moves[..|moves| - 1]);
      RequestNeverFalls(Run(n, moves[..|moves| - 1]), moves[|moves| - 1]);
    }
  }

  lemma {:induction false} ContinuationOwes(n: Node, more: seq<Move>)
    requires Inv(n) && Legal(n, more) && Run(n, more).spec.dataResetGeneration == n.spec.dataResetGeneration
    ensures Inv(Run(n, more)) && RecordsOf(Run(n, more)) + Owed(Run(n, more)) <= RecordsOf(n) + Owed(n)
    decreases |more|
  {
    hide Inv, Apply, Enabled, RecordsOf, Owed;
    if more != [] {
      var init, m := more[..|more| - 1], more[|more| - 1];
      RequestNeverFallsInRuns(n, init);
      RequestNeverFalls(Run(n, init), m);
      ContinuationOwes(n, init);
      MoveSafe(Run(n, init), m);
      MoveOwes(Run(n, init), m);
    }
  }

  /** A reset for a lower value of the counter is under way. */
  predicate ResetOutdated(n: Node) {
    && n.HasActivePlan() && Unrecorded(n.status.plan.value, FirstIncomplete(n.status.plan.value.tasks))
    && ResetGeneration(n.status.plan.value.tasks).value < n.spec.dataResetGeneration
  }

  /** From any reachable state, every continuation that does not raise the counter
      again records at most one further reset, and one before it only if a reset
      for a lower value was already under way: however many raises came before, they fold. */
  lemma RaisesFoldIntoOneReset(n: Node, moves: seq<Move>, more: seq<Move>)
    requires Created(n) && Legal(n, moves) && Legal(Run(n, moves), more)
    requires Run(Run(n, moves), more).spec.dataResetGeneration == Run(n, moves).spec.dataResetGeneration
    ensures var m := Run(n, moves);
            Records(Run(m, more).history.log) <=
            Records(m.history.log) + if DataResetPending(m) then 1 + One(ResetOutdated(m)) else 0
  {
    hide Run, Legal, Records;
    EveryRunIsSafe(n, moves);
    ContinuationOwes(Run(n, moves), more);
  }
}
