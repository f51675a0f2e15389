/** Safety of every run of a ConfigMap-configured node: when seid may start,
    when its data may be wiped, and what the handled counter counts. */
module Safety {
  import opened Options
  import opened NodeTypes
  import opened Executor
  import opened Builders
  import opened StaticPlans

  // ---- what a log must satisfy ----

  /** Every opening of the gate was allowed: no reset pending; mark-ready not
      under a hold on a Running node; start-once only under AfterExit. */
  predicate OpeningsAllowed(log: seq<Event>) {
    forall i :: 0 <= i < |log| && log[i].GateOpened? ==>
      && !log[i].resetPending
      && (log[i].once ==> log[i].hold == AfterExit)
      && (!log[i].once && log[i].phase == Running ==> log[i].hold == NoHold)
  }

  /** Every wipe is submitted with the gate closed and seid stopped. */
  predicate WipesAreSafe(log: seq<Event>) {
    forall i :: 0 <= i < |log| && log[i].WipeSubmitted? ==> !log[i].gateOpen && !log[i].seidRunning
  }

  predicate RecordedBetween(log: seq<Event>, i: int, k: int, g: int) {
    exists j :: i < j < k && 0 <= j < |log| && log[j].ResetRecorded? && log[j].generation >= g
  }

  /** From a reset plan's mark-not-ready until that reset is recorded nothing opens the gate. */
  predicate ResetWindowsClosed(log: seq<Event>) {
    forall i, k :: 0 <= i < k < |log| && log[i].GateClosed? && log[i].byReset.Some? && log[k].GateOpened? ==>
      RecordedBetween(log, i, k, log[i].byReset.value)
  }

  predicate NoOpeningFrom(log: seq<Event>, from: int, to: int) {
    forall i :: 0 <= i < |log| && from <= i < to ==> !log[i].GateOpened?
  }

  predicate WipedJustBefore(log: seq<Event>, at: int, plan: nat) {
    exists j :: 0 <= j < at && j < |log| && log[j] == WipeCompleted(plan) && NoOpeningFrom(log, j, at)
  }

  /** Every recorded reset raises the counter and follows a completed wipe of
      the same plan with the gate closed in between. */
  predicate RecordsFollowWipes(log: seq<Event>) {
    forall i :: 0 <= i < |log| && log[i].ResetRecorded? ==>
      log[i].previous < log[i].generation && WipedJustBefore(log, i, log[i].plan)
  }

  /** A start step is refused only on a Running node whose spec was edited after the plan was built. */
  predicate RefusalsAreEdits(log: seq<Event>) {
    forall i :: 0 <= i < |log| && log[i].StartRefused? ==> log[i].phase == Running && log[i].specEdited
  }

  /** No image is stamped in a reconcile that rendered a pinned template. */
  predicate StampsUnpinned(log: seq<Event>) {
    forall i :: 0 <= i < |log| && log[i].ImageStamped? ==> !log[i].templatePinned
  }

  function Records(log: seq<Event>): nat {
    if log == [] then 0 else Records(log[..|log| - 1]) + if log[|log| - 1].ResetRecorded? then 1 else 0
  }

  function Raises(log: seq<Event>): nat {
    if log == [] then 0 else Raises(log[..|log| - 1]) + if log[|log| - 1].CounterRaised? then 1 else 0
  }

  lemma CountsAppend(log: seq<Event>, e: Event)
    ensures Records(log + [e]) == Records(log) + if e.ResetRecorded? then 1 else 0
    ensures Raises(log + [e]) == Raises(log) + if e.CounterRaised? then 1 else 0
  {
    assert (log + [e])[..|log|] == log;
  }

  predicate SafeLog(log: seq<Event>) {
    && OpeningsAllowed(log) && WipesAreSafe(log) && ResetWindowsClosed(log)
    && RecordsFollowWipes(log) && RefusalsAreEdits(log) && StampsUnpinned(log)
  }

  /** When one more event keeps the log safe. */
  predicate SafeNext(log: seq<Event>, e: Event) {
    match e
    case GateOpened(once, phase, hold, pending) =>
      && !pending && (once ==> hold == AfterExit) && (!once && phase == Running ==> hold == NoHold)
      && forall i :: 0 <= i < |log| && log[i].GateClosed? && log[i].byReset.Some? ==>
           RecordedBetween(log, i, |log|, log[i].byReset.value)
    case WipeSubmitted(open, running) => !open && !running
    case ResetRecorded(plan, g, previous) => previous < g && WipedJustBefore(log, |log|, plan)
    case StartRefused(phase, edited) => phase == Running && edited
    case ImageStamped(pinned) => !pinned
    case _ => true
  }

  lemma RecordedBetweenAppend(log: seq<Event>, e: Event, i: int, k: int, g: int)
    requires RecordedBetween(log, i, k, g)
    ensures RecordedBetween(log + [e], i, k, g)
  {
    var j :| i < j < k && 0 <= j < |log| && log[j].ResetRecorded? && log[j].generation >= g;
    assert (log + [e])[j] == log[j];
  }

  lemma WipedJustBeforeAppend(log: seq<Event>, e: Event, at: int, plan: nat)
    requires at <= |log| && WipedJustBefore(log, at, plan)
    ensures WipedJustBefore(log + [e], at, plan)
  {
    var j :| 0 <= j < at && j < |log| && log[j] == WipeCompleted(plan) && NoOpeningFrom(log, j, at);
    assert (log + [e])[j] == log[j];
    assert NoOpeningFrom(log + [e], j, at);
  }

  lemma WindowsAppend(log: seq<Event>, e: Event)
    requires ResetWindowsClosed(log) && SafeNext(log, e)
    ensures ResetWindowsClosed(log + [e])
  {
    var l := log + [e];
    forall i, k | 0 <= i < k < |l| && l[i].GateClosed? && l[i].byReset.Some? && l[k].GateOpened?
      ensures RecordedBetween(l, i, k, l[i].byReset.value)
    {
      assert l[i] == log[i];
      if k < |log| { assert l[k] == log[k]; }
      RecordedBetweenAppend(log, e, i, k, l[i].byReset.value);
    }
  }

  lemma RecordsAppend(log: seq<Event>, e: Event)
    requires RecordsFollowWipes(log) && SafeNext(log, e)
    ensures RecordsFollowWipes(log + [e])
  {
    var l := log + [e];
    forall i | 0 <= i < |l| && l[i].ResetRecorded?
      ensures l[i].previous < l[i].generation && WipedJustBefore(l, i, l[i].plan)
    {
      if i < |log| { assert l[i] == log[i]; }
      WipedJustBeforeAppend(log, e, i, l[i].plan);
    }
  }

  lemma SafeAppend(log: seq<Event>, e: Event)
    requires SafeLog(log) && SafeNext(log, e)
    ensures SafeLog(log + [e])
  {
    WindowsAppend(log, e);
    RecordsAppend(log, e);
    assert forall i :: 0 <= i < |log| ==> (log + [e])[i] == log[i];
  }

  // ---- how the log and the node agree ----

  /** A reset gate-closing that is not yet recorded leaves its reset pending. */
  predicate OpenResetsPending(n: Node) {
    var log := n.history.log;
    forall i :: 0 <= i < |log| && log[i].GateClosed? && log[i].byReset.Some? ==>
      && n.status.phase == Running
      && log[i].byReset.value <= n.spec.dataResetGeneration
      && (n.status.dataResetGeneration < log[i].byReset.value || RecordedBetween(log, i, |log|, log[i].byReset.value))
  }

  /** Recorded resets never outnumber raises; a pending one is one raise ahead. */
  predicate CountsAgree(n: Node) {
    && Records(n.history.log) <= Raises(n.history.log)
    && (n.status.phase == Running && DataResetPending(n) ==> Records(n.history.log) + 1 <= Raises(n.history.log))
  }

  predicate Base(n: Node) {
    && Admitted(n.spec)
    && 0 <= n.status.dataResetGeneration <= n.spec.dataResetGeneration
    && SafeLog(n.history.log) && OpenResetsPending(n) && CountsAgree(n)
  }

  /** An unfinished reset plan for counter g with k tasks done. */
  predicate ResetProgress(n: Node, plan: nat, g: int, k: nat) {
    && n.history.builtFrom.dataResetGeneration == g && g <= n.spec.dataResetGeneration
    && (k <= 4 ==> n.status.dataResetGeneration < g)
    && (k > 4 ==> n.status.dataResetGeneration >= g)
    && (2 <= k <= 4 ==> !n.sidecar.gateOpen)
    && (3 <= k <= 4 ==> !n.sidecar.seidRunning)
    && (k == 4 ==> WipedJustBefore(n.history.log, |n.history.log|, plan))
    && (k <= 4 && n.spec.dataResetGeneration > g ==> Records(n.history.log) + 2 <= Raises(n.history.log))
  }

  /** What holds while plan p is active with its first k tasks done. */
  predicate Progress(n: Node, p: TaskPlan, k: nat) {
    var steps := StepsOf(p.tasks);
    p.targetPhase == Running &&
    if n.status.phase == Running then
      && p.failedPhase == Unset && StartsFit(steps, n.history.builtFrom.hold)
      && match ResetGeneration(p.tasks)
         case None => NoWipe(steps) && n.history.builtFrom.dataResetGeneration <= n.status.dataResetGeneration
         case Some(g) => ResetShape(steps, g) && ResetProgress(n, p.id, g, k)
    else
      n.status.phase == Initializing && InitSteps(steps) && p.failedPhase == Failed
  }

  predicate Inv(n: Node) {
    && Base(n)
    && (n.status.plan.Some? ==> PlanInvariant(n.status.plan.value))
    && (n.HasActivePlan() ==> Progress(n, n.status.plan.value, FirstIncomplete(n.status.plan.value.tasks)))
  }

  /** Same spec, same plan origin, same render: what execution leaves alone. */
  predicate SameFrame(n: Node, m: Node) {
    && m.spec == n.spec && m.platform == n.platform
    && m.history.builtFrom == n.history.builtFrom && m.history.templatePinned == n.history.templatePinned
    && m.history.plansBuilt == n.history.plansBuilt
  }

  // ---- events that change nothing but the log ----

  lemma BaseEmit(n: Node, e: Event)
    requires Base(n) && SafeNext(n.history.log, e)
    requires !e.ResetRecorded? && !e.CounterRaised?
    requires e.GateClosed? && e.byReset.Some? ==>
               n.status.phase == Running && n.status.dataResetGeneration < e.byReset.value <= n.spec.dataResetGeneration
    ensures Base(n.Emit(e))
  {
    var log := n.history.log;
    var l := log + [e];
    SafeAppend(log, e);
    CountsAppend(log, e);
    forall i | 0 <= i < |l| && l[i].GateClosed? && l[i].byReset.Some?
      ensures n.status.phase == Running && l[i].byReset.value <= n.spec.dataResetGeneration
      ensures n.status.dataResetGeneration < l[i].byReset.value || RecordedBetween(l, i, |l|, l[i].byReset.value)
    {
      if i < |log| {
        assert l[i] == log[i];
        if RecordedBetween(log, i, |log|, log[i].byReset.value) {
          RecordedBetweenAppend(log, e, i, |log|, log[i].byReset.value);
        }
      }
    }
  }

  lemma ResetProgressEmit(n: Node, e: Event, plan: nat, g: int, k: nat)
    requires ResetProgress(n, plan, g, k) && !e.ResetRecorded? && !e.CounterRaised?
    requires k == 4 ==> !e.GateOpened?
    ensures ResetProgress(n.Emit(e), plan, g, k)
  {
    CountsAppend(n.history.log, e);
    if k == 4 { StillWiped(n.history.log, e, plan); }
  }

  lemma StillWiped(log: seq<Event>, e: Event, plan: nat)
    requires WipedJustBefore(log, |log|, plan) && !e.GateOpened?
    ensures WipedJustBefore(log + [e], |log| + 1, plan)
  {
    var j :| 0 <= j < |log| && log[j] == WipeCompleted(plan) && NoOpeningFrom(log, j, |log|);
    assert (log + [e])[j] == log[j];
    assert NoOpeningFrom(log + [e], j, |log| + 1);
  }

  lemma JustWiped(log: seq<Event>, plan: nat)
    ensures WipedJustBefore(log + [WipeCompleted(plan)], |log| + 1, plan)
  {
    var l := log + [WipeCompleted(plan)];
    assert l[|log|] == WipeCompleted(plan);
    assert NoOpeningFrom(l, |log|, |log| + 1);
  }

  lemma ProgressEmit(n: Node, e: Event, p: TaskPlan, k: nat)
    requires Progress(n, p, k) && !e.ResetRecorded? && !e.CounterRaised?
    requires n.status.phase == Running && ResetGeneration(p.tasks).Some? && k == 4 ==> !e.GateOpened?
    ensures Progress(n.Emit(e), p, k)
  {
    if n.status.phase == Running && ResetGeneration(p.tasks).Some? {
      ResetProgressEmit(n, e, p.id, ResetGeneration(p.tasks).value, k);
    }
  }

  // ---- opening the gate ----

  lemma OpeningIsSafe(n: Node, t: TaskType)
    requires Base(n) && IsStartTask(t) && !GuardRefuses(n, t)
    ensures SafeNext(n.history.log, GateOpened(t == StartSeidOnce, n.status.phase, n.spec.hold, DataResetPending(n)))
  {
    hide SafeLog, CountsAgree;
  }

  /** An opening the guard lets pass is safe, whoever asks for it. */
  lemma OpenGateBase(n: Node, t: TaskType)
    requires Base(n) && IsStartTask(t) && !GuardRefuses(n, t)
    ensures Base(OpenGate(n, t))
  {
    hide Base, SafeNext;
    var e := GateOpened(t == StartSeidOnce, n.status.phase, n.spec.hold, DataResetPending(n));
    OpeningIsSafe(n, t);
    BaseEmit(n, e);
    BaseReads(n.Emit(e), OpenGate(n, t));
  }

  /** An unrecorded reset is pending, so an opening leaves every plan's progress as it was. */
  lemma OpenGateProgress(n: Node, t: TaskType, p: TaskPlan, k: nat)
    requires Base(n) && IsStartTask(t) && !GuardRefuses(n, t) && Progress(n, p, k)
    ensures Progress(OpenGate(n, t), p, k)
  {
    var e := GateOpened(t == StartSeidOnce, n.status.phase, n.spec.hold, DataResetPending(n));
    assert OpenGate(n, t) == n.Emit(e).(sidecar := n.sidecar.(gateOpen := true));
    ProgressEmit(n, e, p, k);
  }

  /** With the spec the plan was built from, the guard lets its start step pass. */
  lemma GuardPassesUnedited(n: Node, p: TaskPlan, k: nat)
    requires Base(n) && Progress(n, p, k) && k < |p.tasks| && IsStartTask(p.tasks[k].taskType)
    requires n.status.phase != Running ==> !DataResetPending(n)
    ensures GuardRefuses(n, p.tasks[k].taskType) ==> n.status.phase == Running && n.spec != n.history.builtFrom
  {
    hide SafeLog, OpenResetsPending, CountsAgree, NoWipe;
    var steps := StepsOf(p.tasks);
    assert steps[k].taskType == p.tasks[k].taskType;
  }

  // ---- the effect of completing each kind of task ----

  /** Base reads only the phase, the counter, the spec and the log. */
  lemma BaseReads(n: Node, m: Node)
    requires Base(n) && m.spec == n.spec && m.history.log == n.history.log
    requires m.status.phase == n.status.phase && m.status.dataResetGeneration == n.status.dataResetGeneration
    ensures Base(m)
  {
    hide SafeLog, Records, Raises, RecordedBetween;
  }

  /** The k-th step of a reset plan, by position. */
  lemma ResetStepAt(p: TaskPlan, g: int, k: nat)
    requires ResetShape(StepsOf(p.tasks), g) && k < |p.tasks|
    ensures var t := p.tasks[k];
            && (t.taskType == MarkNotReady <==> k == 1)
            && (t.taskType == StopSeid <==> k == 2)
            && (t.taskType == ResetDataKeepSignState <==> k == 3)
            && (t.taskType == RecordDataReset <==> k == 4)
            && (k == 4 ==> t.params == Generation(g))
            && (IsStartTask(t.taskType) ==> k == 5)
  {
    assert StepsOf(p.tasks)[k] == Step(p.tasks[k].taskType, p.tasks[k].params);
  }

  lemma StepNoWipe(p: TaskPlan, k: nat)
    requires k < |p.tasks|
    ensures NoWipe(StepsOf(p.tasks)) ==> p.tasks[k].taskType != ResetDataKeepSignState && p.tasks[k].taskType != RecordDataReset
    ensures InitSteps(StepsOf(p.tasks)) ==> Preparatory(p.tasks[k].taskType) || p.tasks[k].taskType == MarkReady || p.tasks[k].taskType == RecordMaintenanceHold
  {
    assert StepsOf(p.tasks)[k].taskType == p.tasks[k].taskType;
  }

  lemma CloseEffect(n: Node, p: TaskPlan, k: nat)
    requires Base(n) && Progress(n, p, k) && k < |p.tasks| && p.tasks[k].taskType == MarkNotReady
    ensures Base(TaskEffect(n, p, p.tasks[k])) && Progress(TaskEffect(n, p, p.tasks[k]), p, k + 1)
  {
    hide Base, StartsFit, InitSteps, NoWipe, WipedJustBefore, Records, Raises;
    StepNoWipe(p, k);
    var e := GateClosed(ResetGeneration(p.tasks));
    if ResetGeneration(p.tasks).Some? && n.status.phase == Running { ResetStepAt(p, ResetGeneration(p.tasks).value, k); }
    BaseEmit(n, e);
    ProgressEmit(n, e, p, k);
    BaseReads(n.Emit(e), TaskEffect(n, p, p.tasks[k]));
  }

  lemma StopEffect(n: Node, p: TaskPlan, k: nat)
    requires Base(n) && Progress(n, p, k) && k < |p.tasks| && p.tasks[k].taskType == StopSeid
    ensures Base(TaskEffect(n, p, p.tasks[k])) && Progress(TaskEffect(n, p, p.tasks[k]), p, k + 1)
  {
    hide Base, StartsFit, InitSteps, NoWipe, WipedJustBefore, Records, Raises;
    StepNoWipe(p, k);
    if ResetGeneration(p.tasks).Some? && n.status.phase == Running { ResetStepAt(p, ResetGeneration(p.tasks).value, k); }
    BaseReads(n, TaskEffect(n, p, p.tasks[k]));
  }

  /** The wipe: only a reset plan has one, and by then the gate is closed and seid stopped. */
  lemma WipeIsGuarded(n: Node, p: TaskPlan, k: nat)
    requires Base(n) && Progress(n, p, k) && k < |p.tasks| && p.tasks[k].taskType == ResetDataKeepSignState
    ensures n.status.phase == Running && ResetGeneration(p.tasks).Some? && k == 3
    ensures !n.sidecar.gateOpen && !n.sidecar.seidRunning
    ensures var m := n.Emit(WipeSubmitted(n.sidecar.gateOpen, n.sidecar.seidRunning)); Base(m) && Progress(m, p, k)
  {
    StepNoWipe(p, k);
    ResetStepAt(p, ResetGeneration(p.tasks).value, k);
    var e := WipeSubmitted(n.sidecar.gateOpen, n.sidecar.seidRunning);
    BaseEmit(n, e);
    ProgressEmit(n, e, p, k);
  }

  lemma WipeEffect(n: Node, p: TaskPlan, k: nat)
    requires Base(n) && Progress(n, p, k) && k < |p.tasks| && p.tasks[k].taskType == ResetDataKeepSignState
    ensures Base(TaskEffect(n, p, p.tasks[k])) && Progress(TaskEffect(n, p, p.tasks[k]), p, k + 1)
  {
    hide Base, StartsFit, InitSteps, NoWipe, Records, Raises, TasksInvariant;
    WipeIsGuarded(n, p, k);
    BaseEmit(n, WipeCompleted(p.id));
    ProgressEmit(n, WipeCompleted(p.id), p, k);
    JustWiped(n.history.log, p.id);
  }

  lemma StampEffect(n: Node, p: TaskPlan, k: nat)
    requires Base(n) && Progress(n, p, k) && k < |p.tasks| && p.tasks[k].taskType == ObserveImage
    requires !n.history.templatePinned
    ensures Base(TaskEffect(n, p, p.tasks[k])) && Progress(TaskEffect(n, p, p.tasks[k]), p, k + 1)
  {
    hide Base, StartsFit, InitSteps, NoWipe, WipedJustBefore, Records, Raises;
    StepNoWipe(p, k);
    if ResetGeneration(p.tasks).Some? && n.status.phase == Running { ObserveIsFirst(p, ResetGeneration(p.tasks).value, k); }
    var e := ImageStamped(n.history.templatePinned);
    BaseEmit(n, e);
    ProgressEmit(n, e, p, k);
    BaseReads(n.Emit(e), TaskEffect(n, p, p.tasks[k]));
  }

  lemma ObserveIsFirst(p: TaskPlan, g: int, k: nat)
    requires ResetShape(StepsOf(p.tasks), g) && k < |p.tasks| && p.tasks[k].taskType == ObserveImage
    ensures k == 0
  {
    assert StepsOf(p.tasks)[k].taskType == ObserveImage;
  }

  lemma HoldEffect(n: Node, p: TaskPlan, k: nat)
    requires Base(n) && Progress(n, p, k) && k < |p.tasks| && p.tasks[k].taskType == RecordMaintenanceHold
    ensures Base(TaskEffect(n, p, p.tasks[k])) && Progress(TaskEffect(n, p, p.tasks[k]), p, k + 1)
  {
    hide Base, StartsFit, InitSteps, NoWipe, WipedJustBefore, Records, Raises;
    var t := p.tasks[k];
    if ResetGeneration(p.tasks).Some? && n.status.phase == Running {
      assert StepsOf(p.tasks)[k].taskType == RecordMaintenanceHold;
      assert k >= 5;
    }
    if t.params.HoldInEffect? {
      var e := HoldRecorded(t.params.hold);
      BaseEmit(n, e);
      ProgressEmit(n, e, p, k);
      BaseReads(n.Emit(e), TaskEffect(n, p, t));
    }
  }

  /** Recording: the counter rises to the plan's value right after its wipe. */
  lemma RecordBase(n: Node, plan: nat, g: int)
    requires Base(n) && n.status.phase == Running && ResetProgress(n, plan, g, 4)
    ensures Base(RecordReset(n, plan, g))
  {
    var log := n.history.log;
    var e := ResetRecorded(plan, g, n.status.dataResetGeneration);
    var l := log + [e];
    SafeAppend(log, e);
    CountsAppend(log, e);
    var m := RecordReset(n, plan, g);
    assert m.history.log == l && m.status.dataResetGeneration == g && m.spec == n.spec;
    forall i | 0 <= i < |l| && l[i].GateClosed? && l[i].byReset.Some?
      ensures l[i].byReset.value <= n.spec.dataResetGeneration
      ensures g < l[i].byReset.value || RecordedBetween(l, i, |l|, l[i].byReset.value)
    {
      assert l[i] == log[i];
      if RecordedBetween(log, i, |log|, log[i].byReset.value) {
        RecordedBetweenAppend(log, e, i, |log|, log[i].byReset.value);
      } else {
        assert l[|log|] == e;
      }
    }
  }

  lemma RecordEffect(n: Node, p: TaskPlan, k: nat)
    requires Base(n) && Progress(n, p, k) && k < |p.tasks| && p.tasks[k].taskType == RecordDataReset
    ensures Base(TaskEffect(n, p, p.tasks[k])) && Progress(TaskEffect(n, p, p.tasks[k]), p, k + 1)
  {
    hide Base, StartsFit, InitSteps, NoWipe, Records, Raises, WipedJustBefore;
    StepNoWipe(p, k);
    var g := ResetGeneration(p.tasks).value;
    ResetStepAt(p, g, k);
    RecordBase(n, p.id, g);
  }

  lemma StartAdvances(n: Node, p: TaskPlan, k: nat)
    requires Progress(n, p, k) && k < |p.tasks| && IsStartTask(p.tasks[k].taskType)
    ensures Progress(n, p, k + 1)
  {
    if ResetGeneration(p.tasks).Some? && n.status.phase == Running { ResetStepAt(p, ResetGeneration(p.tasks).value, k); }
  }

  lemma StartEffect(n: Node, p: TaskPlan, k: nat)
    requires Base(n) && Progress(n, p, k) && k < |p.tasks| && IsStartTask(p.tasks[k].taskType)
    requires !GuardRefuses(n, p.tasks[k].taskType)
    ensures Base(TaskEffect(n, p, p.tasks[k])) && Progress(TaskEffect(n, p, p.tasks[k]), p, k + 1)
  {
    var t := p.tasks[k].taskType;
    var m := OpenGate(n, t);
    assert TaskEffect(n, p, p.tasks[k]) == m;
    assert Base(m) by { OpenGateBase(n, t); }
    assert Progress(m, p, k + 1) by {
      OpenGateProgress(n, t, p, k);
      StartAdvances(m, p, k);
    }
  }

  lemma QuietEffect(n: Node, p: TaskPlan, k: nat)
    requires Base(n) && Progress(n, p, k) && k < |p.tasks|
    requires TaskEffect(n, p, p.tasks[k]) == n
    requires p.tasks[k].taskType !in {MarkNotReady, StopSeid, ResetDataKeepSignState, RecordDataReset, ObserveImage}
    ensures Progress(n, p, k + 1)
  {
    if ResetGeneration(p.tasks).Some? && n.status.phase == Running {
      ResetStepAt(p, ResetGeneration(p.tasks).value, k);
      assert StepsOf(p.tasks)[k].taskType == p.tasks[k].taskType;
    }
  }

  lemma CompletedEffect(n: Node, p: TaskPlan, k: nat)
    requires Base(n) && Progress(n, p, k) && k < |p.tasks| && !n.history.templatePinned
    requires IsStartTask(p.tasks[k].taskType) ==> !GuardRefuses(n, p.tasks[k].taskType)
    ensures Base(TaskEffect(n, p, p.tasks[k])) && Progress(TaskEffect(n, p, p.tasks[k]), p, k + 1)
  {
    match p.tasks[k].taskType
    case MarkReady => StartEffect(n, p, k);
    case StartSeidOnce => StartEffect(n, p, k);
    case MarkNotReady => CloseEffect(n, p, k);
    case StopSeid => StopEffect(n, p, k);
    case ResetDataKeepSignState => WipeEffect(n, p, k);
    case ObserveImage => StampEffect(n, p, k);
    case RecordDataReset => RecordEffect(n, p, k);
    case RecordMaintenanceHold => HoldEffect(n, p, k);
    case _ => QuietEffect(n, p, k);
  }

  lemma EffectFrame(n: Node, p: TaskPlan, t: PlannedTask)
    ensures SameFrame(n, TaskEffect(n, p, t)) && TaskEffect(n, p, t).status.phase == n.status.phase
    ensures TaskEffect(n, p, t).status.dataResetGeneration >= n.status.dataResetGeneration
  {
  }

  // ---- one task, one plan ----

  lemma SubmittedSafe(n: Node, p: TaskPlan, k: nat, o: Outcome)
    requires Base(n) && Progress(n, p, k) && k < |p.tasks|
    ensures var s := Submitted(n, p.tasks[k].taskType, o);
            Base(s) && Progress(s, p, k) && SameFrame(n, s) && s.status == n.status && s.sidecar == n.sidecar
  {
    if p.tasks[k].taskType == ResetDataKeepSignState && Lands(o) { WipeIsGuarded(n, p, k); }
  }

  lemma RefusalSafe(s: Node, p: TaskPlan, k: nat)
    requires Base(s) && Progress(s, p, k) && k < |p.tasks| && IsStartTask(p.tasks[k].taskType)
    requires s.status.phase != Running ==> !DataResetPending(s)
    requires GuardRefuses(s, p.tasks[k].taskType)
    ensures var m := s.Emit(StartRefused(s.status.phase, s.spec != s.history.builtFrom)); Base(m) && Progress(m, p, k)
  {
    GuardPassesUnedited(s, p, k);
    var e := StartRefused(s.status.phase, s.spec != s.history.builtFrom);
    BaseEmit(s, e);
    ProgressEmit(s, e, p, k);
  }

  lemma OpenGateFrame(n: Node, t: TaskType)
    ensures SameFrame(n, OpenGate(n, t)) && OpenGate(n, t).status == n.status
  {
  }

  /** One attempt at the current task, with every outcome. */
  lemma WorldStepBase(n: Node, p: TaskPlan, k: nat, o: Outcome)
    requires Base(n) && Progress(n, p, k) && k < |p.tasks| && !n.history.templatePinned
    requires n.status.phase != Running ==> !DataResetPending(n)
    ensures Base(StepWorld(n, p, p.tasks[k], o))
  {
    hide Base, Progress;
    var t := p.tasks[k];
    var v := Judge(n, t, o);
    var s := Submitted(n, t.taskType, o);
    SubmittedSafe(n, p, k, o);
    if v.Completes? {
      CompletedEffect(s, p, k);
    } else if v.Fails? && v.error.GuardRefusal? {
      RefusalSafe(s, p, k);
    } else if IsStartTask(t.taskType) && v.Stays? && o.ExecError? && o.landed {
      OpenGateBase(s, t.taskType);
    }
  }

  lemma WorldStepProgress(n: Node, p: TaskPlan, k: nat, o: Outcome)
    requires Base(n) && Progress(n, p, k) && k < |p.tasks| && !n.history.templatePinned
    requires n.status.phase != Running ==> !DataResetPending(n)
    ensures Progress(StepWorld(n, p, p.tasks[k], o), p, if Judge(n, p.tasks[k], o).Completes? then k + 1 else k)
  {
    hide Base, Progress;
    var t := p.tasks[k];
    var v := Judge(n, t, o);
    var s := Submitted(n, t.taskType, o);
    SubmittedSafe(n, p, k, o);
    if v.Completes? {
      CompletedEffect(s, p, k);
    } else if v.Fails? && v.error.GuardRefusal? {
      RefusalSafe(s, p, k);
    } else if IsStartTask(t.taskType) && v.Stays? && o.ExecError? && o.landed {
      OpenGateProgress(s, t.taskType, p, k);
    }
  }

  lemma WorldFrame(n: Node, p: TaskPlan, t: PlannedTask, o: Outcome)
    ensures var m := StepWorld(n, p, t, o);
            && SameFrame(n, m) && m.status.phase == n.status.phase
            && m.status.dataResetGeneration >= n.status.dataResetGeneration
  {
    EffectFrame(Submitted(n, t.taskType, o), p, t);
    OpenGateFrame(Submitted(n, t.taskType, o), t.taskType);
  }

  lemma {:induction false} SameStepsSameReset(a: seq<PlannedTask>, b: seq<PlannedTask>)
    requires StepsOf(a) == StepsOf(b)
    ensures ResetGeneration(a) == ResetGeneration(b)
  {
    if a != [] {
      assert StepsOf(a)[0] == StepsOf(b)[0];
      assert StepsOf(a[1..]) == StepsOf(a)[1..] && StepsOf(b[1..]) == StepsOf(b)[1..];
      SameStepsSameReset(a[1..], b[1..]);
    }
  }

  /** Progress reads only what StepPlan never changes. */
  lemma StepPlanProgress(m: Node, p: TaskPlan, k: nat, v: Verdict, d: nat)
    requires k < |p.tasks| && Progress(m, p, d)
    ensures Progress(m, StepPlan(p, k, v), d)
  {
    StepPlanKeeps(p, k, v);
    var q := StepPlan(p, k, v);
    assert StepsOf(q.tasks) == StepsOf(p.tasks);
    SameStepsSameReset(q.tasks, p.tasks);
  }

  /** Leaving the phase for FailedPhase, which only an init plan has. */
  lemma FailPhaseBase(m: Node, p: TaskPlan, k: nat)
    requires Base(m) && Progress(m, p, k)
    ensures Base(m.(status := m.status.(phase := TargetPhase(m.status.phase, p.failedPhase))))
  {
  }

  lemma AdvanceBase(n: Node, p: TaskPlan, k: nat, o: Outcome)
    requires Base(n) && Progress(n, p, k) && k < |p.tasks| && !n.history.templatePinned
    requires n.status.phase != Running ==> !DataResetPending(n)
    ensures Base(Advance(n, p, k, o).0)
  {
    WorldStepBase(n, p, k, o);
    WorldStepProgress(n, p, k, o);
    var v := Judge(n, p.tasks[k], o);
    if v.Fails? { FailPhaseBase(StepWorld(n, p, p.tasks[k], o), p, k); }
  }

  lemma AdvanceFrame(n: Node, p: TaskPlan, k: nat, o: Outcome)
    requires k < |p.tasks|
    ensures var m := Advance(n, p, k, o).0;
            && SameFrame(n, m) && m.status.dataResetGeneration >= n.status.dataResetGeneration
            && (!Judge(n, p.tasks[k], o).Fails? ==> m == StepWorld(n, p, p.tasks[k], o) && m.status.phase == n.status.phase)
  {
    WorldFrame(n, p, p.tasks[k], o);
  }

  /** A task that completes or stays leaves the plan active and in progress. */
  lemma AdvanceProgress(n: Node, p: TaskPlan, o: Outcome)
    requires Base(n) && Advancing(p) && FirstIncomplete(p.tasks) < |p.tasks|
    requires Progress(n, p, FirstIncomplete(p.tasks)) && !n.history.templatePinned
    requires n.status.phase != Running ==> !DataResetPending(n)
    requires !Judge(n, p.tasks[FirstIncomplete(p.tasks)], o).Fails?
    ensures var (m, q) := Advance(n, p, FirstIncomplete(p.tasks), o); Progress(m, q, FirstIncomplete(q.tasks))
  {
    hide Base, Progress, PositionIDs, WithinBudget, UntouchedFrom;
    var k := FirstIncomplete(p.tasks);
    var v := Judge(n, p.tasks[k], o);
    AdvanceFrame(n, p, k, o);
    WorldStepProgress(n, p, k, o);
    StepPlanInvariant(p, v);
    StepPlanProgress(StepWorld(n, p, p.tasks[k], o), p, k, v, if v.Completes? then k + 1 else k);
  }

  lemma FinishSafe(n: Node, p: TaskPlan)
    requires Base(n) && Progress(n, p, |p.tasks|)
    requires n.status.phase != Running ==> !DataResetPending(n)
    ensures Base(FinishPlan(n, p).0)
  {
  }

  lemma {:induction false} ExecuteFrame(n: Node, p: TaskPlan, o: Oracle)
    ensures var m := ExecuteFrom(n, p, o).0;
            SameFrame(n, m) && m.status.dataResetGeneration >= n.status.dataResetGeneration
    decreases |p.tasks| - FirstIncomplete(p.tasks)
  {
    var k := FirstIncomplete(p.tasks);
    if k < |p.tasks| {
      AdvanceFrame(n, p, k, o(k));
      var (m, q) := Advance(n, p, k, o(k));
      if q.tasks[k].status == TaskComplete {
        FrontierMoves(p, Judge(n, p.tasks[k], o(k)));
        ExecuteFrame(m, q, o);
      }
    }
  }

  /** The executor may start or resume p here. */
  predicate Executable(n: Node, p: TaskPlan) {
    && Base(n) && Advancing(p) && Progress(n, p, FirstIncomplete(p.tasks)) && !n.history.templatePinned
    && (n.status.phase != Running ==> !DataResetPending(n))
  }

  lemma CompletedStaysExecutable(n: Node, p: TaskPlan, o: Outcome)
    requires Executable(n, p) && FirstIncomplete(p.tasks) < |p.tasks|
    requires Judge(n, p.tasks[FirstIncomplete(p.tasks)], o).Completes?
    ensures var (m, q) := Advance(n, p, FirstIncomplete(p.tasks), o); Executable(m, q)
  {
    var k := FirstIncomplete(p.tasks);
    AdvanceBase(n, p, k, o);
    AdvanceFrame(n, p, k, o);
    AdvanceProgress(n, p, o);
    StepPlanInvariant(p, Completes);
  }

  lemma CompletesIffStatus(n: Node, p: TaskPlan, o: Outcome)
    requires Advancing(p) && FirstIncomplete(p.tasks) < |p.tasks|
    ensures var k := FirstIncomplete(p.tasks);
            Advance(n, p, k, o).1.tasks[k].status == TaskComplete <==> Judge(n, p.tasks[k], o).Completes?
  {
    StepPlanKeeps(p, FirstIncomplete(p.tasks), Judge(n, p.tasks[FirstIncomplete(p.tasks)], o));
  }

  lemma {:induction false} ExecuteBase(n: Node, p: TaskPlan, o: Oracle)
    requires Executable(n, p)
    ensures Base(ExecuteFrom(n, p, o).0)
    decreases |p.tasks| - FirstIncomplete(p.tasks)
  {
    var k := FirstIncomplete(p.tasks);
    if k == |p.tasks| {
      FinishSafe(n, p);
    } else {
      CompletesIffStatus(n, p, o(k));
      if Judge(n, p.tasks[k], o(k)).Completes? {
        CompletedStaysExecutable(n, p, o(k));
        FrontierMoves(p, Completes);
        var (m, q) := Advance(n, p, k, o(k));
        ExecuteBase(m, q, o);
      } else {
        AdvanceBase(n, p, k, o(k));
      }
    }
  }

  lemma {:induction false} ExecuteProgress(n: Node, p: TaskPlan, o: Oracle)
    requires Executable(n, p)
    ensures var (m, q) := ExecuteFrom(n, p, o); q.phase.Active? ==> Progress(m, q, FirstIncomplete(q.tasks))
    decreases |p.tasks| - FirstIncomplete(p.tasks)
  {
    var k := FirstIncomplete(p.tasks);
    if k < |p.tasks| {
      CompletesIffStatus(n, p, o(k));
      var v := Judge(n, p.tasks[k], o(k));
      if v.Completes? {
        CompletedStaysExecutable(n, p, o(k));
        FrontierMoves(p, Completes);
        var (m, q) := Advance(n, p, k, o(k));
        ExecuteProgress(m, q, o);
      } else if v.Fails? {
        StepPlanInvariant(p, v);
      } else {
        AdvanceProgress(n, p, o(k));
      }
    }
  }
}
