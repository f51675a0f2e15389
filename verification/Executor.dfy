/** The plan executor (internal/planner/executor.go) and the tasks whose effect
    on the node or on the sidecar some property depends on. Every answer of the
    outside world is an Outcome, so a run ranges over all of them. */
module Executor {
  import opened Options
  import Orders
  import opened NodeTypes

  /** What one attempt at the current task meets. `landed` marks a submission
      the sidecar accepted although its answer was lost. */
  datatype Outcome =
    | BadParams
    | ExecError(landed: bool)
    | ExecTerminal
    | StillRunning
    | Done
    | ExecFailed

  /** The outcome each task index would meet if this reconcile reaches it. */
  type Oracle = nat -> Outcome

  // ---- retry budget and backoff ----

  const TASK_POLL_INTERVAL := 5
  const MAX_RETRY_BACKOFF := 30
  const GENESIS_CONFIGURE_MAX_RETRIES: nat := 180
  const DATA_RESET_MAX_RETRIES: nat := 5

  function Shift(n: nat): nat { if n == 0 then 1 else 2 * Shift(n - 1) }

  /** Seconds to wait after the attempt-th retry. */
  function RetryBackoff(attempt: nat): int {
    var d := TASK_POLL_INTERVAL * Shift(Orders.Min(attempt, 5));
    if d > MAX_RETRY_BACKOFF then MAX_RETRY_BACKOFF else d
  }

  function TotalBackoff(retries: nat): int {
    if retries == 0 then 0 else TotalBackoff(retries - 1) + RetryBackoff(retries)
  }

  /** The wall-clock table of taskMaxRetries: 10s for one retry, 10+20+30(N-2)s for more. */
  lemma {:induction false} TotalBackoffTable(retries: nat)
    ensures TotalBackoff(retries) ==
            if retries == 0 then 0
            else if retries == 1 then 10
            else 10 + 20 + 30 * (retries - 2)
  {
    if retries > 0 {
      TotalBackoffTable(retries - 1);
      assert Shift(3) == 8 && Shift(4) == 16 && Shift(5) == 32;
      assert retries == 1 || retries == 2 || retries == 3 || retries == 4 || retries >= 5;
    }
  }

  function TaskMaxRetries(t: TaskType): nat {
    match t
    case ConfigureGenesis => GENESIS_CONFIGURE_MAX_RETRIES
    case ReplacePod => 3
    case _ => 0
  }

  function BuildPlannedTask(plan: nat, t: TaskType, index: nat, params: Params): PlannedTask {
    PlannedTask(t, TaskID(plan, t, index), params, TaskPending, TaskMaxRetries(t), 0)
  }

  // ---- reading a plan ----

  /** Index of the first task that is not Complete, or the task count. */
  function FirstIncomplete(ts: seq<PlannedTask>): (k: nat)
    ensures k <= |ts|
    ensures forall i :: 0 <= i < k ==> ts[i].status == TaskComplete
    ensures k < |ts| ==> ts[k].status != TaskComplete
  {
    if ts == [] || ts[0].status != TaskComplete then 0
    else
      var k := FirstIncomplete(ts[1..]);
      assert forall i :: 1 <= i < k + 1 ==> ts[i] == ts[1..][i - 1];
      k + 1
  }

  lemma FirstIncompleteIs(ts: seq<PlannedTask>, k: nat)
    requires k <= |ts|
    requires forall i :: 0 <= i < k ==> ts[i].status == TaskComplete
    requires k < |ts| ==> ts[k].status != TaskComplete
    ensures FirstIncomplete(ts) == k
  {
    var j := FirstIncomplete(ts);
    assert !(j < k) && !(k < j);
  }

  /** Index of the first task with this ID, or the task count. */
  function FirstWithID(ts: seq<PlannedTask>, id: TaskID): (k: nat)
    ensures k <= |ts|
    ensures forall i :: 0 <= i < k ==> ts[i].id != id
    ensures k < |ts| ==> ts[k].id == id
  {
    if ts == [] || ts[0].id == id then 0
    else
      var k := FirstWithID(ts[1..], id);
      assert forall i :: 1 <= i < k + 1 ==> ts[i] == ts[1..][i - 1];
      k + 1
  }

  /** The counter value a reset plan was built for; no other plan has one. */
  function ResetGeneration(ts: seq<PlannedTask>): Option<int> {
    if ts == [] then None
    else if ts[0].taskType == RecordDataReset && ts[0].params.Generation? then Some(ts[0].params.generation)
    else ResetGeneration(ts[1..])
  }

  // ---- one task ----

  /** What an attempt does to its task. */
  datatype Verdict = Completes | Retries | Fails(error: TaskError) | Stays

  predicate IsRecordTask(t: TaskType) { t == RecordDataReset || t == RecordMaintenanceHold }

  /** advanceTask's branches. Start tasks meet the guard first and are
      fire-and-forget; record tasks complete inside Execute. */
  function Judge(n: Node, t: PlannedTask, o: Outcome): Verdict {
    if o.BadParams? then Fails(OtherError)
    else if IsStartTask(t.taskType) then
      if GuardRefuses(n, t.taskType) then Fails(GuardRefusal)
      else if o.ExecTerminal? then Fails(OtherError)
      else if o.ExecError? then Stays
      else Completes
    else if IsRecordTask(t.taskType) then Completes
    else match o
      case ExecTerminal => Fails(OtherError)
      case ExecFailed => if t.maxRetries > 0 && t.retryCount < t.maxRetries then Retries else Fails(OtherError)
      case Done => Completes
      case _ => Stays
  }

  function Judged(t: PlannedTask, v: Verdict): PlannedTask {
    match v
    case Completes => t.(status := TaskComplete)
    case Retries => t.(retryCount := t.retryCount + 1, status := TaskPending)
    case Fails(_) => t.(status := TaskFailed)
    case Stays => t
  }

  /** The plan after a verdict on task k; failTask finds k again by its ID. */
  function StepPlan(p: TaskPlan, k: nat, v: Verdict): TaskPlan
    requires k < |p.tasks|
  {
    var t := Judged(p.tasks[k], v);
    var q := p.(tasks := p.tasks[k := t]);
    if v.Fails? then
      var i := FirstWithID(q.tasks, t.id);
      q.(phase := PlanFailed,
         failedTaskIndex := if i < |q.tasks| then Some(i) else q.failedTaskIndex,
         failedTaskDetail := Some(FailedTaskInfo(t.taskType, t.id, v.error, t.retryCount, t.maxRetries)))
    else q
  }

  function TargetPhase(current: Phase, target: Phase): Phase {
    if target == Unset then current else target
  }

  function OpenGate(n: Node, t: TaskType): Node {
    n.Emit(GateOpened(t == StartSeidOnce, n.status.phase, n.spec.hold, DataResetPending(n)))
     .(sidecar := n.sidecar.(gateOpen := true))
  }

  /** observe-image: a finished rollout stamps the four observed fields. */
  function StampObserved(n: Node): Node {
    n.Emit(ImageStamped(n.history.templatePinned)).(status := n.status.(
      currentImage := n.spec.image,
      currentSidecarImage := EffectiveSidecarImage(n.spec, n.platform),
      currentIsolation := EffectiveIsolation(n.spec),
      currentNodePool := n.spec.nodePool))
  }

  /** record-data-reset: raises the handled counter and never lowers it. */
  function RecordReset(n: Node, plan: nat, generation: int): Node {
    if generation <= n.status.dataResetGeneration then n
    else n.Emit(ResetRecorded(plan, generation, n.status.dataResetGeneration))
          .(status := n.status.(dataResetGeneration := generation))
  }

  function RecordHold(n: Node, hold: Hold): Node {
    n.Emit(HoldRecorded(hold)).(status := n.status.(maintenanceHold := hold))
  }

  /** What completing a task does to the node and to the sidecar. */
  function TaskEffect(n: Node, p: TaskPlan, t: PlannedTask): Node {
    match t.taskType
    case MarkReady => OpenGate(n, MarkReady)
    case StartSeidOnce => OpenGate(n, StartSeidOnce)
    case MarkNotReady => n.Emit(GateClosed(ResetGeneration(p.tasks))).(sidecar := n.sidecar.(gateOpen := false))
    case StopSeid => n.(sidecar := n.sidecar.(seidRunning := false))
    case ResetDataKeepSignState => n.Emit(WipeCompleted(p.id))
    case ObserveImage => StampObserved(n)
    case RecordDataReset => if t.params.Generation? then RecordReset(n, p.id, t.params.generation) else n
    case RecordMaintenanceHold => if t.params.HoldInEffect? then RecordHold(n, t.params.hold) else n
    case _ => n
  }

  /** A submission that reached the sidecar, whatever its later fate. */
  predicate Lands(o: Outcome) { o.StillRunning? || o.Done? || o.ExecFailed? || (o.ExecError? && o.landed) }

  function Submitted(n: Node, t: TaskType, o: Outcome): Node {
    if t == ResetDataKeepSignState && Lands(o)
    then n.Emit(WipeSubmitted(n.sidecar.gateOpen, n.sidecar.seidRunning)) else n
  }

  /** What the attempt does outside the plan. */
  function StepWorld(n: Node, p: TaskPlan, t: PlannedTask, o: Outcome): Node {
    var v := Judge(n, t, o);
    var m := Submitted(n, t.taskType, o);
    if v.Completes? then TaskEffect(m, p, t)
    else if v.Fails? && v.error.GuardRefusal? then m.Emit(StartRefused(n.status.phase, n.spec != n.history.builtFrom))
    else if IsStartTask(t.taskType) && v.Stays? && o.ExecError? && o.landed then OpenGate(m, t.taskType)
    else m
  }

  /** advanceTask on the node's current plan p. */
  function Advance(n: Node, p: TaskPlan, k: nat, o: Outcome): (Node, TaskPlan)
    requires k < |p.tasks|
  {
    var v := Judge(n, p.tasks[k], o);
    var m := StepWorld(n, p, p.tasks[k], o);
    (if v.Fails? then m.(status := m.status.(phase := TargetPhase(m.status.phase, p.failedPhase))) else m,
     StepPlan(p, k, v))
  }

  // ---- the whole plan ----

  /** Nothing but the task's status and retry count, and the plan's failure
      record, ever changes. */
  lemma StepPlanKeeps(p: TaskPlan, k: nat, v: Verdict)
    requires k < |p.tasks|
    ensures var q := StepPlan(p, k, v);
            && |q.tasks| == |p.tasks|
            && (forall i :: 0 <= i < |p.tasks| && i != k ==> q.tasks[i] == p.tasks[i])
            && q.tasks[k] == Judged(p.tasks[k], v)
            && q.id == p.id && q.targetPhase == p.targetPhase && q.failedPhase == p.failedPhase
            && q.configHash == p.configHash
            && (!v.Fails? ==> q.phase == p.phase && q.failedTaskIndex == p.failedTaskIndex && q.failedTaskDetail == p.failedTaskDetail)
  {
  }

  /** All tasks are complete: the plan is too, and the node takes its target. */
  function FinishPlan(n: Node, p: TaskPlan): (Node, TaskPlan) {
    (n.(status := n.status.(
       phase := TargetPhase(n.status.phase, p.targetPhase),
       currentConfigHash := if p.configHash != "" then p.configHash else n.status.currentConfigHash)),
     p.(phase := PlanComplete))
  }

  lemma FrontierMoves(p: TaskPlan, v: Verdict)
    requires FirstIncomplete(p.tasks) < |p.tasks|
    ensures var k := FirstIncomplete(p.tasks);
            FirstIncomplete(StepPlan(p, k, v).tasks) > k <==> StepPlan(p, k, v).tasks[k].status == TaskComplete
  {
    var k := FirstIncomplete(p.tasks);
    var q := StepPlan(p, k, v);
    StepPlanKeeps(p, k, v);
    if q.tasks[k].status != TaskComplete {
      FirstIncompleteIs(q.tasks, k);
    } else {
      assert forall i :: 0 <= i <= k ==> q.tasks[i].status == TaskComplete;
    }
  }

  /** The executor loop as a recursion: stop at the first task this reconcile
      does not complete. */
  function ExecuteFrom(n: Node, p: TaskPlan, o: Oracle): (Node, TaskPlan)
    decreases |p.tasks| - FirstIncomplete(p.tasks)
  {
    var k := FirstIncomplete(p.tasks);
    if k == |p.tasks| then FinishPlan(n, p)
    else
      var (m, q) := Advance(n, p, k, o(k));
      if q.tasks[k].status != TaskComplete then (m, q)
      else
        FrontierMoves(p, Judge(n, p.tasks[k], o(k)));
        ExecuteFrom(m, q, o)
  }

  /** executePlan on the plan in the node's status. */
  function ExecutePlan(n: Node, o: Oracle): Node {
    if !n.HasActivePlan() then n
    else
      var (m, q) := ExecuteFrom(n, n.status.plan.value, o);
      m.(status := m.status.(plan := Some(q)))
  }

  // ---- the executor's invariant ----

  predicate PositionIDs(id: nat, ts: seq<PlannedTask>) {
    forall i :: 0 <= i < |ts| ==> ts[i].id == TaskID(id, ts[i].taskType, i)
  }

  predicate WithinBudget(ts: seq<PlannedTask>) {
    forall i :: 0 <= i < |ts| ==> ts[i].retryCount <= ts[i].maxRetries
  }

  predicate UntouchedFrom(ts: seq<PlannedTask>, from: nat) {
    forall i :: from <= i < |ts| ==> ts[i].status == TaskPending && ts[i].retryCount == 0
  }

  /** IDs name positions, retry counts stay in budget, nothing after the current task is touched. */
  predicate TasksInvariant(p: TaskPlan) {
    && PositionIDs(p.id, p.tasks)
    && WithinBudget(p.tasks)
    && UntouchedFrom(p.tasks, FirstIncomplete(p.tasks) + 1)
  }

  predicate NoFailure(p: TaskPlan) { p.failedTaskIndex == None && p.failedTaskDetail == None }

  /** A Complete prefix, one current task, an untouched suffix; the plan's phase
      and its failure record agree with where the current task stands. */
  predicate PlanInvariant(p: TaskPlan) {
    var k := FirstIncomplete(p.tasks);
    && TasksInvariant(p)
    && match p.phase
       case Active => k < |p.tasks| && p.tasks[k].status == TaskPending && NoFailure(p)
       case PlanComplete => k == |p.tasks| && NoFailure(p)
       case PlanFailed =>
         && k < |p.tasks| && p.tasks[k].status == TaskFailed && p.failedTaskIndex == Some(k)
         && p.failedTaskDetail.Some?
         && p.failedTaskDetail.value.id == p.tasks[k].id
         && p.failedTaskDetail.value.taskType == p.tasks[k].taskType
  }

  /** The same while the loop runs: every task may already be complete. */
  predicate Advancing(p: TaskPlan) {
    var k := FirstIncomplete(p.tasks);
    && TasksInvariant(p) && p.phase.Active? && NoFailure(p)
    && (k < |p.tasks| ==> p.tasks[k].status == TaskPending)
  }

  /** One verdict: a completed task moves the frontier by exactly one, a failed
      one ends the plan naming it, anything else leaves the frontier in place. */
  lemma StepPlanInvariant(p: TaskPlan, v: Verdict)
    requires Advancing(p) && FirstIncomplete(p.tasks) < |p.tasks|
    requires v.Retries? ==> p.tasks[FirstIncomplete(p.tasks)].retryCount < p.tasks[FirstIncomplete(p.tasks)].maxRetries
    ensures var k := FirstIncomplete(p.tasks);
            var q := StepPlan(p, k, v);
            && (v.Completes? ==> Advancing(q) && FirstIncomplete(q.tasks) == k + 1)
            && (!v.Completes? ==> PlanInvariant(q) && FirstIncomplete(q.tasks) == k)
            && (v.Fails? <==> q.phase.PlanFailed?)
  {
    var k := FirstIncomplete(p.tasks);
    var q := StepPlan(p, k, v);
    StepPlanKeeps(p, k, v);
    if v.Completes? {
      FirstIncompleteIs(q.tasks, k + 1);
    } else {
      FirstIncompleteIs(q.tasks, k);
      if v.Fails? {
        UniqueIDs(p.id, q.tasks, k);
      }
    }
  }

  lemma UniqueIDs(id: nat, ts: seq<PlannedTask>, k: nat)
    requires PositionIDs(id, ts) && k < |ts|
    ensures FirstWithID(ts, ts[k].id) == k
  {
    var j := FirstWithID(ts, ts[k].id);
    assert j <= k;
    assert ts[j].id == ts[k].id;
  }

  /** For every plan and every outcome sequence one execution keeps the invariant. */
  lemma {:induction false} ExecuteFromInvariant(n: Node, p: TaskPlan, o: Oracle)
    requires Advancing(p)
    ensures PlanInvariant(ExecuteFrom(n, p, o).1)
    decreases |p.tasks| - FirstIncomplete(p.tasks)
  {
    var k := FirstIncomplete(p.tasks);
    if k < |p.tasks| {
      var v := Judge(n, p.tasks[k], o(k));
      StepPlanInvariant(p, v);
      if v.Completes? {
        var (m, q) := Advance(n, p, k, o(k));
        ExecuteFromInvariant(m, q, o);
      }
    }
  }

  lemma ExecutePlanInvariant(n: Node, o: Oracle)
    requires n.status.plan.Some? && PlanInvariant(n.status.plan.value)
    ensures ExecutePlan(n, o).status.plan.Some? && PlanInvariant(ExecutePlan(n, o).status.plan.value)
  {
    if n.HasActivePlan() {
      ExecuteFromInvariant(n, n.status.plan.value, o);
    }
  }

  lemma EffectKeepsPhase(n: Node, p: TaskPlan, t: PlannedTask)
    ensures TaskEffect(n, p, t).status.phase == n.status.phase
  {
  }

  lemma AdvancePhase(n: Node, p: TaskPlan, k: nat, o: Outcome)
    requires k < |p.tasks|
    ensures Advance(n, p, k, o).0.status.phase ==
            if Judge(n, p.tasks[k], o).Fails? then TargetPhase(n.status.phase, p.failedPhase) else n.status.phase
  {
    hide TaskEffect, Judge;
    EffectKeepsPhase(Submitted(n, p.tasks[k].taskType, o), p, p.tasks[k]);
  }

  /** Where a plan that ended, or did not, takes the node. */
  function PhaseAfter(phase: Phase, p: TaskPlan, ended: PlanPhase): Phase {
    match ended
    case Active => phase
    case PlanComplete => TargetPhase(phase, p.targetPhase)
    case PlanFailed => TargetPhase(phase, p.failedPhase)
  }

  /** One execution moves the node to the plan's target phase when the plan
      completes, to its failed phase when it fails, and nowhere otherwise. */
  lemma {:induction false} PhaseFollowsPlan(n: Node, p: TaskPlan, o: Oracle)
    requires Advancing(p)
    ensures var (m, q) := ExecuteFrom(n, p, o); m.status.phase == PhaseAfter(n.status.phase, p, q.phase)
    decreases |p.tasks| - FirstIncomplete(p.tasks)
  {
    hide StepWorld, Judge, TasksInvariant;
    var k := FirstIncomplete(p.tasks);
    if k < |p.tasks| {
      var v := Judge(n, p.tasks[k], o(k));
      JudgeRetries(n, p.tasks[k], o(k));
      StepPlanInvariant(p, v);
      StepPlanKeeps(p, k, v);
      AdvancePhase(n, p, k, o(k));
      if v.Completes? {
        var (m, q) := Advance(n, p, k, o(k));
        PhaseFollowsPlan(m, q, o);
      }
    }
  }

  lemma JudgeRetries(n: Node, t: PlannedTask, o: Outcome)
    ensures Judge(n, t, o).Retries? ==> t.retryCount < t.maxRetries
  {
  }

  /** The reconciled object and the executor's methods, which change it in place. */
  class NodeObject {
    var spec: Spec
    var status: Status
    var platform: Platform
    var sidecar: Sidecar
    var history: History

    function View(): Node
      reads this
    {
      Node(spec, status, platform, sidecar, history)
    }

    constructor (n: Node)
      ensures View() == n
    {
      spec, status, platform, sidecar, history := n.spec, n.status, n.platform, n.sidecar, n.history;
    }

    method Emit(e: Event)
      modifies this`history
      ensures View() == old(View()).Emit(e)
    {
      history := history.(log := history.log + [e]);
    }

    method SetTargetPhase(target: Phase)
      modifies this`status
      ensures status == old(status).(phase := TargetPhase(old(status.phase), target))
    {
      if target != Unset {
        status := status.(phase := target);
      }
    }

    /** CurrentTask: the first task that is not Complete. */
    static method CurrentTask(p: TaskPlan) returns (k: nat)
      ensures k == FirstIncomplete(p.tasks)
    {
      k := 0;
      while k < |p.tasks| && p.tasks[k].status == TaskComplete
        invariant 0 <= k <= |p.tasks|
        invariant forall i :: 0 <= i < k ==> p.tasks[i].status == TaskComplete
      {
        k := k + 1;
      }
      FirstIncompleteIs(p.tasks, k);
    }

    static method FindByID(p: TaskPlan, id: TaskID) returns (k: nat)
      ensures k == FirstWithID(p.tasks, id)
    {
      k := 0;
      while k < |p.tasks| && p.tasks[k].id != id
        invariant 0 <= k <= FirstWithID(p.tasks, id)
      {
        k := k + 1;
      }
    }

    method OpenStartGate(t: TaskType)
      modifies this`sidecar, this`history
      ensures View() == OpenGate(old(View()), t)
    {
      Emit(GateOpened(t == StartSeidOnce, status.phase, spec.hold, DataResetPending(View())));
      sidecar := sidecar.(gateOpen := true);
    }

    method ObserveRollout()
      modifies this`status, this`history
      ensures View() == StampObserved(old(View()))
      ensures !PodTemplateDrifted(spec, status, platform)
    {
      Emit(ImageStamped(history.templatePinned));
      status := status.(
        currentImage := spec.image,
        currentSidecarImage := EffectiveSidecarImage(spec, platform),
        currentIsolation := EffectiveIsolation(spec),
        currentNodePool := spec.nodePool);
    }

    method RecordDataResetTask(plan: nat, generation: int)
      modifies this`status, this`history
      ensures View() == RecordReset(old(View()), plan, generation)
      ensures status.dataResetGeneration >= old(status.dataResetGeneration)
    {
      if generation > status.dataResetGeneration {
        Emit(ResetRecorded(plan, generation, status.dataResetGeneration));
        status := status.(dataResetGeneration := generation);
      }
    }

    method RecordHoldTask(hold: Hold)
      modifies this`status, this`history
      ensures View() == RecordHold(old(View()), hold)
    {
      Emit(HoldRecorded(hold));
      status := status.(maintenanceHold := hold);
    }

    method CompleteEffect(p: TaskPlan, t: PlannedTask)
      modifies this`status, this`sidecar, this`history
      ensures View() == TaskEffect(old(View()), p, t)
    {
      match t.taskType {
        case MarkReady => OpenStartGate(MarkReady);
        case StartSeidOnce => OpenStartGate(StartSeidOnce);
        case MarkNotReady =>
          Emit(GateClosed(ResetGeneration(p.tasks)));
          sidecar := sidecar.(gateOpen := false);
        case StopSeid => sidecar := sidecar.(seidRunning := false);
        case ResetDataKeepSignState => Emit(WipeCompleted(p.id));
        case ObserveImage => ObserveRollout();
        case RecordDataReset => if t.params.Generation? { RecordDataResetTask(p.id, t.params.generation); }
        case RecordMaintenanceHold => if t.params.HoldInEffect? { RecordHoldTask(t.params.hold); }
        case _ =>
      }
    }

    /** failTask: the task and the plan fail and the node takes FailedPhase. */
    method FailTask(p: TaskPlan, k: nat, error: TaskError) returns (q: TaskPlan)
      requires k < |p.tasks|
      modifies this`status
      ensures q == StepPlan(p, k, Fails(error))
      ensures status == old(status).(phase := TargetPhase(old(status.phase), p.failedPhase))
    {
      var t := p.tasks[k].(status := TaskFailed);
      q := p.(tasks := p.tasks[k := t], phase := PlanFailed);
      SetTargetPhase(p.failedPhase);
      var i := FindByID(q, t.id);
      if i < |q.tasks| {
        q := q.(failedTaskIndex := Some(i));
      }
      q := q.(failedTaskDetail := Some(FailedTaskInfo(t.taskType, t.id, error, t.retryCount, t.maxRetries)));
    }

    /** A start step meets the guard inside its Execute and is done once submitted. */
    method AdvanceStart(p: TaskPlan, k: nat, o: Outcome) returns (q: TaskPlan)
      requires k < |p.tasks| && IsStartTask(p.tasks[k].taskType) && !o.BadParams?
      modifies this`status, this`sidecar, this`history
      ensures View() == Advance(old(View()), p, k, o).0
      ensures q == Advance(old(View()), p, k, o).1
    {
      var t := p.tasks[k];
      if GuardRefuses(View(), t.taskType) {
        Emit(StartRefused(status.phase, spec != history.builtFrom));
        q := FailTask(p, k, GuardRefusal);
      } else if o.ExecTerminal? {
        q := FailTask(p, k, OtherError);
      } else if o.ExecError? {
        if o.landed { OpenStartGate(t.taskType); }
        q := p;
      } else {
        OpenStartGate(t.taskType);
        q := p.(tasks := p.tasks[k := t.(status := TaskComplete)]);
      }
    }

    /** A tracked task that is not done: failed for good, to be retried, or still on its way. */
    method AdvanceTracked(p: TaskPlan, k: nat, o: Outcome) returns (q: TaskPlan)
      requires k < |p.tasks| && !IsStartTask(p.tasks[k].taskType) && !IsRecordTask(p.tasks[k].taskType) && !o.BadParams? && !o.Done?
      modifies this`status
      ensures q == StepPlan(p, k, Judge(old(View()), p.tasks[k], o))
      ensures Judge(old(View()), p.tasks[k], o).Fails? ==> status == old(status).(phase := TargetPhase(old(status.phase), p.failedPhase))
      ensures !Judge(old(View()), p.tasks[k], o).Fails? ==> status == old(status)
    {
      var t := p.tasks[k];
      q := p;
      if o.ExecTerminal? {
        q := FailTask(p, k, OtherError);
      } else if o.ExecFailed? {
        if t.maxRetries > 0 && t.retryCount < t.maxRetries {
          q := p.(tasks := p.tasks[k := t.(retryCount := t.retryCount + 1, status := TaskPending)]);
        } else {
          q := FailTask(p, k, OtherError);
        }
      }
    }

    /** advanceTask: drive the current task one step. */
    method AdvanceTask(p: TaskPlan, k: nat, o: Outcome) returns (q: TaskPlan)
      requires k < |p.tasks|
      modifies this`status, this`sidecar, this`history
      ensures View() == Advance(old(View()), p, k, o).0
      ensures q == Advance(old(View()), p, k, o).1
    {
      hide TaskEffect, FirstWithID;
      var t := p.tasks[k];
      if o.BadParams? {
        q := FailTask(p, k, OtherError);
        return;
      }
      if t.taskType == ResetDataKeepSignState && Lands(o) {
        Emit(WipeSubmitted(sidecar.gateOpen, sidecar.seidRunning));
      }
      if IsStartTask(t.taskType) {
        q := AdvanceStart(p, k, o);
      } else if IsRecordTask(t.taskType) || o.Done? {
        CompleteEffect(p, t);
        q := p.(tasks := p.tasks[k := t.(status := TaskComplete)]);
      } else {
        q := AdvanceTracked(p, k, o);
      }
    }

    /** executePlan: advance tasks in order until one does not complete. */
    method Execute(o: Oracle)
      requires status.plan.Some?
      modifies this
      ensures View() == ExecutePlan(old(View()), o)
      ensures old(PlanInvariant(status.plan.value)) ==> status.plan.Some? && PlanInvariant(status.plan.value)
    {
      if PlanInvariant(status.plan.value) { ExecutePlanInvariant(View(), o); }
      if !status.plan.value.phase.Active? {
        return;
      }
      var p := status.plan.value;
      ghost var end := ExecuteFrom(View(), p, o);
      while true
        invariant ExecuteFrom(View(), p, o) == end
        decreases |p.tasks| - FirstIncomplete(p.tasks)
      {
        var k := CurrentTask(p);
        if k == |p.tasks| {
          p := p.(phase := PlanComplete);
          if p.configHash != "" {
            status := status.(currentConfigHash := p.configHash);
          }
          SetTargetPhase(p.targetPhase);
          break;
        }
        FrontierMoves(p, Judge(View(), p.tasks[k], o(k)));
        p := AdvanceTask(p, k, o(k));
        if p.tasks[k].status != TaskComplete {
          break;
        }
      }
      status := status.(plan := Some(p));
    }
  }
}
