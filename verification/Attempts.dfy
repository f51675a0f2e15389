/** What each answer to an attempt does to a plan, how many failed attempts a
    task survives, and which budget every builder gives it. */
module Attempts {
  import opened Options
  import opened NodeTypes
  import opened Executor

  // ---- one attempt ----

  /** A task that is tracked until it ends: neither a start step nor a record step. */
  predicate Tracked(t: TaskType) { t !in {MarkReady, StartSeidOnce, RecordDataReset, RecordMaintenanceHold} }

  /** A start the guard refuses, read from the node's own fields. */
  predicate Refused(n: Node, t: TaskType) {
    var resetPending := n.spec.nodeConfig && n.spec.dataResetGeneration > n.status.dataResetGeneration;
    || (t == MarkReady && (resetPending || (n.spec.hold != NoHold && n.status.phase == Running)))
    || (t == StartSeidOnce && (resetPending || n.spec.hold != AfterExit))
  }

  predicate Ends(n: Node, t: PlannedTask, o: Outcome) {
    if Tracked(t.taskType) then o.Done?
    else if t.taskType in {MarkReady, StartSeidOnce} then !Refused(n, t.taskType) && (o.StillRunning? || o.Done? || o.ExecFailed?)
    else !o.BadParams?
  }

  predicate Breaks(n: Node, t: PlannedTask, o: Outcome) {
    || o.BadParams?
    || (Tracked(t.taskType) && (o.ExecTerminal? || (o.ExecFailed? && t.retryCount >= t.maxRetries)))
    || (t.taskType in {MarkReady, StartSeidOnce} && (Refused(n, t.taskType) || o.ExecTerminal?))
  }

  /** A failed plan names its task, why it failed, and how often it was retried. */
  predicate FailedNaming(q: TaskPlan, k: nat, t: PlannedTask, why: TaskError) {
    && q.phase == PlanFailed && k < |q.tasks| && q.tasks[k] == t.(status := TaskFailed) && q.failedTaskIndex == Some(k)
    && q.failedTaskDetail == Some(FailedTaskInfo(t.taskType, t.id, why, t.retryCount, t.maxRetries))
  }

  lemma VerdictIs(n: Node, t: PlannedTask, o: Outcome)
    ensures var v := Judge(n, t, o);
            && (v.Completes? <==> Ends(n, t, o)) && (v.Fails? <==> Breaks(n, t, o))
            && (v.Fails? ==> v.error == if Refused(n, t.taskType) && !o.BadParams? then GuardRefusal else OtherError)
            && (v.Retries? ==> Tracked(t.taskType) && o.ExecFailed?) && (v.Stays? ==> !(Tracked(t.taskType) && o.ExecFailed?))
  {
  }

  /** One attempt at the current task completes it, fails the plan naming it, or
      leaves it Pending; only a failed attempt within the budget counts as a retry. */
  lemma AnswerDecides(n: Node, p: TaskPlan, k: nat, o: Outcome)
    requires Advancing(p) && k == FirstIncomplete(p.tasks) < |p.tasks|
    ensures var t, q := p.tasks[k], Advance(n, p, k, o).1;
            && |q.tasks| == |p.tasks| && q.tasks == p.tasks[k := q.tasks[k]]
            && (q.tasks[k].status == TaskComplete <==> Ends(n, t, o))
            && (q.phase == PlanFailed <==> Breaks(n, t, o))
            && (Breaks(n, t, o) ==> FailedNaming(q, k, t, if Refused(n, t.taskType) && !o.BadParams? then GuardRefusal else OtherError))
            && (!Breaks(n, t, o) ==> q.phase == Active && NoFailure(q))
            && (!Ends(n, t, o) && !Breaks(n, t, o) ==>
                  q == p.(tasks := p.tasks[k := if Tracked(t.taskType) && o.ExecFailed? then t.(retryCount := t.retryCount + 1) else t]))
  {
    hide StepWorld, TasksInvariant, Judge, Ends, Breaks, Refused, Tracked, FirstIncomplete;
    var t := p.tasks[k];
    var v := Judge(n, t, o);
    VerdictIs(n, t, o);
    StepPlanKeeps(p, k, v);
    if v.Fails? {
      assert PositionIDs(p.id, StepPlan(p, k, v).tasks) by { Positions(p, k, v); }
      UniqueIDs(p.id, StepPlan(p, k, v).tasks, k);
    }
  }

  lemma Positions(p: TaskPlan, k: nat, v: Verdict)
    requires TasksInvariant(p) && k < |p.tasks|
    ensures PositionIDs(p.id, StepPlan(p, k, v).tasks)
  {
    StepPlanKeeps(p, k, v);
  }

  // ---- the recorded config ----

  lemma AttemptKeepsHash(n: Node, p: TaskPlan, t: PlannedTask, o: Outcome)
    ensures StepWorld(n, p, t, o).status.currentConfigHash == n.status.currentConfigHash
  {
    hide Judge;
  }

  /** The observed config changes only when a plan completes, to the one it was built for. */
  lemma {:induction false} HashFollowsPlan(n: Node, p: TaskPlan, o: Oracle)
    requires Advancing(p)
    ensures var (m, q) := ExecuteFrom(n, p, o);
            m.status.currentConfigHash == if q.phase == PlanComplete && p.configHash != "" then p.configHash else n.status.currentConfigHash
    decreases |p.tasks| - FirstIncomplete(p.tasks)
  {
    hide StepWorld, Judge, TasksInvariant;
    var k := FirstIncomplete(p.tasks);
    if k < |p.tasks| {
      var v := Judge(n, p.tasks[k], o(k));
      JudgeRetries(n, p.tasks[k], o(k));
      StepPlanInvariant(p, v);
      StepPlanKeeps(p, k, v);
      AttemptKeepsHash(n, p, p.tasks[k], o(k));
      if v.Completes? {
        var (m, q) := Advance(n, p, k, o(k));
        HashFollowsPlan(m, q, o);
      }
    }
  }

  // ---- many attempts ----

  /** The node after a run of reconciles that each execute its plan. */
  function Executions(n: Node, os: seq<Oracle>): Node {
    if os == [] then n else ExecutePlan(Executions(n, os[..|os| - 1]), os[|os| - 1])
  }

  function Failures(os: seq<Oracle>, k: nat): nat {
    if os == [] then 0 else Failures(os[..|os| - 1], k) + One(os[|os| - 1](k).ExecFailed?)
  }

  /** No execution hears that task k is done, broken or badly formed. */
  predicate Unfinished(os: seq<Oracle>, k: nat) {
    forall i :: 0 <= i < |os| ==> os[i](k).ExecFailed? || os[i](k).StillRunning? || os[i](k).ExecError?
  }

  lemma OneExecution(n: Node, o: Oracle, k: nat)
    requires n.HasActivePlan() && PlanInvariant(n.status.plan.value) && k == FirstIncomplete(n.status.plan.value.tasks)
    requires Tracked(n.status.plan.value.tasks[k].taskType) && Unfinished([o], k)
    ensures ExecutePlan(n, o).status.plan == Some(Advance(n, n.status.plan.value, k, o(k)).1)
  {
    AnswerDecides(n, n.status.plan.value, k, o(k));
    assert [o][0](k) == o(k);
  }

  /** p with `used` retries of its task k used up, or failed there after the last. */
  predicate Spent(m: Node, p: TaskPlan, k: nat, used: nat)
    requires k < |p.tasks|
  {
    && m.status.plan.Some?
    && var t := p.tasks[k];
       if used <= t.maxRetries then m.status.plan.value == p.(tasks := p.tasks[k := t.(retryCount := used)])
       else FailedNaming(m.status.plan.value, k, t.(retryCount := t.maxRetries), OtherError)
  }

  lemma SpendOne(m: Node, p: TaskPlan, k: nat, used: nat, o: Oracle)
    requires PlanInvariant(p) && p.phase.Active? && k == FirstIncomplete(p.tasks) < |p.tasks| && Tracked(p.tasks[k].taskType)
    requires Spent(m, p, k, used) && Unfinished([o], k)
    ensures Spent(ExecutePlan(m, o), p, k, used + One(o(k).ExecFailed?))
  {
    hide PlanInvariant, Advance, Advancing;
    assert [o][0](k) == o(k);
    var t := p.tasks[k];
    if used <= t.maxRetries {
      var q := m.status.plan.value;
      SameShape(p, k, used);
      OneExecution(m, o, k);
      AnswerDecides(m, q, k, o(k));
      assert q.tasks[k := q.tasks[k]] == q.tasks;
      assert q.tasks[k := q.tasks[k].(retryCount := used + 1)] == p.tasks[k := t.(retryCount := used + 1)];
    }
  }

  lemma LastOne(os: seq<Oracle>, k: nat)
    requires os != [] && Unfinished(os, k)
    ensures Unfinished(os[..|os| - 1], k) && Unfinished([os[|os| - 1]], k)
    ensures Failures(os, k) == Failures(os[..|os| - 1], k) + One(os[|os| - 1](k).ExecFailed?)
  {
  }

  lemma NothingSpent(n: Node, k: nat)
    requires n.HasActivePlan() && PlanInvariant(n.status.plan.value) && k == FirstIncomplete(n.status.plan.value.tasks)
    ensures k < |n.status.plan.value.tasks| && Spent(n, n.status.plan.value, k, n.status.plan.value.tasks[k].retryCount)
  {
    var p := n.status.plan.value;
    assert p.tasks[k := p.tasks[k]] == p.tasks;
  }

  /** A tracked task with N retries left survives N failed attempts, whatever
      slow or lost answers come between, and not one more. */
  lemma {:induction false} SurvivesItsBudget(n: Node, os: seq<Oracle>, k: nat)
    requires n.HasActivePlan() && PlanInvariant(n.status.plan.value) && k == FirstIncomplete(n.status.plan.value.tasks)
    requires Tracked(n.status.plan.value.tasks[k].taskType) && Unfinished(os, k)
    ensures var p := n.status.plan.value; Spent(Executions(n, os), p, k, p.tasks[k].retryCount + Failures(os, k))
    decreases |os|
  {
    hide PlanInvariant, ExecutePlan, Tracked, Spent, Unfinished, FirstIncomplete;
    var p := n.status.plan.value;
    NothingSpent(n, k);
    if os != [] {
      LastOne(os, k);
      SurvivesItsBudget(n, os[..|os| - 1], k);
      SpendOne(Executions(n, os[..|os| - 1]), p, k, p.tasks[k].retryCount + Failures(os[..|os| - 1], k), os[|os| - 1]);
    }
  }

  lemma SameShape(p: TaskPlan, k: nat, used: nat)
    requires PlanInvariant(p) && p.phase.Active? && k == FirstIncomplete(p.tasks) && used <= p.tasks[k].maxRetries
    ensures var q := p.(tasks := p.tasks[k := p.tasks[k].(retryCount := used)]);
            PlanInvariant(q) && Advancing(q) && q.phase.Active? && FirstIncomplete(q.tasks) == k
  {
    FirstIncompleteIs(p.tasks[k := p.tasks[k].(retryCount := used)], k);
  }
}
