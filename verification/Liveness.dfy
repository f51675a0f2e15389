/** A quiet run settles: each reconcile that finds no plan, or whose current task
    answers Done, is one step towards rest, whatever slow reconciles, sidecar
    restarts and seid moves come between. */
module Liveness {
  import opened Options
  import opened NodeTypes
  import opened Executor
  import opened Builders
  import opened StaticPlans
  import opened Reconcile
  import opened Safety
  import opened Runs
  import opened Quiescence
  import opened Resolution

  const MAX_STEPS: nat := 7

  // ---- every plan of a Running node is short ----

  lemma AtMostSevenSteps(n: Node)
    requires RunningStepsOf(n).Some?
    ensures |RunningStepsOf(n).value| <= MAX_STEPS
  {
  }

  function ToDo(p: TaskPlan): nat { |p.tasks| - FirstIncomplete(p.tasks) }

  /** Tasks left in the active plan. */
  function PlanLeft(n: Node): nat { if n.HasActivePlan() then ToDo(n.status.plan.value) else 0 }

  lemma ActiveHasWork(n: Node)
    requires Inv(n) && n.HasActivePlan()
    ensures PlanLeft(n) >= 1
  {
    hide Base, Progress;
  }

  // ---- a Done answer moves the plan on ----

  lemma {:induction false} FrontierNeverRetreats(n: Node, p: TaskPlan, o: Oracle)
    requires Advancing(p)
    ensures var q := ExecuteFrom(n, p, o).1; |q.tasks| == |p.tasks| && FirstIncomplete(q.tasks) >= FirstIncomplete(p.tasks)
    decreases |p.tasks| - FirstIncomplete(p.tasks)
  {
    hide Judge, StepWorld, TasksInvariant;
    var k := FirstIncomplete(p.tasks);
    if k < |p.tasks| {
      var v := Judge(n, p.tasks[k], o(k));
      JudgeRetries(n, p.tasks[k], o(k));
      StepPlanInvariant(p, v);
      StepPlanKeeps(p, k, v);
      if v.Completes? {
        var (m, q) := Advance(n, p, k, o(k));
        FrontierNeverRetreats(m, q, o);
      }
    }
  }

  lemma DoneJudged(n: Node, t: PlannedTask)
    ensures Judge(n, t, Done).Completes? || Judge(n, t, Done).Fails?
  {
  }

  lemma DoneMovesOn(n: Node, p: TaskPlan, o: Oracle)
    requires Advancing(p) && FirstIncomplete(p.tasks) < |p.tasks| && o(FirstIncomplete(p.tasks)) == Done
    ensures var q := ExecuteFrom(n, p, o).1; !q.phase.Active? || ToDo(q) < ToDo(p)
  {
    hide Judge, StepWorld, TasksInvariant;
    var k := FirstIncomplete(p.tasks);
    var v := Judge(n, p.tasks[k], o(k));
    DoneJudged(n, p.tasks[k]);
    StepPlanInvariant(p, v);
    StepPlanKeeps(p, k, v);
    if v.Completes? {
      var (m, q) := Advance(n, p, k, o(k));
      FrontierNeverRetreats(m, q, o);
    }
  }

  /** A reconcile that gets somewhere: it plans, or its current task is done. */
  predicate Productive(n: Node, m: Move) {
    m.ReconcileMove? && (n.HasActivePlan() ==> m.inputs.oracle(FirstIncomplete(n.status.plan.value.tasks)) == Done)
  }

  /** An active plan is executed as it was. */
  lemma ActiveReconcileIs(n: Node, inp: Inputs)
    requires Inv(n) && n.status.phase == Running && !n.spec.paused && n.HasActivePlan() && Calm(n, inp)
    ensures var b, p := Probed(Render(n, inp), inp), n.status.plan.value;
            && ReconcileNode(n, inp).status.plan == Some(ExecuteFrom(b, p, inp.oracle).1)
            && ReconcileNode(n, inp).status.phase == ExecuteFrom(b, p, inp.oracle).0.status.phase
            && Advancing(p) && Progress(b, p, FirstIncomplete(p.tasks)) && b.status.phase == Running
  {
    hide ExecuteFrom, Base, Progress;
    CalmPrefix(n, inp);
    assert n.status.plan.value.phase.Active?;
  }

  lemma ActiveReconcileWorks(n: Node, inp: Inputs)
    requires Inv(n) && n.status.phase == Running && !n.spec.paused && n.HasActivePlan() && Calm(n, inp)
    ensures var m := ReconcileNode(n, inp);
            PlanLeft(m) <= PlanLeft(n) && (Productive(n, ReconcileMove(inp)) ==> PlanLeft(m) < PlanLeft(n))
  {
    var b, p := Probed(Render(n, inp), inp), n.status.plan.value;
    ActiveReconcileIs(n, inp);
    ActiveHasWork(n);
    hide ExecuteFrom, Inv, Calm, Progress, TasksInvariant, ReconcileNode;
    FrontierNeverRetreats(b, p, inp.oracle);
    if Productive(n, ReconcileMove(inp)) { DoneMovesOn(b, p, inp.oracle); }
  }

  lemma AdoptedIsShort(c: Node, inp: Inputs)
    requires c.spec.nodeConfig && c.status.phase == Running && c.status.plan == None
    ensures PlanLeft(PlanNext(c, inp)) <= MAX_STEPS
  {
    hide IsNodeUpdatePlan, MountedConfigWriter, StaticRunningPlan, RunningStepsOf, RunningPlan;
    RunningPlanIs(c, c.history.plansBuilt);
    if RunningStepsOf(c).Some? { AtMostSevenSteps(c); }
  }

  /** What a calm planner adopts is short. */
  lemma IdleReconcileIsShort(n: Node, inp: Inputs)
    requires Inv(n) && n.status.phase == Running && !n.spec.paused && !n.HasActivePlan() && Calm(n, inp)
    ensures PlanLeft(ReconcileNode(n, inp)) <= MAX_STEPS
  {
    hide PlanNext, Progress, PlanInvariant, SafeLog, OpenResetsPending, CountsAgree;
    CalmPrefix(n, inp);
    AdoptedIsShort(HandleTerminalPlan(Probed(Render(n, inp), inp)), inp);
  }

  // ---- work left ----

  /** r more plans of at most seven steps, and the rest of the current one. */
  function Cost(n: Node, r: nat): nat { (1 + MAX_STEPS) * r + PlanLeft(n) }

  predicate RunsFree(n: Node) { Inv(n) && n.status.phase == Running && !n.spec.paused }

  /** At most w productive reconciles are left: along a plan built from the
      present spec, or after whatever older plan is still active. */
  ghost predicate Budget(n: Node, w: nat) {
    || (exists r: nat :: Settling(n, r) && Cost(n, r) <= w)
    || (RunsFree(n) && n.HasActivePlan() && Cost(n, 3) <= w)
  }

  lemma FreeIsBudget(n: Node)
    requires RunsFree(n)
    ensures Budget(n, Cost(n, 3))
    ensures !n.HasActivePlan() ==> Budget(n, Cost(n, Needed(n.spec.hold, SituationOf(n))))
  {
    if !n.HasActivePlan() {
      var need := Needed(n.spec.hold, SituationOf(n));
      NeededBounds(n.spec.hold, SituationOf(n));
      assert Settling(n, need) && Cost(n, need) <= Cost(n, need);
      assert Settling(n, 3) && Cost(n, 3) <= Cost(n, 3);
    }
  }

  function Less(w: nat, productive: bool): nat { if productive && w > 0 then w - 1 else w }

  lemma SettlingReconcile(n: Node, inp: Inputs, r: nat, w: nat)
    requires Settling(n, r) && Cost(n, r) <= w && Quiet(n, ReconcileMove(inp))
    ensures Budget(ReconcileNode(n, inp), Less(w, Productive(n, ReconcileMove(inp))))
  {
    hide Inv, ReconcileNode, Needed, SituationOf, Heading;
    var q := ReconcileNode(n, inp);
    var next := Less(w, Productive(n, ReconcileMove(inp)));
    if n.HasActivePlan() {
      ActiveReconcileSettles(n, inp, r);
      ActiveReconcileWorks(n, inp);
      assert Settling(q, r) && Cost(q, r) <= next;
    } else {
      IdleReconcileSettles(n, inp);
      IdleReconcileIsShort(n, inp);
      var need := Needed(n.spec.hold, SituationOf(n));
      if need == 0 {
        assert Settling(q, 0) && Cost(q, 0) <= next;
      } else {
        assert Settling(q, need - 1) && Cost(q, need - 1) <= next;
      }
    }
  }

  /** An older plan keeps the node Running until it ends, either way. */
  lemma OlderPlanKeepsRunning(n: Node, inp: Inputs)
    requires RunsFree(n) && n.HasActivePlan() && Calm(n, inp)
    ensures RunsFree(ReconcileNode(n, inp))
  {
    ReconcileSafe(n, inp);
    ActiveReconcileIs(n, inp);
    CalmSpec(n, inp);
    var b, p := Probed(Render(n, inp), inp), n.status.plan.value;
    hide ExecuteFrom, Inv, Calm, ReconcileNode, TasksInvariant;
    PhaseFollowsPlan(b, p, inp.oracle);
  }

  lemma CalmSpec(n: Node, inp: Inputs)
    requires RunsFree(n) && n.HasActivePlan() && Calm(n, inp)
    ensures ReconcileNode(n, inp).spec == n.spec
  {
    hide ExecuteFrom, Inv;
    CalmPrefix(n, inp);
    ExecuteFrame(Probed(Render(n, inp), inp), n.status.plan.value, inp.oracle);
  }

  lemma OlderReconcile(n: Node, inp: Inputs, w: nat)
    requires RunsFree(n) && n.HasActivePlan() && Cost(n, 3) <= w && Quiet(n, ReconcileMove(inp))
    ensures Budget(ReconcileNode(n, inp), Less(w, Productive(n, ReconcileMove(inp))))
  {
    hide Inv, ReconcileNode;
    OlderPlanKeepsRunning(n, inp);
    ActiveReconcileWorks(n, inp);
    var q := ReconcileNode(n, inp);
    FreeIsBudget(q);
    BudgetGrows(q, Cost(q, 3), Less(w, Productive(n, ReconcileMove(inp))));
  }

  lemma BudgetGrows(n: Node, v: nat, w: nat)
    requires Budget(n, v) && v <= w
    ensures Budget(n, w)
  {
    hide Settling, RunsFree;
    if r: nat :| Settling(n, r) && Cost(n, r) <= v { assert Cost(n, r) <= w; }
  }

  lemma SidecarMoveKeepsBudget(n: Node, m: Move, w: nat)
    requires Budget(n, w) && Quiet(n, m) && !m.ReconcileMove?
    ensures Budget(Apply(n, m), w)
  {
    hide Base, Progress, PlanInvariant, Heading, Needed, SituationOf;
    var q := Apply(n, m);
    SidecarMoveSafeAll(n, m);
    assert PlanLeft(q) == PlanLeft(n) && q.history == n.history;
    if r: nat :| Settling(n, r) && Cost(n, r) <= w {
      QuietMoveSettles(n, m, r);
      assert Settling(q, r) && Cost(q, r) <= w;
    }
  }

  lemma SidecarMoveSafeAll(n: Node, m: Move)
    requires Inv(n) && !m.ReconcileMove?
    requires m.SidecarRestart? || m.SeidExits? || (m.SeidStarts? && n.sidecar.gateOpen)
    ensures Inv(Apply(n, m)) && Apply(n, m) == n.(sidecar := Apply(n, m).sidecar)
  {
    SidecarMoveSafe(n, Apply(n, m).sidecar);
  }

  lemma QuietMoveWorks(n: Node, m: Move, w: nat)
    requires Budget(n, w) && Quiet(n, m)
    ensures Budget(Apply(n, m), Less(w, Productive(n, m)))
  {
    hide Settling, RunsFree, ReconcileNode, Calm;
    if m.ReconcileMove? {
      if r: nat :| Settling(n, r) && Cost(n, r) <= w {
        SettlingReconcile(n, m.inputs, r, w);
      } else {
        OlderReconcile(n, m.inputs, w);
      }
    } else {
      SidecarMoveKeepsBudget(n, m, w);
    }
  }

  // ---- the theorem ----

  /** How many reconciles of the run were productive. */
  function ProductiveIn(n: Node, moves: seq<Move>): nat {
    if moves == [] then 0
    else
      var init := moves[..|moves| - 1];
      ProductiveIn(n, init) + if Productive(Run(n, init), moves[|moves| - 1]) then 1 else 0
  }

  lemma {:induction false} RunWorks(n: Node, moves: seq<Move>, w: nat)
    requires Budget(n, w) && QuietRun(n, moves)
    ensures Budget(Run(n, moves), if ProductiveIn(n, moves) >= w then 0 else w - ProductiveIn(n, moves))
    decreases |moves|
  {
    hide Budget, Quiet, Productive, Apply;
    if moves != [] {
      var init := moves[..|moves| - 1];
      RunWorks(n, init, w);
      QuietMoveWorks(Run(n, init), moves[|moves| - 1], if ProductiveIn(n, init) >= w then 0 else w - ProductiveIn(n, init));
    }
  }

  lemma NoBudgetIsRest(n: Node)
    requires Budget(n, 0)
    ensures AtRest(n)
  {
    if n.HasActivePlan() { InvOfBudget(n); ActiveHasWork(n); }
    NeededBounds(n.spec.hold, SituationOf(n));
  }

  lemma InvOfBudget(n: Node)
    requires Budget(n, 0)
    ensures Inv(n)
  {
  }

  /** From any reachable state of a Running, unpaused node, every quiet run with
      enough productive reconciles ends at rest: eight for each plan still needed
      (never more than three), and first the tasks left of a plan already active,
      whatever spec that was built from. */
  lemma SettlesAfterEnoughWork(n: Node, moves: seq<Move>)
    requires RunsFree(n) && QuietRun(n, moves)
    requires ProductiveIn(n, moves) >= PlanLeft(n) + 8 * if n.HasActivePlan() then 3 else Needed(n.spec.hold, SituationOf(n))
    ensures AtRest(Run(n, moves))
  {
    hide Budget, QuietRun, RunsFree;
    FreeIsBudget(n);
    var r := if n.HasActivePlan() then 3 else Needed(n.spec.hold, SituationOf(n));
    RunWorks(n, moves, Cost(n, r));
    NoBudgetIsRest(Run(n, moves));
  }

  /** Twenty-four productive reconciles settle any reachable Running node without an active plan. */
  lemma TwentyFourSettle(n: Node, moves: seq<Move>)
    requires RunsFree(n) && !n.HasActivePlan() && QuietRun(n, moves) && ProductiveIn(n, moves) >= 24
    ensures AtRest(Run(n, moves))
  {
    NeededBounds(n.spec.hold, SituationOf(n));
    SettlesAfterEnoughWork(n, moves);
  }

  /** At rest, with its last plan cleared away and no update reported: it holds no roll slot. */
  predicate Cleared(n: Node) { AtRest(n) && n.status.plan == None && !n.status.updateInProgress }

  /** A settled node's next reconcile clears the plan that settled it and builds none. */
  lemma RestClears(n: Node, m: Move)
    requires AtRest(n) && Steady(n) && Quiet(n, m) && m.ReconcileMove?
    ensures Cleared(Apply(n, m))
  {
    hide AtRest, Steady, ReconcileNode;
    RestMove(n, m);
    RestIs(n);
    ReconcileSteady(n, m.inputs);
  }

  lemma RestIs(n: Node)
    requires AtRest(n)
    ensures n.status.phase == Running && !n.spec.paused && !n.HasActivePlan()
  {
  }

  lemma ClearedStays(n: Node, m: Move)
    requires Cleared(n) && Quiet(n, m) && !m.ReconcileMove?
    ensures Cleared(Apply(n, m))
  {
    RestMove(n, m);
  }

  /** One productive reconcile more and a settled node holds no roll slot. */
  lemma {:induction false} SettledHoldsNoSlot(n: Node, moves: seq<Move>)
    requires RunsFree(n) && Steady(n) && QuietRun(n, moves)
    requires ProductiveIn(n, moves) > PlanLeft(n) + 8 * if n.HasActivePlan() then 3 else Needed(n.spec.hold, SituationOf(n))
    ensures Cleared(Run(n, moves))
    decreases |moves|
  {
    hide Cleared, RunsFree, Steady, Quiet, AtRest;
    if moves != [] {
      var init, m := moves[..|moves| - 1], moves[|moves| - 1];
      EveryRunIsSteady(n, init);
      if m.ReconcileMove? {
        SettlesAfterEnoughWork(n, init);
        RestClears(Run(n, init), m);
      } else {
        SettledHoldsNoSlot(n, init);
        ClearedStays(Run(n, init), m);
      }
    }
  }
}
