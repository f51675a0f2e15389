/** What holds of the plan in a node's status in every run, whatever its specs:
    no admission rule is assumed here. */
module PersistedPlans {
  import opened Options
  import opened NodeTypes
  import opened Executor
  import opened Builders
  import opened StaticPlans
  import opened Reconcile
  import opened Safety

  predicate PlanOk(n: Node) { n.status.plan.Some? ==> PlanInvariant(n.status.plan.value) }

  /** A node that mounts its config holds no plan that writes it. */
  predicate NoWriterStored(n: Node) { n.status.plan.Some? ==> !MountedConfigWriter(n.spec, n.status.plan.value) }

  lemma {:induction false} ExecuteKeepsTypes(n: Node, p: TaskPlan, o: Oracle)
    ensures Types(ExecuteFrom(n, p, o).1.tasks) == Types(p.tasks)
    decreases |p.tasks| - FirstIncomplete(p.tasks)
  {
    hide Judge, StepWorld;
    var k := FirstIncomplete(p.tasks);
    if k < |p.tasks| {
      var v := Judge(n, p.tasks[k], o(k));
      StepPlanKeeps(p, k, v);
      var (m, q) := Advance(n, p, k, o(k));
      assert Types(q.tasks) == Types(p.tasks);
      if q.tasks[k].status == TaskComplete {
        FrontierMoves(p, v);
        ExecuteKeepsTypes(m, q, o);
      }
    }
  }

  /** Execution leaves a plan in place, with its types and its invariant, on the same spec. */
  lemma ExecuteKeepsPlan(n: Node, o: Oracle)
    ensures ExecutePlan(n, o).spec == n.spec
    ensures PlanOk(n) ==> PlanOk(ExecutePlan(n, o))
    ensures NoWriterStored(n) ==> NoWriterStored(ExecutePlan(n, o))
  {
    hide PlanInvariant, ExecuteFrom;
    if n.HasActivePlan() {
      var p := n.status.plan.value;
      ExecuteFrame(n, p, o);
      ExecuteKeepsTypes(n, p, o);
      if PlanOk(n) { ExecutePlanInvariant(n, o); }
      SameTypesSameWriter(n.spec, p, ExecuteFrom(n, p, o).1);
    }
  }

  lemma SameTypesSameWriter(s: Spec, p: TaskPlan, q: TaskPlan)
    requires Types(p.tasks) == Types(q.tasks)
    ensures MountedConfigWriter(s, p) <==> MountedConfigWriter(s, q)
  {
    assert |p.tasks| == |q.tasks|;
    assert forall i :: 0 <= i < |p.tasks| ==> Types(p.tasks)[i] == p.tasks[i].taskType == q.tasks[i].taskType;
  }

  /** What ResolvePlan stores: nothing, or a fresh plan it did not have to refuse. */
  lemma PlanNextStores(n: Node, inp: Inputs)
    requires n.status.plan == None
    ensures PlanNext(n, inp).spec == n.spec && PlanOk(PlanNext(n, inp)) && NoWriterStored(PlanNext(n, inp))
  {
    hide BuildPlan, PlanInvariant, IsNodeUpdatePlan;
    if BuildPlan(n, n.history.plansBuilt).Built? { EveryBuiltPlanIsFresh(n, n.history.plansBuilt); }
  }

  lemma ReconcileStores(n: Node, inp: Inputs)
    ensures ReconcileNode(n, inp).spec == n.spec
    ensures PlanOk(n) ==> PlanOk(ReconcileNode(n, inp))
    ensures NoWriterStored(n) ==> NoWriterStored(ReconcileNode(n, inp))
  {
    hide PlanNext, ExecutePlan, PlanInvariant, MountedConfigWriter;
    var b := Render(ResolveDataReset(n), inp);
    var m := Probed(b, inp);
    assert m.status.plan == n.status.plan && m.spec == n.spec;
    if m.HasActivePlan() {
      ExecuteKeepsPlan(m, inp.oracle);
    } else {
      PlanNextStores(HandleTerminalPlan(m), inp);
    }
  }

  /** In every run over every spec, for every builder and every outcome, the
      stored plan is a Complete prefix, one current task and an untouched suffix,
      and its phase and failure record agree with that. */
  lemma {:induction false} StoredPlansKeepTheInvariant(n: Node, moves: seq<Move>)
    requires PlanOk(n)
    ensures PlanOk(Run(n, moves))
    decreases |moves|
  {
    hide ReconcileNode, PlanInvariant;
    if moves != [] {
      StoredPlansKeepTheInvariant(n, moves[..|moves| - 1]);
      var m := moves[|moves| - 1];
      if m.ReconcileMove? { ReconcileStores(Run(n, moves[..|moves| - 1]), m.inputs); }
    }
  }

  /** Edits that leave the node on the side of the config it is on. */
  predicate SameSide(n: Node, moves: seq<Move>) {
    forall i :: 0 <= i < |moves| && moves[i].EditSpec? ==> moves[i].spec.nodeConfig == n.spec.nodeConfig
  }

  /** In every run of a node that mounts its config, whatever its specs, no
      stored plan writes config.toml or app.toml. */
  lemma {:induction false} StoredPlansWriteNoMountedConfig(n: Node, moves: seq<Move>)
    requires n.spec.nodeConfig && SameSide(n, moves) && NoWriterStored(n)
    ensures Run(n, moves).spec.nodeConfig && NoWriterStored(Run(n, moves))
    ensures var m := Run(n, moves);
            m.status.plan.Some? ==> forall i :: 0 <= i < |m.status.plan.value.tasks| ==>
              m.status.plan.value.tasks[i].taskType !in {ConfigApply, ConfigPatch, ConfigureStateSync, SetGenesisPeers, GenerateIdentity}
    decreases |moves|
  {
    hide ReconcileNode;
    if moves != [] {
      StoredPlansWriteNoMountedConfig(n, moves[..|moves| - 1]);
      var m := moves[|moves| - 1];
      if m.ReconcileMove? { ReconcileStores(Run(n, moves[..|moves| - 1]), m.inputs); }
    }
  }
}
