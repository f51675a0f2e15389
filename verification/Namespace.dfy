/** A namespace of nodes that reconcile under one drift budget: the slot a
    reconcile is told about is the one DriftSlot computes from the listed statuses. */
module Namespace {
  import opened Options
  import opened Orders
  import opened NodeTypes
  import opened Executor
  import opened Builders
  import opened Reconcile
  import opened Resolution
  import opened DriftBudget

  datatype Member = Member(name: string, node: Node)

  /** What DriftSlot reads of a node (internal/planner/drift_budget.go). */
  function EntryOf(x: string, n: Node): Listed {
    Listed(x, n.status.phase == Running, n.spec.paused, n.status.updateInProgress, PodTemplateDrifted(n.spec, n.status, n.platform))
  }

  function ListOf(ns: seq<Member>): seq<Listed> {
    seq(|ns|, i requires 0 <= i < |ns| => EntryOf(ns[i].name, ns[i].node))
  }

  /** A move of one node, a node created, a node deleted. */
  datatype Act =
    | Acts(name: string, move: Move)
    | Joins(member: Member)
    | Parts(name: string)

  function PlaceIn(ns: seq<Member>, x: string): (i: nat)
    ensures i <= |ns| && (i < |ns| ==> ns[i].name == x)
  {
    Position(ListOf(ns), x)
  }

  function After(ns: seq<Member>, a: Act): seq<Member> {
    match a
    case Acts(x, m) =>
      var i := PlaceIn(ns, x);
      if i == |ns| then ns else ns[i := Member(x, Apply(ns[i].node, m))]
    case Joins(m) => if PlaceIn(ns, m.name) < |ns| then ns else ns + [m]
    case Parts(x) =>
      var i := PlaceIn(ns, x);
      if i == |ns| then ns else Without(ns, i)
  }

  /** A reconcile is told whether its node has a slot in the namespace as listed. */
  predicate Told(ns: seq<Member>, percent: nat, a: Act) {
    match a
    case Acts(x, ReconcileMove(inp)) => inp.planSlotFree == inp.renderSlotFree == Admits(ListOf(ns), percent, x)
    case Joins(m) => m.node.status.phase != Running
    case _ => true
  }

  // ---- when a reconcile starts an update ----

  /** Only a Running node starts an update, and with template drift only by a plan the slot gates. */
  lemma StartsAreGated(n: Node, id: nat)
    requires BuildPlan(n, id).Built? && BuildPlan(n, id).startsUpdate
    ensures n.status.phase == Running
    ensures if PodTemplateDrifted(n.spec, n.status, n.platform) then IsNodeUpdatePlan(BuildPlan(n, id).plan) else !n.spec.nodeConfig
  {
    hide BuildPlan, IsNodeUpdatePlan, PodTemplateDrifted, ConfigValuesDrifted;
    StartsIff(n, id);
    GatedIff(n, id);
  }

  /** The budget reads the same of two nodes that differ only in plan, counter and readiness. */
  lemma ReadsTheSame(x: string, n: Node, m: Node)
    requires m.spec == n.spec && m.platform == n.platform
    requires m.status == n.status.(plan := m.status.plan, dataResetGeneration := m.status.dataResetGeneration,
                                   sidecarReady := m.status.sidecarReady, updateInProgress := m.status.updateInProgress)
    ensures EntryOf(x, m) == EntryOf(x, n).(updating := m.status.updateInProgress)
    ensures PodTemplateDrifted(m.spec, m.status, m.platform) == PodTemplateDrifted(n.spec, n.status, n.platform)
  {
  }

  lemma PlanNextStarts(n: Node, inp: Inputs)
    requires !n.status.updateInProgress && PlanNext(n, inp).status.updateInProgress
    ensures n.status.phase == Running && PlanNext(n, inp).spec == n.spec && PlanNext(n, inp).platform == n.platform
    ensures var m := PlanNext(n, inp); m.status == n.status.(plan := m.status.plan, updateInProgress := true)
    ensures if PodTemplateDrifted(n.spec, n.status, n.platform) then inp.planSlotFree else !n.spec.nodeConfig
  {
    hide BuildPlan, IsNodeUpdatePlan, MountedConfigWriter, PodTemplateDrifted;
    StartsAreGated(n, n.history.plansBuilt);
  }

  /** A reconcile that starts an update changes nothing else the budget reads; with
      template drift it had a slot, and without it the node is controller-configured. */
  lemma ReconcileStarts(x: string, n: Node, inp: Inputs)
    requires !n.status.updateInProgress && ReconcileNode(n, inp).status.updateInProgress
    ensures n.status.phase == Running && !n.spec.paused && EntryOf(x, ReconcileNode(n, inp)) == EntryOf(x, n).(updating := true)
    ensures if PodTemplateDrifted(n.spec, n.status, n.platform) then inp.planSlotFree else !n.spec.nodeConfig
  {
    hide PlanNext, EntryOf, PodTemplateDrifted, ExecuteFrom, DriftRender;
    var b := Render(ResolveDataReset(n), inp);
    if b.HasActivePlan() {
      ExecuteKeepsFlag(Probed(b, inp), b.status.plan.value, inp.oracle);
      assert false;
    } else {
      var c := HandleTerminalPlan(Probed(b, inp));
      PlanNextStarts(c, inp);
      ReadsTheSame(x, n, c);
      ReadsTheSame(x, n, ReconcileNode(n, inp));
    }
  }

  /** Only a reconcile starts an update. */
  lemma OthersStartNothing(n: Node, m: Move)
    requires !m.ReconcileMove?
    ensures Apply(n, m).status.updateInProgress == n.status.updateInProgress
  {
  }

  // ---- one act ----

  predicate UniqueMembers(ns: seq<Member>) { UniqueNames(ListOf(ns)) }

  predicate Held(ns: seq<Member>, percent: nat) { Within(ListOf(ns), percent) }

  /** A node's entry before and after an act of its own. */
  function EntryAfter(ns: seq<Member>, a: Act): Listed
    requires a.Acts? && PlaceIn(ns, a.name) < |ns|
  {
    EntryOf(a.name, Apply(ns[PlaceIn(ns, a.name)].node, a.move))
  }

  /** A config update starts: a node that keeps counting turns updating without template drift. */
  predicate StartsConfig(e: Listed, f: Listed) { Counted(e) && Counted(f) && !e.updating && f.updating && !e.drifted }

  /** Enough slots for those rolling once entry e has become f. */
  predicate Enough(list: seq<Listed>, percent: nat, e: Listed, f: Listed)
    requires |CountedNames(list)| >= One(Counted(e))
  {
    |RollingNames(list)| - One(Rolling(e)) + One(Rolling(f)) <= SlotsFor(|CountedNames(list)| - One(Counted(e)) + One(Counted(f)), percent)
  }

  lemma CountsCover(list: seq<Listed>, i: nat)
    requires UniqueNames(list) && i < |list|
    ensures |CountedNames(list)| >= One(Counted(list[i])) && |RollingNames(list)| >= One(Rolling(list[i]))
  {
    FlagsOf(list, i);
  }

  /** What an act needs: a config start an unused slot, a node that starts or stops
      counting enough slots for those then rolling. The others need nothing. */
  ghost predicate HasRoom(ns: seq<Member>, percent: nat, a: Act)
    requires UniqueMembers(ns)
  {
    var list := ListOf(ns);
    match a
    case Joins(_) => true
    case Parts(x) => Room(list, percent, Leave(x))
    case Acts(x, _) =>
      var i := PlaceIn(ns, x);
      i == |ns| ||
      var e, f := list[i], EntryAfter(ns, a);
      CountsCover(list, i);
      if Counted(e) != Counted(f) then Enough(list, percent, e, f)
      else StartsConfig(e, f) ==> |RollingNames(list)| < Slots(list, percent)
  }

  lemma PutFits(list: seq<Listed>, percent: nat, i: nat, f: Listed)
    requires UniqueNames(list) && i < |list| && f.name == list[i].name
    ensures UniqueNames(list[i := f])
    ensures |CountedNames(list)| >= One(Counted(list[i]))
    ensures Within(list[i := f], percent) <==> Enough(list, percent, list[i], f)
  {
    hide SlotsFor, CountedNames, RollingNames, UniqueNames;
    FlagsOf(list, i);
    SetsAfterPut(list, i, f);
    WithCount(CountedNames(list), f.name, Counted(f));
    WithCount(RollingNames(list), f.name, Rolling(f));
  }

  /** A start with template drift was granted, so it fits. */
  lemma GatedStartFits(list: seq<Listed>, percent: nat, i: nat)
    requires UniqueNames(list) && i < |list| && Counted(list[i]) && !list[i].updating && Within(list, percent)
    requires Position(list, list[i].name) == i && Admits(list, percent, list[i].name)
    ensures Within(list[i := list[i].(updating := true)], percent)
  {
    FlagsOf(list, i);
    GrantedStartFits(list, percent, list[i].name);
  }

  /** A node's own act. */
  lemma OwnActFitsIff(ns: seq<Member>, percent: nat, a: Act)
    requires UniqueMembers(ns) && Held(ns, percent) && Told(ns, percent, a) && a.Acts? && PlaceIn(ns, a.name) < |ns|
    ensures var list := ListOf(ns)[PlaceIn(ns, a.name) := EntryAfter(ns, a)];
            UniqueNames(list) && (Within(list, percent) <==> HasRoom(ns, percent, a))
  {
    hide SlotsFor, CountedNames, RollingNames, UniqueNames, Admits, Position, PodTemplateDrifted, Apply;
    var list, i := ListOf(ns), PlaceIn(ns, a.name);
    var e, f := list[i], EntryAfter(ns, a);
    PutFits(list, percent, i, f);
    if Counted(e) && Counted(f) && !e.updating && f.updating {
      if !a.move.ReconcileMove? {
        OthersStartNothing(ns[i].node, a.move);
        assert false;
      }
      StartOf(ns[i].node, a);
      if e.drifted { GatedStartFits(list, percent, i); }
    }
  }

  lemma StartOf(n: Node, a: Act)
    requires a.Acts? && a.move.ReconcileMove? && !n.status.updateInProgress && Apply(n, a.move).status.updateInProgress
    ensures EntryOf(a.name, Apply(n, a.move)) == EntryOf(a.name, n).(updating := true)
    ensures if PodTemplateDrifted(n.spec, n.status, n.platform) then a.move.inputs.planSlotFree else !n.spec.nodeConfig
  {
    hide ReconcileNode;
    ReconcileStarts(a.name, n, a.move.inputs);
  }

  lemma ListAfter(ns: seq<Member>, a: Act)
    ensures ListOf(After(ns, a)) ==
            match a
            case Acts(x, _) => if PlaceIn(ns, x) == |ns| then ListOf(ns) else ListOf(ns)[PlaceIn(ns, x) := EntryAfter(ns, a)]
            case Joins(m) => if PlaceIn(ns, m.name) < |ns| then ListOf(ns) else ListOf(ns) + [EntryOf(m.name, m.node)]
            case Parts(x) => if PlaceIn(ns, x) == |ns| then ListOf(ns) else Without(ListOf(ns), PlaceIn(ns, x))
  {
    hide Position, Apply, EntryOf;
  }

  /** From within the slots, an act stays within exactly when it has room. */
  lemma ActFitsIff(ns: seq<Member>, percent: nat, a: Act)
    requires percent > 0 && UniqueMembers(ns) && Held(ns, percent) && Told(ns, percent, a)
    ensures UniqueMembers(After(ns, a)) && (Held(After(ns, a), percent) <==> HasRoom(ns, percent, a))
  {
    hide SlotsFor, CountedNames, RollingNames, UniqueNames, Admits, Position, PodTemplateDrifted, Apply;
    ListAfter(ns, a);
    match a
    case Acts(x, m) =>
      if PlaceIn(ns, x) < |ns| { OwnActFitsIff(ns, percent, a); }
    case Joins(m) =>
      if PlaceIn(ns, m.name) == |ns| { SetsAfterEntry(ListOf(ns), EntryOf(m.name, m.node)); }
    case Parts(x) =>
      LeaveIs(ListOf(ns), x);
      SetsAfter(ListOf(ns), Leave(x));
      MoveFitsIff(ListOf(ns), percent, Leave(x));
  }

  lemma LeaveIs(list: seq<Listed>, x: string)
    ensures Changed(list, Leave(x)) == if Position(list, x) == |list| then list else Without(list, Position(list, x))
  {
  }

  // ---- every run of a namespace of nodes ----

  function AfterActs(ns: seq<Member>, acts: seq<Act>): seq<Member> {
    if acts == [] then ns else After(AfterActs(ns, acts[..|acts| - 1]), acts[|acts| - 1])
  }

  predicate AllTold(ns: seq<Member>, percent: nat, acts: seq<Act>) {
    acts == [] ||
    (AllTold(ns, percent, acts[..|acts| - 1]) && Told(AfterActs(ns, acts[..|acts| - 1]), percent, acts[|acts| - 1]))
  }

  predicate AlwaysHeld(ns: seq<Member>, percent: nat, acts: seq<Act>) {
    Held(AfterActs(ns, acts), percent) && (acts == [] || AlwaysHeld(ns, percent, acts[..|acts| - 1]))
  }

  ghost predicate AlwaysRoom(ns: seq<Member>, percent: nat, acts: seq<Act>) {
    acts == [] ||
    (AlwaysRoom(ns, percent, acts[..|acts| - 1])
     && var last := AfterActs(ns, acts[..|acts| - 1]);
        UniqueMembers(last) && HasRoom(last, percent, acts[|acts| - 1]))
  }

  lemma {:induction false} ActsKeepNamesUnique(ns: seq<Member>, acts: seq<Act>)
    requires UniqueMembers(ns)
    ensures UniqueMembers(AfterActs(ns, acts))
    decreases |acts|
  {
    if acts != [] {
      ActsKeepNamesUnique(ns, acts[..|acts| - 1]);
      UniqueAfter(AfterActs(ns, acts[..|acts| - 1]), acts[|acts| - 1]);
    }
  }

  lemma UniqueAfter(ns: seq<Member>, a: Act)
    requires UniqueMembers(ns)
    ensures UniqueMembers(After(ns, a))
  {
    hide Position, Apply, PodTemplateDrifted;
    ListAfter(ns, a);
    var list, t := ListOf(ns), ListOf(After(ns, a));
    if a.Joins? && PlaceIn(ns, a.member.name) == |ns| {
      assert forall k :: 0 <= k < |list| ==> list[k] in list && list[k].name in NamesOf(list);
    }
  }

  /** In every run of a namespace of nodes, each reconcile told about its slot as
      DriftSlot computes it: no more nodes ever roll than there are slots if and
      only if every config start and every change of the counted nodes has room. */
  lemma {:induction false} NamespaceHoldsIff(ns: seq<Member>, percent: nat, acts: seq<Act>)
    requires percent > 0 && UniqueMembers(ns) && Held(ns, percent) && AllTold(ns, percent, acts)
    ensures AlwaysHeld(ns, percent, acts) <==> AlwaysRoom(ns, percent, acts)
    decreases |acts|
  {
    if acts != [] {
      hide After, Told, Held, HasRoom;
      var init := acts[..|acts| - 1];
      NamespaceHoldsIff(ns, percent, init);
      ActsKeepNamesUnique(ns, init);
      if AlwaysHeld(ns, percent, init) { ActFitsIff(AfterActs(ns, init), percent, acts[|acts| - 1]); }
    }
  }

  /** No act changes who counts, and every acting node mounts its config. */
  predicate Mounted(ns: seq<Member>, a: Act) {
    && a.Acts?
    && var i := PlaceIn(ns, a.name);
       i < |ns| ==> ns[i].node.spec.nodeConfig && Counted(EntryOf(a.name, ns[i].node)) == Counted(EntryAfter(ns, a))
  }

  predicate AllMounted(ns: seq<Member>, acts: seq<Act>) {
    acts == [] || (AllMounted(ns, acts[..|acts| - 1]) && Mounted(AfterActs(ns, acts[..|acts| - 1]), acts[|acts| - 1]))
  }

  lemma MountedHasRoom(ns: seq<Member>, percent: nat, a: Act)
    requires UniqueMembers(ns) && Told(ns, percent, a) && Mounted(ns, a)
    ensures HasRoom(ns, percent, a)
  {
    hide SlotsFor, CountedNames, RollingNames, UniqueNames, Admits, Position, PodTemplateDrifted, Apply;
    var i := PlaceIn(ns, a.name);
    if i < |ns| && StartsConfig(ListOf(ns)[i], EntryAfter(ns, a)) {
      if a.move.ReconcileMove? { StartOf(ns[i].node, a); } else { OthersStartNothing(ns[i].node, a.move); }
      assert false;
    }
  }

  /** While the counted nodes stay and all mount their config, the slots are never overfilled. */
  lemma {:induction false} MountedNamespaceHolds(ns: seq<Member>, percent: nat, acts: seq<Act>)
    requires percent > 0 && UniqueMembers(ns) && Held(ns, percent) && AllTold(ns, percent, acts) && AllMounted(ns, acts)
    ensures AlwaysHeld(ns, percent, acts)
    decreases |acts|
  {
    if acts != [] {
      hide After, Told, Held, HasRoom, Mounted;
      var init := acts[..|acts| - 1];
      MountedNamespaceHolds(ns, percent, init);
      ActsKeepNamesUnique(ns, init);
      MountedHasRoom(AfterActs(ns, init), percent, acts[|acts| - 1]);
      ActFitsIff(AfterActs(ns, init), percent, acts[|acts| - 1]);
    }
  }
}
