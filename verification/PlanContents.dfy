/** Which tasks every plan carries, in which order and with which retry budget,
    read from the node's own fields. Reset and hold plans are listed step by step
    in StaticPlans. */
module PlanContents {
  import opened Options
  import opened NodeTypes
  import opened Executor
  import opened Builders
  import opened PlanProperties
  import opened StaticPlans

  // ---- order ----

  /** The one order all plans keep. A mark-ready and the hold recorded in its place stand alike. */
  function Rank(t: TaskType): nat {
    match t
    case EnsureDataPVC => 0
    case ValidateSigningKey => 1
    case ValidateNodeKey => 2
    case ValidateOperatorKeyring => 3
    case ApplyRBACProxyConfig => 4
    case ApplyStatefulSet => 5
    case ApplyService => 6
    case SnapshotRestore => 7
    case GenerateIdentity => 8
    case GenerateGentx => 9
    case UploadGenesisArtifacts => 10
    case ConfigureGenesis => 11
    case ConfigApply => 12
    case ConfigureStateSync => 13
    case SetGenesisPeers => 14
    case ConfigPatch => 15
    case ConfigValidate => 16
    case ReplacePod => 17
    case ObserveImage => 18
    case MarkReady => 19
    case RecordMaintenanceHold => 19
    case RestartSeid => 20
    case _ => 21
  }

  /** Ranks rise; only config-patch may stand twice, the controller's before the overlay. */
  predicate Ordered(prog: seq<TaskType>) {
    forall i, j :: 0 <= i < j < |prog| ==> Rank(prog[i]) < Rank(prog[j]) || (prog[i] == ConfigPatch && prog[j] == ConfigPatch)
  }

  // ---- contents ----

  predicate Ceremony(s: Spec) { s.mode == Validator && s.genesisCeremony }

  /** The snapshot source counts only in modes that restore one. */
  predicate Restores(s: Spec) { s.mode !in {Archive, Seed} && s.snapshot != NoSnapshot }

  predicate KeyGate(s: Spec, t: TaskType) {
    || (t == ValidateSigningKey && s.mode == Validator && s.signingKey)
    || (t == ValidateNodeKey && s.mode in {Validator, Seed} && s.nodeKey)
    || (t == ValidateOperatorKeyring && s.mode == Validator && s.operatorKeyring)
  }

  /** What an init plan carries, its ending and overlay aside. */
  predicate InitCarries(s: Spec, t: TaskType) {
    match t
    case EnsureDataPVC => true
    case ApplyRBACProxyConfig => true
    case ApplyStatefulSet => true
    case ApplyService => true
    case ConfigureGenesis => true
    case ValidateSigningKey => !Ceremony(s) && KeyGate(s, t)
    case ValidateNodeKey => !Ceremony(s) && KeyGate(s, t)
    case ValidateOperatorKeyring => !Ceremony(s) && KeyGate(s, t)
    case SnapshotRestore => !Ceremony(s) && Restores(s) && s.snapshot == S3Snapshot
    case ConfigureStateSync => !Ceremony(s) && Restores(s) && !s.nodeConfig
    case ConfigApply => Ceremony(s) || !s.nodeConfig
    case ConfigValidate => Ceremony(s) || !s.nodeConfig
    case GenerateIdentity => Ceremony(s)
    case GenerateGentx => Ceremony(s)
    case UploadGenesisArtifacts => Ceremony(s)
    case SetGenesisPeers => Ceremony(s)
    case _ => false
  }

  /** The observed config is missing or not the one asked for. */
  predicate BaselineStale(n: Node) {
    n.status.currentConfigHash == "" || n.spec.configHash != Some(n.status.currentConfigHash)
  }

  /** What a template roll carries: on a mounted config the StatefulSet rolls the pod by itself. */
  predicate RollCarries(n: Node, t: TaskType) {
    || KeyGate(n.spec, t)
    || t in {ApplyStatefulSet, ApplyService, ObserveImage}
    || (t == MarkReady && (!n.spec.nodeConfig || n.spec.hold == NoHold))
    || (!n.spec.nodeConfig && (t in {ConfigPatch, ConfigValidate, ReplacePod} || (t == ConfigApply && BaselineStale(n))))
  }

  /** What the plan built now carries, apart from reset and hold plans. */
  predicate Carries(n: Node, t: TaskType) {
    if n.status.phase != Running then
      || InitCarries(n.spec, t)
      || (t == ConfigPatch && n.spec.overlay == ValidOverlay)
      || t == if n.spec.nodeConfig && n.spec.hold != NoHold then RecordMaintenanceHold else MarkReady
    else if PodTemplateDrifted(n.spec, n.status, n.platform) then RollCarries(n, t)
    else if !n.spec.nodeConfig && n.status.currentConfigHash != "" && BaselineStale(n) then
      t in {ConfigApply, ConfigPatch, ConfigValidate, MarkReady, RestartSeid}
    else t == MarkReady
  }

  predicate Contents(prog: seq<TaskType>, n: Node) { Ordered(prog) && forall t :: t in prog <==> Carries(n, t) }

  // ---- progressions ----

  lemma Gates(s: Spec)
    ensures forall t :: t in KeyGates(s) <==> KeyGate(s, t)
    ensures Ordered(KeyGates(s)) && forall t :: t in KeyGates(s) ==> 1 <= Rank(t) <= 3
  {
  }

  lemma OrderedJoin(a: seq<TaskType>, b: seq<TaskType>)
    requires Ordered(a) && Ordered(b) && forall x, y :: x in a && y in b ==> Rank(x) < Rank(y)
    ensures Ordered(a + b) && forall t :: t in a + b <==> t in a || t in b
  {
    var c := a + b;
    forall i, j | 0 <= i < j < |c| ensures Rank(c[i]) < Rank(c[j]) || (c[i] == ConfigPatch && c[j] == ConfigPatch) {
      if i < |a| <= j { assert c[i] in a && c[j] in b; }
    }
  }

  lemma ApplyRanks()
    ensures var apply := [ApplyRBACProxyConfig, ApplyStatefulSet, ApplyService];
            && Ordered(apply) && (forall t :: t in apply ==> 4 <= Rank(t) <= 6)
            && forall t :: t in apply <==> t in {ApplyRBACProxyConfig, ApplyStatefulSet, ApplyService}
    ensures Ordered([EnsureDataPVC]) && Rank(EnsureDataPVC) == 0 && forall t :: t in [EnsureDataPVC] <==> t == EnsureDataPVC
  {
  }

  /** All of a rank below m, all of b from m on. */
  lemma OrderedAt(a: seq<TaskType>, b: seq<TaskType>, m: nat)
    requires Ordered(a) && Ordered(b) && (forall x :: x in a ==> Rank(x) < m) && forall y :: y in b ==> Rank(y) >= m
    ensures Ordered(a + b)
  {
    hide Rank;
    OrderedJoin(a, b);
  }

  lemma BaseContents(s: Spec, sidecar: seq<TaskType>)
    requires Ordered(sidecar) && forall t :: t in sidecar ==> Rank(t) > 6
    ensures var prog := BaseProg(s, sidecar);
            Ordered(prog) && forall t :: t in prog <==> t in sidecar || KeyGate(s, t) || t in {EnsureDataPVC, ApplyRBACProxyConfig, ApplyStatefulSet, ApplyService}
  {
    hide KeyGates, KeyGate, Rank, Ordered;
    Gates(s);
    ApplyRanks();
    var pvc, apply := [EnsureDataPVC], [ApplyRBACProxyConfig, ApplyStatefulSet, ApplyService];
    OrderedJoin(pvc, KeyGates(s));
    OrderedJoin(pvc + KeyGates(s), apply);
    OrderedJoin(pvc + KeyGates(s) + apply, sidecar);
  }

  /** The init progression before the overlay and the hold are looked at. */
  function InitProgression(s: Spec): seq<TaskType> {
    if Ceremony(s) then GENESIS_PROG
    else BaseProg(s, if s.nodeConfig then StrippedProg(SnapshotSource(s)) else SidecarProg(SnapshotSource(s)))
  }

  lemma SnapshotProgs(snap: Snapshot)
    ensures var sidecar := SidecarProg(snap);
            && Ordered(sidecar) && (forall t :: t in sidecar ==> Rank(t) > 6)
            && forall t :: t in sidecar <==>
                 || t in {ConfigureGenesis, ConfigApply, ConfigValidate, MarkReady}
                 || (t == SnapshotRestore && snap == S3Snapshot) || (t == ConfigureStateSync && snap != NoSnapshot)
  {
    SnapshotOrder(snap);
    forall t ensures t in SidecarProg(snap) <==>
                 || t in {ConfigureGenesis, ConfigApply, ConfigValidate, MarkReady}
                 || (t == SnapshotRestore && snap == S3Snapshot) || (t == ConfigureStateSync && snap != NoSnapshot)
    {
      SnapshotMember(snap, t);
    }
    hide SidecarProg;
  }

  lemma SnapshotMember(snap: Snapshot, t: TaskType)
    ensures t in SidecarProg(snap) <==>
            || t in {ConfigureGenesis, ConfigApply, ConfigValidate, MarkReady}
            || (t == SnapshotRestore && snap == S3Snapshot) || (t == ConfigureStateSync && snap != NoSnapshot)
  {
  }

  lemma SnapshotOrder(snap: Snapshot)
    ensures Ordered(SidecarProg(snap))
  {
    var tail := [ConfigApply, ConfigureStateSync, ConfigValidate, MarkReady];
    Ranks();
    hide Rank, Ordered;
    FourOf(ConfigApply, ConfigureStateSync, ConfigValidate, MarkReady);
    FourOf(ConfigureGenesis, ConfigApply, ConfigValidate, MarkReady);
    TwoOf(SnapshotRestore, ConfigureGenesis);
    match snap
    case NoSnapshot =>
    case S3Snapshot =>
      OrderedAt([SnapshotRestore, ConfigureGenesis], tail, 12);
      assert SidecarProg(snap) == [SnapshotRestore, ConfigureGenesis] + tail;
    case _ =>
      OneIsOrdered(ConfigureGenesis);
      OrderedAt([ConfigureGenesis], tail, 12);
      assert SidecarProg(snap) == [ConfigureGenesis] + tail;
  }

  lemma Ranks()
    ensures Rank(EnsureDataPVC) == 0 && Rank(ApplyRBACProxyConfig) == 4 && Rank(ApplyStatefulSet) == 5 && Rank(ApplyService) == 6
    ensures Rank(SnapshotRestore) == 7 && Rank(GenerateIdentity) == 8 && Rank(GenerateGentx) == 9 && Rank(UploadGenesisArtifacts) == 10
    ensures Rank(ConfigureGenesis) == 11 && Rank(ConfigApply) == 12 && Rank(ConfigureStateSync) == 13 && Rank(SetGenesisPeers) == 14
    ensures Rank(ConfigValidate) == 16 && Rank(MarkReady) == 19
  {
  }

  lemma OneIsOrdered(t: TaskType)
    ensures Ordered([t]) && forall x :: x in [t] ==> x == t
  {
  }

  lemma TwoOf(a: TaskType, b: TaskType)
    requires Rank(a) < Rank(b)
    ensures Ordered([a, b]) && forall t :: t in [a, b] ==> Rank(a) <= Rank(t) <= Rank(b)
  {
    hide Rank;
  }

  lemma FourOf(a: TaskType, b: TaskType, c: TaskType, d: TaskType)
    requires Rank(a) < Rank(b) < Rank(c) < Rank(d)
    ensures Ordered([a, b, c, d]) && forall t :: t in [a, b, c, d] ==> Rank(a) <= Rank(t) <= Rank(d)
  {
    hide Rank;
  }

  lemma StrippedContents(snap: Snapshot)
    ensures var sidecar := StrippedProg(snap);
            && Ordered(sidecar) && (forall t :: t in sidecar ==> Rank(t) > 6)
            && forall t :: t in sidecar <==> t in {ConfigureGenesis, MarkReady} || (t == SnapshotRestore && snap == S3Snapshot)
  {
  }

  lemma GenesisMember(s: Spec, t: TaskType)
    requires Ceremony(s)
    ensures t in GENESIS_PROG <==> InitCarries(s, t) || t == MarkReady
  {
  }

  lemma GenesisOrder()
    ensures Ordered(GENESIS_PROG)
  {
    var a, b, c := [EnsureDataPVC, ApplyRBACProxyConfig, ApplyStatefulSet, ApplyService],
                   [GenerateIdentity, GenerateGentx, UploadGenesisArtifacts, ConfigureGenesis],
                   [ConfigApply, SetGenesisPeers, ConfigValidate, MarkReady];
    Ranks();
    hide Rank, Ordered;
    FourOf(EnsureDataPVC, ApplyRBACProxyConfig, ApplyStatefulSet, ApplyService);
    FourOf(GenerateIdentity, GenerateGentx, UploadGenesisArtifacts, ConfigureGenesis);
    FourOf(ConfigApply, SetGenesisPeers, ConfigValidate, MarkReady);
    OrderedAt(a, b, 8);
    assert forall t :: t in a + b ==> t in a || t in b;
    OrderedAt(a + b, c, 12);
    assert GENESIS_PROG == a + b + c;
  }

  lemma GenesisContents(s: Spec)
    requires Ceremony(s)
    ensures Ordered(GENESIS_PROG) && forall t :: t in GENESIS_PROG <==> InitCarries(s, t) || t == MarkReady
  {
    GenesisOrder();
    forall t ensures t in GENESIS_PROG <==> InitCarries(s, t) || t == MarkReady { GenesisMember(s, t); }
  }

  lemma InitContents(s: Spec)
    ensures var prog := InitProgression(s);
            Ordered(prog) && forall t :: t in prog <==> InitCarries(s, t) || t == MarkReady
  {
    if Ceremony(s) {
      GenesisContents(s);
    } else {
      hide Ordered, SidecarProg, StrippedProg, BaseProg, Rank;
      SnapshotProgs(SnapshotSource(s));
      StrippedContents(SnapshotSource(s));
      BaseContents(s, if s.nodeConfig then StrippedProg(SnapshotSource(s)) else SidecarProg(SnapshotSource(s)));
    }
  }

  lemma RollTail(regenerate: bool)
    ensures var tail := UpdateTail(regenerate);
            && Ordered(tail) && (forall t :: t in tail ==> Rank(t) > 3)
            && forall t :: t in tail <==>
                 t in {ApplyStatefulSet, ApplyService, ConfigPatch, ConfigValidate, ReplacePod, ObserveImage, MarkReady} || (t == ConfigApply && regenerate)
  {
  }

  lemma RollContents(n: Node)
    requires !n.spec.nodeConfig
    ensures var prog := KeyGates(n.spec) + UpdateTail(Regenerates(n));
            Ordered(prog) && forall t :: t in prog <==> RollCarries(n, t)
  {
    hide KeyGates, UpdateTail, Ordered, Rank, KeyGate;
    Gates(n.spec);
    RollTail(Regenerates(n));
    OrderedJoin(KeyGates(n.spec), UpdateTail(Regenerates(n)));
  }

  lemma ConfigUpdateContents(prog: seq<TaskType>)
    requires prog == [ConfigApply, ConfigPatch, ConfigValidate, MarkReady, RestartSeid]
    ensures Ordered(prog) && forall t :: t in prog <==> t in {ConfigApply, ConfigPatch, ConfigValidate, MarkReady, RestartSeid}
  {
  }

  /** A controller-configured node's update and config-update progressions. */
  lemma UpdateContents(n: Node)
    requires !n.spec.nodeConfig && n.status.phase == Running
    requires PodTemplateDrifted(n.spec, n.status, n.platform) || ConfigValuesDrifted(n)
    ensures Contents(FullUpdateProg(n), n)
  {
    hide KeyGates, UpdateTail, Ordered, PodTemplateDrifted, RollCarries;
    RollContents(n);
    ConfigUpdateContents([ConfigApply] + CONFIG_UPDATE_PROG);
  }

  /** A mounted node's update. */
  lemma StaticUpdateContents(n: Node, id: nat)
    requires n.spec.nodeConfig && n.status.phase == Running && PodTemplateDrifted(n.spec, n.status, n.platform)
    ensures Contents(Types(UpdatePlanFor(n, id).tasks), n)
  {
    hide KeyGates, Ordered, PodTemplateDrifted, UpdatePlanFor;
    UpdatePlanIs(n, id);
    var tail := [ApplyStatefulSet, ApplyService, ObserveImage] + if n.spec.hold == NoHold then [MarkReady] else [];
    StaticTail(tail, n.spec.hold == NoHold);
    Gates(n.spec);
    OrderedJoin(KeyGates(n.spec), tail);
    StepTypes(UpdatePlanFor(n, id).tasks, KeyGates(n.spec), n.spec.hold == NoHold);
    assert Types(UpdatePlanFor(n, id).tasks) == KeyGates(n.spec) + tail;
  }

  lemma StaticTail(tail: seq<TaskType>, ready: bool)
    requires tail == [ApplyStatefulSet, ApplyService, ObserveImage] + if ready then [MarkReady] else []
    ensures Ordered(tail) && forall t :: t in tail <==> t in {ApplyStatefulSet, ApplyService, ObserveImage} || (t == MarkReady && ready)
    ensures forall t :: t in tail ==> Rank(t) > 3
  {
  }

  lemma StepTypes(ts: seq<PlannedTask>, gates: seq<TaskType>, ready: bool)
    requires StepsOf(ts) == UpdateSteps(gates, ready)
    ensures Types(ts) == gates + ([ApplyStatefulSet, ApplyService, ObserveImage] + if ready then [MarkReady] else [])
  {
    var steps := UpdateSteps(gates, ready);
    var all := gates + ([ApplyStatefulSet, ApplyService, ObserveImage] + if ready then [MarkReady] else []);
    forall i | 0 <= i < |ts| ensures Types(ts)[i] == all[i] {
      assert StepsOf(ts)[i].taskType == ts[i].taskType;
      if i >= |gates| { assert steps[|gates|..][i - |gates|] == steps[i]; }
    }
  }

  // ---- plans ----

  /** One overlay patch right before the config-validate. */
  lemma OverlaidOrder(prog: seq<TaskType>, ts: seq<PlannedTask>, c: nat)
    requires Ordered(prog) && OverlayLastWriter(ts, c) && Types(ts[..c] + ts[c + 1..]) == prog
    ensures Ordered(Types(ts)) && forall t :: t in Types(ts) <==> t in prog || t == ConfigPatch
  {
    hide Ordered, IsConfigWriter;
    var all, rest := Types(ts), ts[..c] + ts[c + 1..];
    forall i | 0 <= i < |all| && i != c ensures all[i] == prog[if i < c then i else i - 1] {
      assert rest[if i < c then i else i - 1] == ts[i];
    }
    assert prog[c] == rest[c].taskType && rest[c] == ts[c + 1];
    PatchInserted(prog, all, c);
  }

  predicate Inserted(prog: seq<TaskType>, all: seq<TaskType>, c: nat) {
    && |all| == |prog| + 1 && c < |prog| && prog[c] == ConfigValidate && all[c] == ConfigPatch
    && forall i :: 0 <= i < |all| && i != c ==> all[i] == prog[if i < c then i else i - 1]
  }

  lemma PatchInserted(prog: seq<TaskType>, all: seq<TaskType>, c: nat)
    requires Ordered(prog) && Inserted(prog, all, c)
    ensures Ordered(all) && forall t :: t in all <==> t in prog || t == ConfigPatch
  {
    InsertedOrder(prog, all, c);
    hide Ordered;
    forall t | t in prog ensures t in all {
      var i :| 0 <= i < |prog| && prog[i] == t;
      assert all[if i < c then i else i + 1] == t;
    }
    forall t | t in all && t != ConfigPatch ensures t in prog {
      var i :| 0 <= i < |all| && all[i] == t;
      assert prog[if i < c then i else i - 1] == t;
    }
  }

  lemma InsertedOrder(prog: seq<TaskType>, all: seq<TaskType>, c: nat)
    requires Ordered(prog) && Inserted(prog, all, c)
    ensures Ordered(all)
  {
    forall i, j | 0 <= i < j < |all| ensures Rank(all[i]) < Rank(all[j]) || (all[i] == ConfigPatch && all[j] == ConfigPatch) {
      OneOf(prog, all, c, i);
      OneOf(prog, all, c, j);
      hide Rank;
      if i != c && j != c {
        var x, y := if i < c then i else i - 1, if j < c then j else j - 1;
        assert all[i] == prog[x] && all[j] == prog[y] && x < y;
      }
    }
  }

  lemma OneOf(prog: seq<TaskType>, all: seq<TaskType>, c: nat, i: nat)
    requires Ordered(prog) && Inserted(prog, all, c) && i < |all|
    ensures i < c ==> Rank(all[i]) < Rank(ConfigPatch) || all[i] == ConfigPatch
    ensures i > c ==> Rank(all[i]) > Rank(ConfigPatch)
  {
    if i < c { assert Rank(prog[i]) < Rank(prog[c]); }
    if i > c + 1 { assert Rank(prog[c]) < Rank(prog[i - 1]); }
  }

  /** withConfigValues adds the overlay's patch and nothing else. */
  lemma ValuedContents(prog: seq<TaskType>, s: Spec, id: nat, failed: Phase, c: nat)
    requires Ordered(prog) && WritersThenValidate(prog, c) && WithConfigValues(NewPlan(id, Assemble(id, Plain(prog)), failed), s).Built?
    ensures var all := Types(WithConfigValues(NewPlan(id, Assemble(id, Plain(prog)), failed), s).plan.tasks);
            Ordered(all) && forall t :: t in all <==> t in prog || (t == ConfigPatch && s.overlay == ValidOverlay)
  {
    SpliceOrKeep(prog, s, id, failed, c);
    BuiltOnlyIf(NewPlan(id, Assemble(id, Plain(prog)), failed), s);
    hide Ordered, WritersThenValidate, OverlayLastWriter, WithConfigValues, Fresh, Assemble, Plain, NewPlan;
    var b := WithConfigValues(NewPlan(id, Assemble(id, Plain(prog)), failed), s);
    if s.overlay == ValidOverlay {
      OverlaidOrder(prog, b.plan.tasks, c);
    } else {
      assert s.(overlay := NoOverlay) == s;
    }
  }

  lemma BuiltOnlyIf(p: TaskPlan, s: Spec)
    requires WithConfigValues(p, s).Built?
    ensures s.configHash.Some? && s.overlay != RejectedOverlay
  {
  }

  lemma NothingToSplice(p: TaskPlan, s: Spec)
    requires WithConfigValues(p, s).Built? && OnlyValidateTask(p.tasks, |p.tasks|)
    ensures WithConfigValues(p, s).plan.tasks == p.tasks && s.overlay != ValidOverlay
  {
    hide Splice, OnlyValidateTask;
    if s.overlay == ValidOverlay { SpliceAt(p.id, p.tasks, [], |p.tasks|); }
  }

  /** The init plan before the hold is looked at. */
  lemma BuiltInitContents(s: Spec, id: nat)
    requires BuildInitPlan(s, id).Built?
    ensures var all := Types(BuildInitPlan(s, id).plan.tasks);
            Ordered(all) && forall t :: t in all <==> InitCarries(s, t) || t == MarkReady || (t == ConfigPatch && s.overlay == ValidOverlay)
  {
    hide Ordered, InitCarries;
    InitContents(s);
    var prog := InitProgression(s);
    if s.nodeConfig && !Ceremony(s) {
      StrippedBase(s, id);
      var p := NewPlan(id, Assemble(id, Plain(prog)), Failed);
      StrippedHasNoValidate(prog, p);
      NothingToSplice(p, s);
      assert Types(p.tasks) == prog;
    } else {
      InitPlanFrom(s, id);
      var c := InitOrder(s.(nodeConfig := false));
      InitProgIs(s);
      hide InitProgression, WithConfigValues;
      ValuedContents(prog, s, id, Failed, c);
    }
  }

  lemma StrippedHasNoValidate(prog: seq<TaskType>, p: TaskPlan)
    requires InitSteps(Plain(prog)) && p.tasks == Assemble(p.id, Plain(prog))
    ensures OnlyValidateTask(p.tasks, |p.tasks|)
  {
    assert forall i :: 0 <= i < |p.tasks| ==> p.tasks[i].taskType == Plain(prog)[i].taskType;
  }

  lemma InitProgIs(s: Spec)
    requires !s.nodeConfig || Ceremony(s)
    ensures InitProgression(s) == InitProg(s.(nodeConfig := false))
  {
  }

  lemma InitPlanFrom(s: Spec, id: nat)
    ensures BuildInitPlan(s, id) == WithConfigValues(NewPlan(id, Assemble(id, Plain(InitProgression(s))), Failed), s)
  {
    hide WithConfigValues;
    if !s.nodeConfig { BuildInitPlanIs(s, id); } else if !Ceremony(s) { StrippedBase(s, id); }
  }

  /** A hold recorded in place of the last mark-ready. */
  lemma ParkedContents(p: TaskPlan)
    requires Ordered(Types(p.tasks)) && EndsInMarkReady(p)
    ensures var all, parked := Types(p.tasks), Types(ParkInsteadOfRelease(p).value.tasks);
            Ordered(parked) && forall t :: t in parked <==> (t in all && t != MarkReady) || t == RecordMaintenanceHold
  {
    var all, parked := Types(p.tasks), Types(ParkInsteadOfRelease(p).value.tasks);
    var n := |all| - 1;
    assert parked == all[..n] + [RecordMaintenanceHold] && all == all[..n] + [MarkReady];
    assert forall i :: 0 <= i < n ==> Rank(all[i]) < Rank(all[n]);
    forall t | t in all[..n] ensures t != MarkReady && t != RecordMaintenanceHold { var i :| 0 <= i < n && all[i] == t; }
    hide Ordered, Rank;
    SameRank();
    Replaced(all[..n], MarkReady, RecordMaintenanceHold);
  }

  lemma SameRank()
    ensures Rank(MarkReady) == Rank(RecordMaintenanceHold)
  {
  }

  lemma Replaced(a: seq<TaskType>, x: TaskType, y: TaskType)
    requires Ordered(a + [x]) && Rank(x) == Rank(y) && x != ConfigPatch && x !in a && y !in a
    ensures Ordered(a + [y]) && forall t :: t in a + [y] <==> (t in a + [x] && t != x) || t == y
  {
    hide Rank;
    forall i, j | 0 <= i < j < |a + [y]| ensures Rank((a + [y])[i]) < Rank((a + [y])[j]) || ((a + [y])[i] == ConfigPatch && (a + [y])[j] == ConfigPatch) {
      assert (a + [x])[i] == (a + [y])[i];
      if j < |a| { assert (a + [x])[j] == (a + [y])[j]; } else { assert (a + [x])[j] == x; }
    }
  }

  lemma StaticInitContents(n: Node, id: nat)
    requires n.status.phase != Running && n.spec.nodeConfig && StaticInitPlan(n.spec, id).Built?
    ensures Contents(Types(StaticInitPlan(n.spec, id).plan.tasks), n)
  {
    hide Ordered, InitCarries, BuildInitPlan, ParkInsteadOfRelease;
    BuiltInitContents(n.spec, id);
    InitNeverParks(n.spec);
    var p := BuildInitPlan(n.spec, id).plan;
    if n.spec.hold != NoHold { ParkOnlyReady(p); ParkedContents(p); }
  }

  lemma InitNeverParks(s: Spec)
    ensures !InitCarries(s, MarkReady) && !InitCarries(s, RecordMaintenanceHold)
  {
  }

  lemma ParkOnlyReady(p: TaskPlan)
    ensures ParkInsteadOfRelease(p).Some? <==> EndsInMarkReady(p)
  {
  }

  /** Reset and hold plans are the two arms of a mounted Running node that come first. */
  predicate ResetOrHold(n: Node) {
    n.spec.nodeConfig && n.status.phase == Running && (DataResetPending(n) || HoldMove(n).Some?)
  }

  /** Every other plan any builder returns, for every spec, mode and phase: exactly
      the tasks the node's fields call for, in the one order. */
  lemma EveryPlanContents(n: Node, id: nat)
    requires BuildPlan(n, id).Built? && !ResetOrHold(n)
    ensures Contents(Types(BuildPlan(n, id).plan.tasks), n)
  {
    hide Contents, StaticInitPlan, BuildInitPlan, UpdatePlanFor, PodTemplateDrifted;
    if n.status.phase != Running {
      if n.spec.nodeConfig { StaticInitContents(n, id); } else { ModeInitContents(n, id); }
    } else if n.spec.nodeConfig {
      if PodTemplateDrifted(n.spec, n.status, n.platform) { StaticUpdateContents(n, id); } else { ReadyContents(n, id); }
    } else if PodTemplateDrifted(n.spec, n.status, n.platform) || ConfigValuesDrifted(n) {
      ModeUpdateContents(n, id);
    } else {
      ReadyContents(n, id);
    }
  }

  lemma ModeInitContents(n: Node, id: nat)
    requires n.status.phase != Running && !n.spec.nodeConfig && BuildInitPlan(n.spec, id).Built?
    ensures Contents(Types(BuildInitPlan(n.spec, id).plan.tasks), n)
  {
    hide Ordered, InitCarries, BuildInitPlan;
    BuiltInitContents(n.spec, id);
  }

  lemma ReadyContents(n: Node, id: nat)
    requires n.status.phase == Running && !PodTemplateDrifted(n.spec, n.status, n.platform) && (n.spec.nodeConfig || !ConfigValuesDrifted(n))
    ensures Contents(Types(MarkReadyPlan(id).tasks), n)
  {
    hide PodTemplateDrifted, Rank;
    assert Types(MarkReadyPlan(id).tasks) == [MarkReady];
  }

  lemma ModeUpdateContents(n: Node, id: nat)
    requires !n.spec.nodeConfig && n.status.phase == Running && ModeRunningPlan(n, id).Built?
    requires PodTemplateDrifted(n.spec, n.status, n.platform) || ConfigValuesDrifted(n)
    ensures Contents(Types(ModeRunningPlan(n, id).plan.tasks), n)
  {
    hide Ordered, WithConfigValues, FullUpdateProg, PodTemplateDrifted, InsertBefore, WritersThenValidate, RollCarries;
    UpdateBuiltOnlyIf(n, id);
    AssembleUpdatePlanIs(n, id);
    UpdateContents(n);
    var c := UpdateOrder(n);
    ValuedContents(FullUpdateProg(n), n.spec, id, Unset, c);
    assert Carries(n, ConfigPatch) by { PatchCarried(n); }
  }

  lemma PatchCarried(n: Node)
    requires !n.spec.nodeConfig && n.status.phase == Running && (PodTemplateDrifted(n.spec, n.status, n.platform) || ConfigValuesDrifted(n))
    ensures Carries(n, ConfigPatch)
  {
  }

  lemma UpdateBuiltOnlyIf(n: Node, id: nat)
    requires (PodTemplateDrifted(n.spec, n.status, n.platform) || ConfigValuesDrifted(n)) && ModeRunningPlan(n, id).Built?
    ensures n.spec.configHash.Some? && n.spec.overlay != RejectedOverlay
  {
    hide InsertBefore, Splice, Assemble, PodTemplateDrifted;
  }

  // ---- budgets ----

  /** configure-genesis waits for the network's genesis, replace-pod and the wipe ride out restarts. */
  function Budget(t: TaskType): nat {
    match t
    case ConfigureGenesis => 180
    case ReplacePod => 3
    case ResetDataKeepSignState => 5
    case _ => 0
  }

  predicate Budgeted(ts: seq<PlannedTask>) { forall i :: 0 <= i < |ts| ==> ts[i].maxRetries == Budget(ts[i].taskType) }

  lemma AssembledBudget(id: nat, steps: seq<Step>)
    requires forall i :: 0 <= i < |steps| ==> steps[i].taskType != ResetDataKeepSignState
    ensures Budgeted(Assemble(id, steps))
  {
  }

  lemma {:induction false} SplicedBudget(id: nat, src: seq<PlannedTask>, out: seq<PlannedTask>)
    requires Budgeted(src) && Budgeted(out)
    ensures Budgeted(Splice(id, src, out))
    decreases |src|
  {
    if src != [] {
      var head := if src[0].taskType == ConfigValidate then out + [BuildPlannedTask(id, ConfigPatch, |out|, OverlayPatch)] else out;
      SplicedBudget(id, src[1..], head + [src[0].(id := TaskID(id, src[0].taskType, |head|))]);
    }
  }

  lemma ValuedBudget(p: TaskPlan, s: Spec)
    requires Budgeted(p.tasks) && WithConfigValues(p, s).Built?
    ensures Budgeted(WithConfigValues(p, s).plan.tasks)
  {
    hide Splice;
    SplicedBudget(p.id, p.tasks, []);
  }

  lemma PlainBudget(id: nat, prog: seq<TaskType>, failed: Phase, s: Spec)
    requires ResetDataKeepSignState !in prog
    ensures WithConfigValues(NewPlan(id, Assemble(id, Plain(prog)), failed), s).Built? ==>
              Budgeted(WithConfigValues(NewPlan(id, Assemble(id, Plain(prog)), failed), s).plan.tasks)
  {
    hide WithConfigValues;
    AssembledBudget(id, Plain(prog));
    var p := NewPlan(id, Assemble(id, Plain(prog)), failed);
    if WithConfigValues(p, s).Built? { ValuedBudget(p, s); }
  }

  lemma InitBudget(s: Spec, id: nat)
    requires BuildInitPlan(s, id).Built?
    ensures Budgeted(BuildInitPlan(s, id).plan.tasks)
  {
    hide WithConfigValues, Budgeted, Ordered, BuildInitPlan, InitProgression;
    InitContents(s);
    InitPlanFrom(s, id);
    PlainBudget(id, InitProgression(s), Failed, s);
  }

  lemma ResetBudget(n: Node, id: nat)
    ensures ResetPlanFor(n, id).Some? ==> Budgeted(ResetPlanFor(n, id).value.tasks)
  {
    var p := BuildDataResetPlan(n.spec.dataResetGeneration, id);
    assert Budgeted(p.tasks);
    hide BuildDataResetPlan;
  }

  lemma {:induction false} DroppedBudget(ts: seq<PlannedTask>)
    requires Budgeted(ts)
    ensures Budgeted(DropMarkReady(ts))
  {
    if ts != [] { DroppedBudget(ts[1..]); }
  }

  lemma StaticRollBudget(n: Node, id: nat)
    ensures Budgeted(UpdatePlanFor(n, id).tasks)
  {
    Gates(n.spec);
    AssembledBudget(id, Plain(StaticUpdateProg(n.spec)));
    DroppedBudget(Assemble(id, Plain(StaticUpdateProg(n.spec))));
  }

  /** Every task of every plan any builder returns has its type's retry budget. */
  lemma EveryPlanIsBudgeted(n: Node, id: nat)
    requires BuildPlan(n, id).Built?
    ensures Budgeted(BuildPlan(n, id).plan.tasks)
  {
    hide BuildInitPlan, UpdatePlanFor, PodTemplateDrifted, ResetPlanFor, WithConfigValues, InsertBefore, FullUpdateProg;
    if n.status.phase != Running {
      InitBudget(n.spec, id);
    } else if n.spec.nodeConfig {
      ResetBudget(n, id);
      StaticRollBudget(n, id);
    } else if PodTemplateDrifted(n.spec, n.status, n.platform) || ConfigValuesDrifted(n) {
      UpdateBuiltOnlyIf(n, id);
      AssembleUpdatePlanIs(n, id);
      UpdateContents(n);
      PlainBudget(id, FullUpdateProg(n), Unset, n.spec);
    }
  }
}
