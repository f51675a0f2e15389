/** What every plan is, whichever builder made it: fresh and position-indexed,
    with the operator's overlay as the last config write, and without a config
    writer on a node that mounts its config. */
module PlanProperties {
  import opened Options
  import Orders
  import opened NodeTypes
  import opened Executor
  import opened Builders

  // ---- the overlay splice ----

  function At(id: nat, t: PlannedTask, index: nat): PlannedTask { t.(id := TaskID(id, t.taskType, index)) }

  predicate OnlyValidateAt(prog: seq<TaskType>, c: nat) {
    forall i :: 0 <= i < |prog| ==> (prog[i] == ConfigValidate <==> i == c)
  }

  predicate OnlyValidateTask(ts: seq<PlannedTask>, c: nat) {
    forall i :: 0 <= i < |ts| ==> (ts[i].taskType == ConfigValidate <==> i == c)
  }

  /** Position j of `out` followed by the spliced `src`, whose config-validate is at c. */
  function SplicedAt(id: nat, src: seq<PlannedTask>, out: seq<PlannedTask>, c: nat, j: nat): PlannedTask
    requires c <= |src| && j < |out| + |src| + (if c < |src| then 1 else 0)
  {
    if j < |out| then out[j]
    else if j < |out| + c then At(id, src[j - |out|], j)
    else if j == |out| + c then BuildPlannedTask(id, ConfigPatch, j, OverlayPatch)
    else At(id, src[j - |out| - 1], j)
  }

  lemma {:induction false} SpliceAt(id: nat, src: seq<PlannedTask>, out: seq<PlannedTask>, c: nat)
    requires c <= |src| && OnlyValidateTask(src, c)
    ensures |Splice(id, src, out)| == |out| + |src| + (if c < |src| then 1 else 0)
    ensures forall j :: 0 <= j < |Splice(id, src, out)| ==> Splice(id, src, out)[j] == SplicedAt(id, src, out, c, j)
    decreases |src|
  {
    if src != [] {
      var rest := src[1..];
      assert forall i :: 0 <= i < |rest| ==> rest[i] == src[i + 1];
      var out' := if c == 0 then out + [BuildPlannedTask(id, ConfigPatch, |out|, OverlayPatch)] else out;
      var next := out' + [At(id, src[0], |out'|)];
      var c' := if c == 0 then |rest| else c - 1;
      assert Splice(id, src, out) == Splice(id, rest, next);
      SpliceAt(id, rest, next, c');
      forall j | 0 <= j < |Splice(id, src, out)|
        ensures SplicedAt(id, rest, next, c', j) == SplicedAt(id, src, out, c, j)
      {
      }
    }
  }

  /** The overlay comes right before the one config-validate, after every other
      config writer, and before the tasks that validate, replace, restart or release. */
  predicate OverlayLastWriter(ts: seq<PlannedTask>, v: nat) {
    && v + 1 < |ts|
    && ts[v].taskType == ConfigPatch && ts[v].params == OverlayPatch
    && (forall i :: 0 <= i < |ts| && IsConfigWriter(ts[i].taskType) ==> i <= v)
    && (forall i :: 0 <= i < |ts| && ts[i].taskType in {ConfigValidate, ReplacePod, RestartSeid, MarkReady} ==> i > v)
    && ts[v + 1].taskType == ConfigValidate
  }

  /** The order of a progression the splice relies on. */
  predicate WritersThenValidate(prog: seq<TaskType>, c: nat) {
    && c < |prog| && OnlyValidateAt(prog, c)
    && (forall i :: 0 <= i < |prog| && IsConfigWriter(prog[i]) ==> i < c)
    && (forall i :: 0 <= i < |prog| && prog[i] in {ReplacePod, RestartSeid, MarkReady} ==> i > c)
  }

  predicate Neutral(prog: seq<TaskType>) {
    forall t :: t in prog ==> !IsConfigWriter(t) && t !in {ConfigValidate, ReplacePod, RestartSeid, MarkReady}
  }

  lemma PrefixKeepsOrder(prefix: seq<TaskType>, prog: seq<TaskType>, c: nat)
    requires Neutral(prefix) && WritersThenValidate(prog, c)
    ensures WritersThenValidate(prefix + prog, |prefix| + c)
  {
    var all := prefix + prog;
    assert forall i :: 0 <= i < |prefix| ==> all[i] in prefix;
    assert forall i :: |prefix| <= i < |all| ==> all[i] == prog[i - |prefix|];
  }

  lemma InsertBeforeIs(prog: seq<TaskType>, target: TaskType, t: TaskType, i: nat)
    requires t !in prog && i < |prog| && prog[i] == target && target !in prog[..i]
    ensures InsertBefore(prog, target, t) == Some(prog[..i] + [t] + prog[i..])
  {
    var j := Orders.IndexOf(prog, target);
    assert forall k :: 0 <= k < i ==> prog[k] == prog[..i][k];
    assert forall k :: 0 <= k < j ==> prog[k] == prog[..j][k];
    assert j == i;
  }

  function SidecarProg(snap: Snapshot): seq<TaskType> {
    match snap
    case NoSnapshot => [ConfigureGenesis, ConfigApply, ConfigValidate, MarkReady]
    case S3Snapshot => [SnapshotRestore, ConfigureGenesis, ConfigApply, ConfigureStateSync, ConfigValidate, MarkReady]
    case _ => [ConfigureGenesis, ConfigApply, ConfigureStateSync, ConfigValidate, MarkReady]
  }

  lemma InsertBetween(a: seq<TaskType>, target: TaskType, b: seq<TaskType>, t: TaskType)
    requires t !in a && t !in b && t != target && target !in a
    ensures InsertBefore(a + [target] + b, target, t) == Some(a + [t, target] + b)
  {
    var prog := a + [target] + b;
    assert prog[..|a|] == a && prog[|a|..] == [target] + b;
    InsertBeforeIs(prog, target, t, |a|);
    assert a + [t] + ([target] + b) == a + [t, target] + b;
  }

  lemma SidecarProgressionIs(snap: Snapshot)
    ensures SidecarProgression(snap) == Some(SidecarProg(snap))
  {
    hide InsertBefore;
    var head := if snap == S3Snapshot then [SnapshotRestore] else [];
    var prog := head + [ConfigureGenesis, ConfigApply] + [ConfigValidate, MarkReady];
    InsertBetween(head, ConfigApply, [ConfigValidate, MarkReady], ConfigureGenesis);
    assert BaseProgression(snap) == head + [ConfigApply] + [ConfigValidate, MarkReady];
    if snap == NoSnapshot {
      assert prog == SidecarProg(snap);
    } else {
      var before := head + [ConfigureGenesis, ConfigApply];
      InsertBetween(before, ConfigValidate, [MarkReady], ConfigureStateSync);
      assert prog == before + [ConfigValidate] + [MarkReady];
      assert before + [ConfigureStateSync, ConfigValidate] + [MarkReady] == SidecarProg(snap);
    }
  }

  /** The progression of an init or genesis plan on a node whose config the controller owns. */
  function InitProg(s: Spec): seq<TaskType> {
    if s.mode == Validator && s.genesisCeremony then GENESIS_PROG
    else BaseProg(s, SidecarProg(SnapshotSource(s)))
  }

  lemma BuildInitPlanIs(s: Spec, id: nat)
    requires !s.nodeConfig
    ensures BuildInitPlan(s, id) == WithConfigValues(NewPlan(id, Assemble(id, Plain(InitProg(s))), Failed), s)
  {
    SidecarProgressionIs(SnapshotSource(s));
  }

  lemma SidecarOrder(snap: Snapshot)
    ensures WritersThenValidate(SidecarProg(snap), |SidecarProg(snap)| - 2)
  {
  }

  lemma InitOrder(s: Spec) returns (c: nat)
    ensures WritersThenValidate(InitProg(s), c)
  {
    if s.mode == Validator && s.genesisCeremony {
      c := 10;
    } else {
      var sidecar := SidecarProg(SnapshotSource(s));
      SidecarOrder(SnapshotSource(s));
      var prefix := [EnsureDataPVC] + KeyGates(s) + [ApplyRBACProxyConfig, ApplyStatefulSet, ApplyService];
      assert Neutral(prefix) by { KeyGatesNeutral(s); }
      PrefixKeepsOrder(prefix, sidecar, |sidecar| - 2);
      c := |prefix| + |sidecar| - 2;
    }
  }

  lemma KeyGatesNeutral(s: Spec)
    ensures Neutral(KeyGates(s))
  {
  }

  /** The splice, on a progression in the right order. */
  lemma SplicedPlan(p: TaskPlan, c: nat)
    requires WritersThenValidate(Types(p.tasks), c)
    requires Fresh(p)
    ensures var ts := Splice(p.id, p.tasks, []);
            && |ts| == |p.tasks| + 1
            && OverlayLastWriter(ts, c)
            && Types(ts[..c] + ts[c + 1..]) == Types(p.tasks)
            && PositionIDs(p.id, ts) && UntouchedFrom(ts, 0)
  {
    hide OverlayLastWriter, PositionIDs, UntouchedFrom;
    SplicedWriter(p, c);
    SplicedTypes(p, c);
    SplicedFresh(p, c);
  }

  lemma OneValidate(p: TaskPlan, c: nat)
    requires WritersThenValidate(Types(p.tasks), c)
    ensures OnlyValidateTask(p.tasks, c) && c < |p.tasks|
  {
    assert forall i :: 0 <= i < |p.tasks| ==> Types(p.tasks)[i] == p.tasks[i].taskType;
  }

  lemma SplicedWriter(p: TaskPlan, c: nat)
    requires WritersThenValidate(Types(p.tasks), c)
    ensures OverlayLastWriter(Splice(p.id, p.tasks, []), c)
  {
    hide WritersThenValidate, OverlayLastWriter;
    OneValidate(p, c);
    SpliceAt(p.id, p.tasks, [], c);
    var ts := Splice(p.id, p.tasks, []);
    assert forall i :: 0 <= i < |p.tasks| ==> Types(p.tasks)[i] == p.tasks[i].taskType;
    assert forall i :: 0 <= i < |ts| && i != c ==> ts[i].taskType == Types(p.tasks)[if i < c then i else i - 1];
    OrderSurvives(Types(p.tasks), ts, c);
  }

  /** The order of a progression, with one overlay patch inserted before its config-validate. */
  lemma OrderSurvives(prog: seq<TaskType>, ts: seq<PlannedTask>, c: nat)
    requires WritersThenValidate(prog, c) && |ts| == |prog| + 1 && ts[c].taskType == ConfigPatch && ts[c].params == OverlayPatch
    requires forall i :: 0 <= i < |ts| && i != c ==> ts[i].taskType == prog[if i < c then i else i - 1]
    ensures OverlayLastWriter(ts, c)
  {
  }

  lemma SplicedTypes(p: TaskPlan, c: nat)
    requires WritersThenValidate(Types(p.tasks), c)
    ensures var ts := Splice(p.id, p.tasks, []); |ts| == |p.tasks| + 1 && Types(ts[..c] + ts[c + 1..]) == Types(p.tasks)
  {
    hide WritersThenValidate, OnlyValidateTask, Splice;
    OneValidate(p, c);
    SpliceAt(p.id, p.tasks, [], c);
    var ts := Splice(p.id, p.tasks, []);
    var orig := ts[..c] + ts[c + 1..];
    assert forall i :: 0 <= i < |orig| ==> orig[i].taskType == p.tasks[i].taskType;
  }

  lemma SplicedFresh(p: TaskPlan, c: nat)
    requires WritersThenValidate(Types(p.tasks), c) && Fresh(p)
    ensures PositionIDs(p.id, Splice(p.id, p.tasks, [])) && UntouchedFrom(Splice(p.id, p.tasks, []), 0)
  {
    hide WritersThenValidate, OnlyValidateTask, Splice;
    OneValidate(p, c);
    SpliceAt(p.id, p.tasks, [], c);
  }

  /** The progression of an image-update or config-update plan, base regeneration included. */
  function UpdateTail(regenerate: bool): seq<TaskType> {
    if regenerate then [ApplyStatefulSet, ApplyService, ConfigApply, ConfigPatch, ConfigValidate, ReplacePod, ObserveImage, MarkReady]
    else [ApplyStatefulSet, ApplyService, ConfigPatch, ConfigValidate, ReplacePod, ObserveImage, MarkReady]
  }

  predicate Regenerates(n: Node) { n.status.currentConfigHash == "" || ConfigValuesDrifted(n) }

  function FullUpdateProg(n: Node): seq<TaskType> {
    if PodTemplateDrifted(n.spec, n.status, n.platform) then KeyGates(n.spec) + UpdateTail(Regenerates(n))
    else [ConfigApply] + CONFIG_UPDATE_PROG
  }

  lemma InsertApplyAfter(gates: seq<TaskType>)
    requires Neutral(gates)
    ensures InsertBefore(gates + UpdateTail(false), ConfigPatch, ConfigApply) == Some(gates + UpdateTail(true))
  {
    var prog := gates + UpdateTail(false);
    var i := |gates| + 2;
    assert prog[..i] == gates + [ApplyStatefulSet, ApplyService];
    assert prog[i..] == UpdateTail(false)[2..];
    InsertBeforeIs(prog, ConfigPatch, ConfigApply, i);
    assert prog[..i] + [ConfigApply] + prog[i..] == gates + UpdateTail(true);
  }

  lemma AssembleUpdatePlanIs(n: Node, id: nat)
    requires n.spec.configHash.Some? && n.spec.overlay != RejectedOverlay
    requires PodTemplateDrifted(n.spec, n.status, n.platform) || ConfigValuesDrifted(n)
    ensures var b := WithConfigValues(NewPlan(id, Assemble(id, Plain(FullUpdateProg(n))), Unset), n.spec);
            ModeRunningPlan(n, id) == if b.Built? then Built(b.plan, true) else b
  {
    if PodTemplateDrifted(n.spec, n.status, n.platform) {
      KeyGatesNeutral(n.spec);
      InsertApplyAfter(KeyGates(n.spec));
    } else {
      InsertBeforeIs(CONFIG_UPDATE_PROG, ConfigPatch, ConfigApply, 0);
      assert CONFIG_UPDATE_PROG[..0] + [ConfigApply] + CONFIG_UPDATE_PROG[0..] == [ConfigApply] + CONFIG_UPDATE_PROG;
    }
  }

  lemma UpdateOrder(n: Node) returns (c: nat)
    ensures WritersThenValidate(FullUpdateProg(n), c)
  {
    if PodTemplateDrifted(n.spec, n.status, n.platform) {
      KeyGatesNeutral(n.spec);
      var d := if Regenerates(n) then 4 else 3;
      assert WritersThenValidate(UpdateTail(Regenerates(n)), d);
      PrefixKeepsOrder(KeyGates(n.spec), UpdateTail(Regenerates(n)), d);
      c := |KeyGates(n.spec)| + d;
    } else {
      c := 2;
    }
  }

  /** Shared by the init and the update arms. */
  lemma SpliceOrKeep(prog: seq<TaskType>, s: Spec, id: nat, failedPhase: Phase, c: nat)
    requires WritersThenValidate(prog, c) && s.configHash.Some?
    ensures var base := WithConfigValues(NewPlan(id, Assemble(id, Plain(prog)), failedPhase), s.(overlay := NoOverlay));
            && base.Built? && Fresh(base.plan) && Types(base.plan.tasks) == prog
    ensures s.overlay == ValidOverlay ==>
            var b := WithConfigValues(NewPlan(id, Assemble(id, Plain(prog)), failedPhase), s);
            && b.Built? && Fresh(b.plan) && OverlayLastWriter(b.plan.tasks, c)
            && Types(b.plan.tasks[..c] + b.plan.tasks[c + 1..]) == prog
  {
    var p := NewPlan(id, Assemble(id, Plain(prog)), failedPhase);
    assert Types(p.tasks) == prog;
    assert Fresh(p);
    SplicedPlan(p, c);
  }

  function WithoutOverlay(n: Node): Node { n.(spec := n.spec.(overlay := NoOverlay)) }

  /** p is base with the overlay spliced in as its last config write. */
  predicate OverlaidAt(p: TaskPlan, base: TaskPlan, v: nat) {
    && OverlayLastWriter(p.tasks, v)
    && Types(p.tasks[..v] + p.tasks[v + 1..]) == Types(base.tasks)
  }

  lemma InitOverlay(n: Node, id: nat) returns (v: nat)
    requires !n.spec.nodeConfig && n.spec.overlay == ValidOverlay && n.spec.configHash.Some? && n.status.phase != Running
    ensures BuildPlan(WithoutOverlay(n), id).Built? && BuildPlan(n, id).Built?
    ensures Fresh(BuildPlan(n, id).plan) && OverlaidAt(BuildPlan(n, id).plan, BuildPlan(WithoutOverlay(n), id).plan, v)
  {
    assert InitProg(WithoutOverlay(n).spec) == InitProg(n.spec);
    hide InitProg, WithConfigValues, Fresh, OverlayLastWriter, BuildInitPlan;
    BuildInitPlanIs(n.spec, id);
    BuildInitPlanIs(WithoutOverlay(n).spec, id);
    v := InitOrder(n.spec);
    SpliceOrKeep(InitProg(n.spec), n.spec, id, Failed, v);
  }

  lemma UpdateOverlay(n: Node, id: nat) returns (v: nat)
    requires !n.spec.nodeConfig && n.spec.overlay == ValidOverlay && n.spec.configHash.Some? && n.status.phase == Running
    requires PodTemplateDrifted(n.spec, n.status, n.platform) || ConfigValuesDrifted(n)
    ensures BuildPlan(WithoutOverlay(n), id).Built? && BuildPlan(n, id).Built?
    ensures Fresh(BuildPlan(n, id).plan) && OverlaidAt(BuildPlan(n, id).plan, BuildPlan(WithoutOverlay(n), id).plan, v)
  {
    assert FullUpdateProg(WithoutOverlay(n)) == FullUpdateProg(n);
    AssembleUpdatePlanIs(n, id);
    AssembleUpdatePlanIs(WithoutOverlay(n), id);
    v := UpdateOrder(n);
    hide FullUpdateProg, ModeRunningPlan, Fresh, OverlayLastWriter, WithConfigValues;
    SpliceOrKeep(FullUpdateProg(n), n.spec, id, Unset, v);
  }

  /** In every plan of a controller-configured node with an overlay, the overlay
      is the last config write; deleting it gives back the plan the node would
      get without one, and every ID names its final position. The one plan that
      writes no config is the same with and without the overlay. */
  lemma OverlayIsLastWrite(n: Node, id: nat)
    requires !n.spec.nodeConfig && n.spec.overlay == ValidOverlay && BuildPlan(n, id).Built?
    ensures BuildPlan(WithoutOverlay(n), id).Built?
    ensures var p, base := BuildPlan(n, id).plan, BuildPlan(WithoutOverlay(n), id).plan;
            && Fresh(p)
            && (p == base == MarkReadyPlan(id) || exists v :: OverlaidAt(p, base, v))
  {
    if n.status.phase != Running {
      if n.spec.configHash.Some? {
        var v := InitOverlay(n, id);
      } else {
        BuildInitPlanIs(n.spec, id);
      }
    } else if PodTemplateDrifted(n.spec, n.status, n.platform) || ConfigValuesDrifted(n) {
      if n.spec.configHash.Some? {
        var v := UpdateOverlay(n, id);
      }
    } else {
      assert Fresh(MarkReadyPlan(id));
    }
  }

  /** Completing an update plan of a controller-configured node records the config
      it was built for: a later spec drifts exactly when it asks for another. */
  lemma FinishedUpdateClearsConfigDrift(n: Node, id: nat, m: Node)
    requires !n.spec.nodeConfig && n.status.phase == Running && n.spec.configHash != Some("")
    requires PodTemplateDrifted(n.spec, n.status, n.platform) || ConfigValuesDrifted(n)
    requires BuildPlan(n, id).Built?
    ensures ConfigValuesDrifted(FinishPlan(m, BuildPlan(n, id).plan).0) <==> m.spec.configHash != n.spec.configHash
  {
    hide FullUpdateProg, Splice;
    AssembleUpdatePlanIs(n, id);
  }
}
