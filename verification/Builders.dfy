/** The plan builders: init and genesis plans, the modes' Running arm with the
    overlay splice, and the ConfigMap-configured node's reset, hold and update
    plans (internal/planner). */
module Builders {
  import opened Options
  import Orders
  import opened NodeTypes
  import opened Executor

  /** What a builder returns. `startsUpdate` is the NodeUpdateInProgress stamp
      that accompanies an update plan. */
  datatype Build = NoPlan | BuildError | Built(plan: TaskPlan, startsUpdate: bool)

  // ---- assembling ----

  datatype Step = Step(taskType: TaskType, params: Params)

  function Assemble(id: nat, steps: seq<Step>): (ts: seq<PlannedTask>)
    ensures |ts| == |steps|
    ensures forall i :: 0 <= i < |ts| ==> ts[i] == BuildPlannedTask(id, steps[i].taskType, i, steps[i].params)
  {
    seq(|steps|, i requires 0 <= i < |steps| => BuildPlannedTask(id, steps[i].taskType, i, steps[i].params))
  }

  function Plain(prog: seq<TaskType>): (steps: seq<Step>)
    ensures |steps| == |prog|
    ensures forall i :: 0 <= i < |prog| ==> steps[i] == Step(prog[i], NoParams)
  {
    seq(|prog|, i requires 0 <= i < |prog| => Step(prog[i], NoParams))
  }

  function NewPlan(id: nat, tasks: seq<PlannedTask>, failedPhase: Phase): TaskPlan {
    TaskPlan(id, Active, tasks, Running, failedPhase, "", None, None)
  }

  function Types(ts: seq<PlannedTask>): (r: seq<TaskType>)
    ensures |r| == |ts|
    ensures forall i :: 0 <= i < |ts| ==> r[i] == ts[i].taskType
  {
    seq(|ts|, i requires 0 <= i < |ts| => ts[i].taskType)
  }

  /** A plan no task of which has run: what every builder must hand over. */
  predicate Fresh(p: TaskPlan) {
    && p.phase.Active? && NoFailure(p) && |p.tasks| > 0
    && PositionIDs(p.id, p.tasks) && UntouchedFrom(p.tasks, 0)
  }

  lemma FreshPlanInvariant(p: TaskPlan)
    requires Fresh(p)
    ensures PlanInvariant(p) && Advancing(p) && FirstIncomplete(p.tasks) == 0
  {
    FirstIncompleteIs(p.tasks, 0);
  }

  // ---- init plans of every mode ----

  function InsertBefore(prog: seq<TaskType>, target: TaskType, t: TaskType): Option<seq<TaskType>> {
    if t in prog then Some(prog)
    else
      var i := Orders.IndexOf(prog, target);
      if i < |prog| then Some(prog[..i] + [t] + prog[i..]) else None
  }

  function SnapshotSource(s: Spec): Snapshot {
    if s.mode == Archive || s.mode == Seed then NoSnapshot else s.snapshot
  }

  function BaseProgression(snap: Snapshot): seq<TaskType> {
    if snap == S3Snapshot then [SnapshotRestore, ConfigApply, ConfigValidate, MarkReady]
    else [ConfigApply, ConfigValidate, MarkReady]
  }

  function SidecarProgression(snap: Snapshot): Option<seq<TaskType>> {
    match InsertBefore(BaseProgression(snap), ConfigApply, ConfigureGenesis)
    case None => None
    case Some(prog) => if snap == NoSnapshot then Some(prog) else InsertBefore(prog, ConfigValidate, ConfigureStateSync)
  }

  /** The tasks that write config.toml or app.toml. */
  predicate IsConfigWriter(t: TaskType) {
    || t == ConfigApply || t == ConfigPatch || t == ConfigureStateSync
    || t == SetGenesisPeers || t == GenerateIdentity
  }

  function DropManaged(prog: seq<TaskType>): seq<TaskType> {
    if prog == [] then []
    else (if prog[0] == ConfigValidate || IsConfigWriter(prog[0]) then [] else [prog[0]]) + DropManaged(prog[1..])
  }

  function WithoutManagedConfigTasks(s: Spec, prog: seq<TaskType>): seq<TaskType> {
    if s.nodeConfig then DropManaged(prog) else prog
  }

  function KeyGates(s: Spec): seq<TaskType> {
    (if s.mode == Validator && s.signingKey then [ValidateSigningKey] else [])
    + (if (s.mode == Validator || s.mode == Seed) && s.nodeKey then [ValidateNodeKey] else [])
    + (if s.mode == Validator && s.operatorKeyring then [ValidateOperatorKeyring] else [])
  }

  function BaseProg(s: Spec, sidecar: seq<TaskType>): seq<TaskType> {
    [EnsureDataPVC] + KeyGates(s) + [ApplyRBACProxyConfig, ApplyStatefulSet, ApplyService] + sidecar
  }

  function BuildBasePlan(s: Spec, id: nat): Build {
    match SidecarProgression(SnapshotSource(s))
    case None => BuildError
    case Some(prog) =>
      WithConfigValues(NewPlan(id, Assemble(id, Plain(BaseProg(s, WithoutManagedConfigTasks(s, prog)))), Failed), s)
  }

  const GENESIS_PROG: seq<TaskType> :=
    [EnsureDataPVC, ApplyRBACProxyConfig, ApplyStatefulSet, ApplyService,
     GenerateIdentity, GenerateGentx, UploadGenesisArtifacts, ConfigureGenesis,
     ConfigApply, SetGenesisPeers, ConfigValidate, MarkReady]

  function BuildInitPlan(s: Spec, id: nat): Build {
    if s.mode == Validator && s.genesisCeremony
    then WithConfigValues(NewPlan(id, Assemble(id, Plain(GENESIS_PROG)), Failed), s)
    else BuildBasePlan(s, id)
  }

  // ---- the overlay splice ----

  /** Rebuild the task list with the overlay in front of every config-validate,
      giving each task the ID of its final position. */
  function Splice(id: nat, src: seq<PlannedTask>, out: seq<PlannedTask>): seq<PlannedTask>
    decreases |src|
  {
    if src == [] then out
    else
      var out' := if src[0].taskType == ConfigValidate then out + [BuildPlannedTask(id, ConfigPatch, |out|, OverlayPatch)] else out;
      Splice(id, src[1..], out' + [src[0].(id := TaskID(id, src[0].taskType, |out'|))])
  }

  /** withConfigValues' loop. */
  method SpliceOverlay(id: nat, src: seq<PlannedTask>) returns (out: seq<PlannedTask>)
    ensures out == Splice(id, src, [])
  {
    out := [];
    for i := 0 to |src|
      invariant Splice(id, src, []) == Splice(id, src[i..], out)
    {
      assert src[i..][1..] == src[i + 1..];
      if src[i].taskType == ConfigValidate {
        out := out + [BuildPlannedTask(id, ConfigPatch, |out|, OverlayPatch)];
      }
      out := out + [src[i].(id := TaskID(id, src[i].taskType, |out|))];
    }
    assert src[|src|..] == [];
  }

  function WithConfigValues(p: TaskPlan, s: Spec): Build {
    if s.configHash.None? then BuildError
    else
      var q := p.(configHash := s.configHash.value);
      match s.overlay
      case NoOverlay => Built(q, false)
      case RejectedOverlay => BuildError
      case ValidOverlay =>
        var ts := Splice(p.id, p.tasks, []);
        if |ts| == |p.tasks| then BuildError else Built(q.(tasks := ts), false)
  }

  // ---- the modes' Running arm ----

  predicate ConfigValuesDrifted(n: Node) {
    n.status.currentConfigHash != "" && n.spec.configHash != Some(n.status.currentConfigHash)
  }

  function AssembleUpdatePlan(n: Node, id: nat, prog: seq<TaskType>): Build {
    match (if n.status.currentConfigHash == "" || ConfigValuesDrifted(n) then InsertBefore(prog, ConfigPatch, ConfigApply) else Some(prog))
    case None => BuildError
    case Some(full) =>
      match WithConfigValues(NewPlan(id, Assemble(id, Plain(full)), Unset), n.spec)
      case Built(p, _) => Built(p, true)
      case other => other
  }

  function UpdateProg(s: Spec): seq<TaskType> {
    KeyGates(s) + [ApplyStatefulSet, ApplyService, ConfigPatch, ConfigValidate, ReplacePod, ObserveImage, MarkReady]
  }

  const CONFIG_UPDATE_PROG: seq<TaskType> := [ConfigPatch, ConfigValidate, MarkReady, RestartSeid]

  function MarkReadyPlan(id: nat): TaskPlan {
    NewPlan(id, Assemble(id, [Step(MarkReady, NoParams)]), Unset)
  }

  function ModeRunningPlan(n: Node, id: nat): Build {
    if PodTemplateDrifted(n.spec, n.status, n.platform) then AssembleUpdatePlan(n, id, UpdateProg(n.spec))
    else if ConfigValuesDrifted(n) then AssembleUpdatePlan(n, id, CONFIG_UPDATE_PROG)
    else if n.status.sidecarReady == SidecarNotReady then Built(MarkReadyPlan(id), false)
    else NoPlan
  }

  // ---- reset, hold and update plans of a ConfigMap-configured node ----

  function DataResetSteps(generation: int): seq<Step> {
    [Step(ObserveImage, NoParams), Step(MarkNotReady, NoParams), Step(StopSeid, NoParams),
     Step(ResetDataKeepSignState, NoParams), Step(RecordDataReset, Generation(generation)), Step(MarkReady, NoParams)]
  }

  function BuildDataResetPlan(generation: int, id: nat): TaskPlan {
    var ts := Assemble(id, DataResetSteps(generation));
    NewPlan(id, ts[3 := ts[3].(maxRetries := DATA_RESET_MAX_RETRIES)], Unset)
  }

  function HoldSteps(want: Hold, have: Hold): seq<Step> {
    var record := Step(RecordMaintenanceHold, HoldInEffect(want));
    match want
    case Immediate => [Step(MarkNotReady, NoParams), Step(StopSeid, NoParams), record]
    case AfterExit =>
      if have == Immediate
      then [Step(ObserveImage, NoParams), Step(StartSeidOnce, NoParams), Step(AwaitSeidStart, NoParams), Step(MarkNotReady, NoParams), record]
      else [Step(MarkNotReady, NoParams), record]
    case NoHold => [Step(ObserveImage, NoParams), Step(MarkReady, NoParams), record]
  }

  /** The hold to apply and the hold to apply it from: an open gate under a hold
      in effect re-applies that hold first. */
  function HoldMove(n: Node): Option<(Hold, Hold)> {
    var want, have := n.spec.hold, n.status.maintenanceHold;
    if want != NoHold && have != NoHold && n.status.sidecarReady == SidecarReady then Some((have, NoHold))
    else if want == have then None
    else Some((want, have))
  }

  function BuildHoldPlan(want: Hold, have: Hold, id: nat): TaskPlan {
    NewPlan(id, Assemble(id, HoldSteps(want, have)), Unset)
  }

  predicate EndsInMarkReady(p: TaskPlan) { |p.tasks| > 0 && p.tasks[|p.tasks| - 1].taskType == MarkReady }

  function ParkInsteadOfRelease(p: TaskPlan): Option<TaskPlan> {
    if !EndsInMarkReady(p) then None
    else
      var last := |p.tasks| - 1;
      Some(p.(tasks := p.tasks[last := BuildPlannedTask(p.id, RecordMaintenanceHold, last, HoldInEffect(Immediate))]))
  }

  function ClearHoldAfterRelease(p: TaskPlan): Option<TaskPlan> {
    if !EndsInMarkReady(p) then None
    else Some(p.(tasks := p.tasks + [BuildPlannedTask(p.id, RecordMaintenanceHold, |p.tasks|, HoldInEffect(NoHold))]))
  }

  function DropMarkReady(ts: seq<PlannedTask>): seq<PlannedTask> {
    if ts == [] then []
    else (if ts[0].taskType == MarkReady then [] else [ts[0]]) + DropMarkReady(ts[1..])
  }

  function StaticUpdateProg(s: Spec): seq<TaskType> {
    KeyGates(s) + [ApplyStatefulSet, ApplyService, ObserveImage, MarkReady]
  }

  /** A reset plan, ending as the requested and the effective hold demand. */
  function ResetPlanFor(n: Node, id: nat): Option<TaskPlan> {
    var p := BuildDataResetPlan(n.spec.dataResetGeneration, id);
    if n.spec.hold != NoHold then ParkInsteadOfRelease(p)
    else if n.status.maintenanceHold != NoHold then ClearHoldAfterRelease(p)
    else Some(p)
  }

  function UpdatePlanFor(n: Node, id: nat): TaskPlan {
    var p := NewPlan(id, Assemble(id, Plain(StaticUpdateProg(n.spec))), Unset);
    if n.spec.hold != NoHold then p.(tasks := DropMarkReady(p.tasks)) else p
  }

  /** staticConfigPlanner.buildRunningPlan: reset, hold, drift, reapproval, in that order. */
  function StaticRunningPlan(n: Node, id: nat): Build {
    if DataResetPending(n) then
      match ResetPlanFor(n, id)
      case None => BuildError
      case Some(p) => Built(p, false)
    else if HoldMove(n).Some? then Built(BuildHoldPlan(HoldMove(n).value.0, HoldMove(n).value.1, id), false)
    else if PodTemplateDrifted(n.spec, n.status, n.platform) then Built(UpdatePlanFor(n, id), true)
    else if n.status.sidecarReady == SidecarNotReady && n.spec.hold == NoHold then Built(MarkReadyPlan(id), false)
    else NoPlan
  }

  /** staticConfigPlanner.BuildPlan before Running: a requested hold parks the init plan. */
  function StaticInitPlan(s: Spec, id: nat): Build {
    match BuildInitPlan(s, id)
    case Built(p, u) =>
      if s.hold == NoHold then Built(p, u)
      else (match ParkInsteadOfRelease(p) case None => BuildError case Some(q) => Built(q, u))
    case other => other
  }

  /** The plan the node's planner builds now, under the plan ID `id`. */
  function BuildPlan(n: Node, id: nat): Build {
    if n.spec.nodeConfig then
      if n.status.phase == Running then StaticRunningPlan(n, id) else StaticInitPlan(n.spec, id)
    else
      if n.status.phase == Running then ModeRunningPlan(n, id) else BuildInitPlan(n.spec, id)
  }

  /** mountedConfigWriterInPlan: ResolvePlan refuses a plan this holds of. */
  predicate MountedConfigWriter(s: Spec, p: TaskPlan) {
    s.nodeConfig && exists i :: 0 <= i < |p.tasks| && IsConfigWriter(p.tasks[i].taskType)
  }

  /** classifyPlan, as far as the drift budget reads it: an observe-image step
      before any other classifying step, in a plan that is neither a reset nor a hold plan. */
  predicate IsNodeUpdatePlan(p: TaskPlan) {
    && (forall i :: 0 <= i < |p.tasks| ==> p.tasks[i].taskType != RecordDataReset)
    && ((forall i :: 0 <= i < |p.tasks| ==> p.tasks[i].taskType != RecordMaintenanceHold)
        || (exists i :: 0 <= i < |p.tasks| && p.tasks[i].taskType == EnsureDataPVC))
    && FirstClass(p.tasks) == Some(ObserveImage)
  }

  function FirstClass(ts: seq<PlannedTask>): Option<TaskType> {
    if ts == [] then None
    else if ts[0].taskType in {ObserveImage, EnsureDataPVC, RestartSeid} then Some(ts[0].taskType)
    else FirstClass(ts[1..])
  }
}
