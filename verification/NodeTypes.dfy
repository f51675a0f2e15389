/** Values every planner module shares: the SeiNode object with its spec and
    status, the task plan stored in that status, and the part of the world the
    plan acts on (the sidecar's start gate and the seid process). */
module NodeTypes {
  import opened Options

  /** The empty request is NoHold. */
  datatype Hold = NoHold | Immediate | AfterExit

  /** Unset is the empty phase. As a plan's target it means "leave the phase". */
  datatype Phase = Unset | Pending | Initializing | Running | Failed

  datatype TaskType =
    // controller-side tasks
    | EnsureDataPVC | ApplyRBACProxyConfig | ApplyStatefulSet | ApplyService
    | ValidateSigningKey | ValidateNodeKey | ValidateOperatorKeyring
    | ReplacePod | ObserveImage | RecordDataReset | RecordMaintenanceHold
    // sidecar tasks
    | SnapshotRestore | ConfigureGenesis | ConfigureStateSync
    | ConfigApply | ConfigPatch | ConfigValidate | RestartSeid
    | GenerateIdentity | GenerateGentx | UploadGenesisArtifacts | SetGenesisPeers
    | MarkReady | MarkNotReady | StopSeid | ResetDataKeepSignState
    | StartSeidOnce | AwaitSeidStart

  /** Only the parameters some property depends on. OverlayPatch tells the
      operator's overlay from the controller's own config-patch. */
  datatype Params = NoParams | Generation(generation: int) | HoldInEffect(hold: Hold) | OverlayPatch

  /** The UUID v5 of planID/taskType/planIndex, idealised as injective. */
  datatype TaskID = TaskID(plan: nat, taskType: TaskType, index: nat)

  datatype TaskStatus = TaskPending | TaskComplete | TaskFailed

  datatype PlannedTask = PlannedTask(
    taskType: TaskType, id: TaskID, params: Params,
    status: TaskStatus, maxRetries: nat, retryCount: nat)

  datatype PlanPhase = Active | PlanComplete | PlanFailed

  datatype TaskError = GuardRefusal | OtherError

  datatype FailedTaskInfo = FailedTaskInfo(
    taskType: TaskType, id: TaskID, error: TaskError, retryCount: nat, maxRetries: nat)

  datatype TaskPlan = TaskPlan(
    id: nat, phase: PlanPhase, tasks: seq<PlannedTask>,
    targetPhase: Phase, failedPhase: Phase, configHash: string,
    failedTaskIndex: Option<nat>, failedTaskDetail: Option<FailedTaskInfo>)

  datatype Mode = FullNode | Archive | Replayer | Validator | Seed

  /** BareSnapshot is a snapshot source that names neither S3 nor state sync. */
  datatype Snapshot = NoSnapshot | S3Snapshot | StateSyncSnapshot | BareSnapshot

  /** What configValues and the consensus engine ask of the overlay. */
  datatype Overlay = NoOverlay | ValidOverlay | RejectedOverlay

  datatype Spec = Spec(
    nodeConfig: bool, mode: Mode, snapshot: Snapshot, genesisCeremony: bool,
    signingKey: bool, nodeKey: bool, operatorKeyring: bool,
    overlay: Overlay, configHash: Option<string>,
    dataResetGeneration: int, hold: Hold, paused: bool,
    image: string, sidecarImage: string, isolation: string, dedicatedAnnotation: bool, nodePool: string)

  /** The controller-wide configuration the node's template is rendered with. */
  datatype Platform = Platform(sidecarImage: string, selectableNodepools: set<string>)

  datatype Probe = NotProbed | SidecarReady | SidecarNotReady | SidecarUnreachable

  datatype Status = Status(
    phase: Phase, dataResetGeneration: int, maintenanceHold: Hold,
    currentImage: string, currentSidecarImage: string, currentIsolation: string, currentNodePool: string,
    currentConfigHash: string, sidecarReady: Probe, updateInProgress: bool,
    plan: Option<TaskPlan>)

  /** What an outside observer of the node's sidecar and status sees happen.
      Each event carries the values in force at that moment. */
  datatype Event =
    | GateOpened(once: bool, phase: Phase, hold: Hold, resetPending: bool)
    | GateClosed(byReset: Option<int>)
    | WipeSubmitted(gateOpen: bool, seidRunning: bool)
    | WipeCompleted(plan: nat)
    | ResetRecorded(plan: nat, generation: int, previous: int)
    | HoldRecorded(hold: Hold)
    | StartRefused(phase: Phase, specEdited: bool)
    | ImageStamped(templatePinned: bool)
    | CounterRaised(generation: int)

  /** The start gate, and whether a seid process runs behind it. */
  datatype Sidecar = Sidecar(gateOpen: bool, seidRunning: bool)

  /** The event log, the spec the current plan was built from, the number of
      plans built so far, and whether this reconcile rendered the StatefulSet
      from a pinned copy. */
  datatype History = History(log: seq<Event>, builtFrom: Spec, plansBuilt: nat, templatePinned: bool)

  /** The node object the controller reconciles and the world it acts on. */
  datatype Node = Node(spec: Spec, status: Status, platform: Platform, sidecar: Sidecar, history: History)
  {
    function Emit(e: Event): Node { this.(history := history.(log := history.log + [e])) }

    predicate HasActivePlan() { status.plan.Some? && status.plan.value.phase.Active? }
  }

  // ---- start guard predicates (internal/task/start_guard.go) ----

  predicate DataResetPending(n: Node) {
    n.spec.nodeConfig && n.spec.dataResetGeneration > n.status.dataResetGeneration
  }

  /** The gate must stay closed against mark-ready. The hold half needs Running. */
  predicate StartBlocked(n: Node) {
    DataResetPending(n) || (n.spec.hold != NoHold && n.status.phase == Running)
  }

  /** The hold's own start-once step: only a reset, or a request other than AfterExit, stops it. */
  predicate StartOnceBlocked(n: Node) {
    DataResetPending(n) || n.spec.hold != AfterExit
  }

  predicate IsStartTask(t: TaskType) { t == MarkReady || t == StartSeidOnce }

  predicate GuardRefuses(n: Node, t: TaskType)
    requires IsStartTask(t)
  {
    if t == MarkReady then StartBlocked(n) else StartOnceBlocked(n)
  }

  // ---- pod-template drift (internal/planner/planner.go) ----

  function EffectiveSidecarImage(s: Spec, p: Platform): string {
    if s.sidecarImage != "" then s.sidecarImage else p.sidecarImage
  }

  function EffectiveIsolation(s: Spec): string {
    if s.isolation != "" then s.isolation
    else if s.dedicatedAnnotation then "Dedicated" else "Shared"
  }

  predicate ImageDrifted(s: Spec, st: Status) { s.image != st.currentImage }

  predicate SidecarImageDrifted(s: Spec, st: Status, p: Platform) {
    st.currentSidecarImage != "" && EffectiveSidecarImage(s, p) != st.currentSidecarImage
  }

  predicate IsolationDrifted(s: Spec, st: Status) {
    st.currentIsolation != "" && EffectiveIsolation(s) != st.currentIsolation
  }

  predicate NodePoolDrifted(s: Spec, st: Status) {
    st.currentImage != "" && s.nodePool != st.currentNodePool
  }

  predicate PodTemplateDrifted(s: Spec, st: Status, p: Platform) {
    || ImageDrifted(s, st)
    || SidecarImageDrifted(s, st, p)
    || IsolationDrifted(s, st)
    || NodePoolDrifted(s, st)
  }
}
