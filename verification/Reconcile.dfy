/** One reconcile of a node, and the moves of its environment. A reconcile is
    atomic: resolve the reset counter, render the StatefulSet, resolve the plan,
    then execute only a plan that was active when it began. */
module Reconcile {
  import opened Options
  import opened NodeTypes
  import opened Executor
  import opened Builders
  import opened StaticPlans

  /** What the outside world answers during one reconcile. */
  datatype Inputs = Inputs(
    probe: Option<Probe>,
    stateSyncBlocked: bool, peersBlocked: bool, modeValid: bool,
    renderSlotFree: bool, planSlotFree: bool,
    liveSeidImage: string, liveSidecarImage: string,
    oracle: Oracle)

  // ---- internal/planner/data_reset.go ----

  /** A node that is not Running absorbs the requested counter without a wipe. */
  function ResolveDataReset(n: Node): Node {
    if n.spec.nodeConfig && n.status.phase != Running && n.status.dataResetGeneration < n.spec.dataResetGeneration
    then n.(status := n.status.(dataResetGeneration := n.spec.dataResetGeneration)) else n
  }

  // ---- internal/planner/drift_budget.go ----

  /** A copy of the spec that renders the template the pod runs now, or None
      when no running seid image is known. */
  function PinnedToRunning(n: Node, liveSeid: string, liveSidecar: string): Option<Spec> {
    var st := n.status;
    var seid := if st.currentImage == "" then liveSeid else st.currentImage;
    var sidecar := if st.currentSidecarImage == "" then liveSidecar else st.currentSidecarImage;
    if seid == "" then None
    else Some(n.spec.(
      image := seid,
      sidecarImage := if sidecar != "" then sidecar else n.spec.sidecarImage,
      isolation := if st.currentIsolation != "" then st.currentIsolation else n.spec.isolation,
      nodePool := if st.currentImage != "" && n.spec.nodePool != st.currentNodePool then st.currentNodePool else n.spec.nodePool))
  }

  /** The render waits for a roll slot only when no plan can read the template. */
  predicate RenderMayPin(n: Node) {
    && n.spec.nodeConfig && !n.spec.paused && n.status.phase == Running
    && !n.HasActivePlan()
    && !n.status.updateInProgress && PodTemplateDrifted(n.spec, n.status, n.platform)
    && !DataResetPending(n) && n.spec.hold == n.status.maintenanceHold
  }

  /** DriftRenderNode: the spec the StatefulSet is rendered from. */
  function DriftRender(n: Node, inp: Inputs): Spec {
    if !RenderMayPin(n) || inp.renderSlotFree then n.spec
    else match PinnedToRunning(n, inp.liveSeidImage, inp.liveSidecarImage)
      case None => n.spec
      case Some(pinned) => pinned
  }

  function Render(n: Node, inp: Inputs): Node {
    n.(status := if RenderMayPin(n) && !inp.renderSlotFree then n.status.(updateInProgress := false) else n.status,
       history := n.history.(templatePinned := DriftRender(n, inp) != n.spec))
  }

  // ---- internal/planner/planner.go ----

  function Probed(n: Node, inp: Inputs): Node {
    if inp.probe.Some? && n.status.phase == Running then n.(status := n.status.(sidecarReady := inp.probe.value)) else n
  }

  /** handleTerminalPlan: an ended plan is cleared and ends any update. */
  function HandleTerminalPlan(n: Node): Node {
    if n.status.plan.Some? && !n.status.plan.value.phase.Active?
    then n.(status := n.status.(plan := None, updateInProgress := false)) else n
  }

  function SetUpdating(n: Node, updating: bool): Node { n.(status := n.status.(updateInProgress := updating)) }

  function Adopt(n: Node, p: TaskPlan): Node {
    n.(status := n.status.(
         plan := Some(p),
         phase := if n.status.phase == Unset || n.status.phase == Pending then Initializing else n.status.phase),
       history := n.history.(builtFrom := n.spec, plansBuilt := n.history.plansBuilt + 1))
  }

  /** The second half of ResolvePlan, on a node without a plan. */
  function PlanNext(n: Node, inp: Inputs): Node {
    if n.status.phase != Running && (inp.stateSyncBlocked || inp.peersBlocked) then n
    else if !inp.modeValid then n
    else match BuildPlan(n, n.history.plansBuilt)
      case NoPlan => n
      case BuildError => if n.status.phase == Running then SetUpdating(n, false) else n
      case Built(p, starts) =>
        if MountedConfigWriter(n.spec, p) then SetUpdating(n, false)
        else if PodTemplateDrifted(n.spec, n.status, n.platform) && IsNodeUpdatePlan(p) && !inp.planSlotFree then SetUpdating(n, false)
        else Adopt(if starts then SetUpdating(n, true) else n, p)
  }

  function ResolvePlan(n: Node, inp: Inputs): Node {
    var m := Probed(n, inp);
    if m.HasActivePlan() then m else PlanNext(HandleTerminalPlan(m), inp)
  }

  // ---- internal/controller/node/controller.go ----

  function ReconcileNode(n: Node, inp: Inputs): Node {
    var a := ResolveDataReset(n);
    if a.status.phase == Failed then a
    else
      var b := Render(a, inp);
      if b.spec.paused then b
      else
        var c := ResolvePlan(b, inp);
        if b.HasActivePlan() then ExecutePlan(c, inp.oracle) else c
  }

  // ---- the environment ----

  /** Spec edits, a new controller configuration, a MarkReady task from the
      SeiNodeTask controller, sidecar restarts, seid starting and exiting, and
      reconciles, in any order. */
  datatype Move =
    | EditSpec(spec: Spec)
    | EditPlatform(platform: Platform)
    | ExternalMarkReady
    | SidecarRestart
    | SeidStarts
    | SeidExits
    | ReconcileMove(inputs: Inputs)

  /** Admission lets the reset counter only rise; seid parks while the gate is closed. */
  predicate Enabled(n: Node, m: Move) {
    match m
    case EditSpec(s) => Admitted(s) && s.dataResetGeneration >= n.spec.dataResetGeneration
    case SeidStarts => n.sidecar.gateOpen
    case _ => true
  }

  function Edit(n: Node, s: Spec): Node {
    var m := n.(spec := s);
    if s.dataResetGeneration > n.spec.dataResetGeneration then m.Emit(CounterRaised(s.dataResetGeneration)) else m
  }

  function Apply(n: Node, m: Move): Node {
    match m
    case EditSpec(s) => Edit(n, s)
    case EditPlatform(p) => n.(platform := p)
    case ExternalMarkReady => if StartBlocked(n) then n else OpenGate(n, MarkReady)
    case SidecarRestart => n.(sidecar := n.sidecar.(gateOpen := false))
    case SeidStarts => n.(sidecar := n.sidecar.(seidRunning := true))
    case SeidExits => n.(sidecar := n.sidecar.(seidRunning := false))
    case ReconcileMove(inp) => ReconcileNode(n, inp)
  }

  function Run(n: Node, moves: seq<Move>): Node {
    if moves == [] then n else Apply(Run(n, moves[..|moves| - 1]), moves[|moves| - 1])
  }

  predicate Legal(n: Node, moves: seq<Move>) {
    moves == [] ||
    (Legal(n, moves[..|moves| - 1]) && Enabled(Run(n, moves[..|moves| - 1]), moves[|moves| - 1]))
  }

  /** A node as it is created: nothing observed, nothing recorded, gate closed. */
  predicate Created(n: Node) {
    && Admitted(n.spec)
    && (n.status.phase == Unset || n.status.phase == Pending)
    && n.status.dataResetGeneration == 0 && n.status.maintenanceHold == NoHold
    && n.status.plan == None && !n.status.updateInProgress
    && n.sidecar == Sidecar(false, false)
    && n.history.log == []
  }
}
