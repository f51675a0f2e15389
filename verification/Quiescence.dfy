/** Quiescence: with the spec fixed, tasks that do not fail, accurate probes and
    a free roll slot, a Running ConfigMap-configured node settles after at most
    three plans and stays settled. */
module Quiescence {
  import opened Options
  import opened NodeTypes
  import opened Executor
  import opened Builders
  import opened StaticPlans
  import opened Reconcile
  import opened Safety
  import opened Runs

  /** What the planner's Running arm looks at, besides the requested hold. */
  datatype Situation = Situation(pending: bool, have: Hold, gateOpen: bool, drifted: bool)

  function SituationOf(n: Node): Situation {
    Situation(DataResetPending(n), n.status.maintenanceHold, n.sidecar.gateOpen, PodTemplateDrifted(n.spec, n.status, n.platform))
  }

  /** Nothing is left to do: the hold in effect is the requested one and the gate is where it says. */
  predicate Settled(want: Hold, s: Situation) {
    !s.pending && s.have == want && s.gateOpen == (want == NoHold) && !s.drifted
  }

  /** How many plans it takes from a situation without a plan. */
  function Needed(want: Hold, s: Situation): nat {
    if s.pending then 1 + One(want == AfterExit)
    else if want != NoHold && s.have != NoHold && s.gateOpen then 1 + NeededClosed(want, s.have, s.drifted)
    else if want == NoHold then One(s.have != NoHold || s.drifted || !s.gateOpen)
    else NeededClosed(want, s.have, s.drifted)
  }

  /** The same under a requested hold once the gate is closed, or when none is in effect yet. */
  function NeededClosed(want: Hold, have: Hold, drifted: bool): nat {
    if want == have then One(drifted)
    else if want == AfterExit && have == Immediate then 1
    else 1 + One(drifted)
  }

  lemma NeededBounds(want: Hold, s: Situation)
    ensures Needed(want, s) <= 3
    ensures Needed(want, s) == 0 <==> Settled(want, s)
  {
  }

  /** A sidecar that restarts during a roll, or under a hold, adds no plan. */
  lemma ClosingAddsNoPlan(want: Hold, s: Situation)
    requires s.drifted || want != NoHold
    ensures Needed(want, s.(gateOpen := false)) <= Needed(want, s)
  {
  }

  /** What a completed step does to the situation, with the counter request at g. */
  function After(s: Situation, step: Step, g: int): Situation {
    match step.taskType
    case ObserveImage => s.(drifted := false)
    case MarkNotReady => s.(gateOpen := false)
    case MarkReady => s.(gateOpen := true)
    case StartSeidOnce => s.(gateOpen := true)
    case RecordDataReset => if step.params == Generation(g) then s.(pending := false) else s
    case RecordMaintenanceHold => if step.params.HoldInEffect? then s.(have := step.params.hold) else s
    case _ => s
  }

  function AfterAll(s: Situation, steps: seq<Step>, g: int): Situation
    decreases |steps|
  {
    if steps == [] then s else AfterAll(After(s, steps[0], g), steps[1..], g)
  }

  // ---- what each plan is worth ----

  lemma AfterCons(s: Situation, a: Step, rest: seq<Step>, g: int)
    ensures AfterAll(s, [a] + rest, g) == AfterAll(After(s, a, g), rest, g)
  {
    assert ([a] + rest)[1..] == rest;
  }

  lemma {:induction false} AfterConcat(s: Situation, a: seq<Step>, b: seq<Step>, g: int)
    ensures AfterAll(s, a + b, g) == AfterAll(AfterAll(s, a, g), b, g)
    decreases |a|
  {
    if a == [] {
      assert a + b == b;
    } else {
      AfterConcat(After(s, a[0], g), a[1..], b, g);
      assert (a + b)[1..] == a[1..] + b;
    }
  }

  lemma {:induction false} PreparatoryChangesNothing(s: Situation, steps: seq<Step>, g: int)
    requires forall i :: 0 <= i < |steps| ==> Preparatory(steps[i].taskType)
    ensures AfterAll(s, steps, g) == s
  {
    if steps != [] { PreparatoryChangesNothing(s, steps[1..], g); }
  }

  lemma After1(s: Situation, a: Step, g: int)
    ensures AfterAll(s, [a], g) == After(s, a, g)
  {
  }

  lemma After2(s: Situation, a: Step, b: Step, g: int)
    ensures AfterAll(s, [a, b], g) == After(After(s, a, g), b, g)
  {
    AfterConcat(s, [a], [b], g);
    After1(s, a, g);
    After1(After(s, a, g), b, g);
    assert [a, b] == [a] + [b];
  }

  lemma After3(s: Situation, a: Step, b: Step, c: Step, g: int)
    ensures AfterAll(s, [a, b, c], g) == After(After(After(s, a, g), b, g), c, g)
  {
    AfterConcat(s, [a, b], [c], g);
    After2(s, a, b, g);
    After1(After(After(s, a, g), b, g), c, g);
    assert [a, b, c] == [a, b] + [c];
  }

  lemma After5(s: Situation, a: Step, b: Step, c: Step, d: Step, e: Step, g: int)
    ensures AfterAll(s, [a, b, c, d, e], g) == After(After(After(After(After(s, a, g), b, g), c, g), d, g), e, g)
  {
    AfterConcat(s, [a, b, c], [d, e], g);
    After3(s, a, b, c, g);
    After2(After(After(After(s, a, g), b, g), c, g), d, e, g);
    assert [a, b, c, d, e] == [a, b, c] + [d, e];
  }

  /** The wipe plan leaves the gate closed, the template observed and the request handled. */
  lemma ResetBody(s: Situation, g: int)
    ensures AfterAll(s, [Todo(ObserveImage), Todo(MarkNotReady), Todo(StopSeid), Todo(ResetDataKeepSignState), Step(RecordDataReset, Generation(g))], g)
         == Situation(false, s.have, false, false)
  {
    After5(s, Todo(ObserveImage), Todo(MarkNotReady), Todo(StopSeid), Todo(ResetDataKeepSignState), Step(RecordDataReset, Generation(g)), g);
  }

  lemma ResetPays(s: Situation, g: int, want: Hold)
    requires s.pending
    ensures Needed(want, AfterAll(s, ResetStepsFor(g, want, s.have), g)) + 1 == Needed(want, s)
  {
    var body := [Todo(ObserveImage), Todo(MarkNotReady), Todo(StopSeid), Todo(ResetDataKeepSignState), Step(RecordDataReset, Generation(g))];
    var t := Situation(false, s.have, false, false);
    ResetBody(s, g);
    if want != NoHold {
      AfterConcat(s, body, [Recording(Immediate)], g);
      After1(t, Recording(Immediate), g);
    } else if s.have != NoHold {
      AfterConcat(s, body, [Todo(MarkReady), Recording(NoHold)], g);
      After2(t, Todo(MarkReady), Recording(NoHold), g);
    } else {
      AfterConcat(s, body, [Todo(MarkReady)], g);
      After1(t, Todo(MarkReady), g);
    }
  }

  /** Where moving the hold from have to want leaves the situation. */
  lemma HoldMoves(s: Situation, want: Hold, have: Hold, g: int)
    ensures AfterAll(s, HoldSteps(want, have), g)
         == Situation(s.pending, want, want == NoHold, s.drifted && want != NoHold && !(want == AfterExit && have == Immediate))
  {
    match want
    case Immediate => After3(s, Todo(MarkNotReady), Todo(StopSeid), Recording(want), g);
    case NoHold => After3(s, Todo(ObserveImage), Todo(MarkReady), Recording(want), g);
    case AfterExit =>
      if have == Immediate {
        After5(s, Todo(ObserveImage), Todo(StartSeidOnce), Todo(AwaitSeidStart), Todo(MarkNotReady), Recording(want), g);
      } else {
        After2(s, Todo(MarkNotReady), Recording(want), g);
      }
  }

  lemma HoldPays(s: Situation, g: int, want: Hold)
    requires !s.pending
    requires (want != NoHold && s.have != NoHold && s.gateOpen) || want != s.have
    ensures var reapply := want != NoHold && s.have != NoHold && s.gateOpen;
            var steps := if reapply then HoldSteps(s.have, NoHold) else HoldSteps(want, s.have);
            Needed(want, AfterAll(s, steps, g)) + 1 == Needed(want, s)
  {
    HoldMoves(s, s.have, NoHold, g);
    HoldMoves(s, want, s.have, g);
  }

  lemma UpdatePays(s: Situation, g: int, want: Hold, gates: seq<TaskType>)
    requires !s.pending && want == s.have && s.drifted && (want != NoHold ==> !s.gateOpen)
    requires AllPreparatory(gates)
    ensures Needed(want, AfterAll(s, UpdateSteps(gates, want == NoHold), g)) + 1 == Needed(want, s)
  {
    var steps := UpdateSteps(gates, want == NoHold);
    UpdateStepTypes(gates, want == NoHold);
    var a, b := steps[..|gates| + 2], steps[|gates| + 2..];
    assert steps == a + b;
    AfterConcat(s, a, b, g);
    PreparatoryChangesNothing(s, a, g);
    if want == NoHold {
      assert b == [steps[|gates| + 2], steps[|gates| + 3]];
      After2(s, b[0], b[1], g);
    } else {
      assert b == [steps[|gates| + 2]] + [];
      AfterCons(s, b[0], [], g);
    }
  }

  /** The probe the planner reads agrees with the gate. */
  predicate ProbeAccurate(n: Node) {
    n.status.sidecarReady == if n.sidecar.gateOpen then SidecarReady else SidecarNotReady
  }

  /** A plan is built exactly when one is needed, and its steps are worth one plan. */
  lemma PlanPays(n: Node)
    requires n.spec.nodeConfig && ProbeAccurate(n)
    ensures RunningStepsOf(n).None? ==> Settled(n.spec.hold, SituationOf(n))
    ensures RunningStepsOf(n).Some? ==>
              Needed(n.spec.hold, AfterAll(SituationOf(n), RunningStepsOf(n).value, n.spec.dataResetGeneration)) + 1
              == Needed(n.spec.hold, SituationOf(n))
    ensures Settled(n.spec.hold, SituationOf(n)) ==> RunningStepsOf(n).None?
  {
    var s, g, want := SituationOf(n), n.spec.dataResetGeneration, n.spec.hold;
    if s.pending {
      ResetPays(s, g, want);
    } else if HoldMove(n).Some? {
      HoldPays(s, g, want);
    } else if s.drifted {
      KeyGatesPreparatory(n.spec);
      UpdatePays(s, g, want, KeyGates(n.spec));
    } else if n.status.sidecarReady == SidecarNotReady && want == NoHold {
      AfterCons(s, Todo(MarkReady), [], g);
      assert [Todo(MarkReady)] == [Todo(MarkReady)] + [];
    }
  }

  // ---- a roll ends before the mark-ready that follows it ----

  predicate MarkReadyIn(steps: seq<Step>) { exists i :: 0 <= i < |steps| && steps[i].taskType == MarkReady }

  /** While the pod still has to roll, its observation and a later mark-ready are ahead. */
  predicate Covered(rest: seq<Step>, drifted: bool)
    decreases |rest|
  {
    drifted ==>
      rest != [] && if rest[0].taskType == ObserveImage then MarkReadyIn(rest[1..])
                    else rest[0].taskType != MarkReady && Covered(rest[1..], true)
  }

  lemma {:induction false} CoveredMarksReady(rest: seq<Step>)
    requires Covered(rest, true)
    ensures MarkReadyIn(rest)
    decreases |rest|
  {
    if rest[0].taskType != ObserveImage { CoveredMarksReady(rest[1..]); }
    var i :| 0 <= i < |rest[1..]| && rest[1..][i].taskType == MarkReady;
    assert rest[i + 1] == rest[1..][i];
  }

  /** A later mark-ready forgets where the gate was. */
  lemma {:induction false} GateForgotten(s: Situation, rest: seq<Step>, g: int)
    requires MarkReadyIn(rest)
    ensures AfterAll(s.(gateOpen := false), rest, g) == AfterAll(s, rest, g)
    decreases |rest|
  {
    var i :| 0 <= i < |rest| && rest[i].taskType == MarkReady;
    if i > 0 {
      var t := After(s, rest[0], g);
      assert rest[1..][i - 1] == rest[i];
      GateForgotten(t, rest[1..], g);
      assert After(s.(gateOpen := false), rest[0], g) == t || After(s.(gateOpen := false), rest[0], g) == t.(gateOpen := false);
    }
  }

  lemma {:induction false} ClosingEarly(s: Situation, rest: seq<Step>, g: int)
    ensures AfterAll(s.(gateOpen := false), rest, g) == AfterAll(s, rest, g)
         || AfterAll(s.(gateOpen := false), rest, g) == AfterAll(s, rest, g).(gateOpen := false)
    decreases |rest|
  {
    if rest != [] {
      var t := After(s, rest[0], g);
      ClosingEarly(t, rest[1..], g);
      assert After(s.(gateOpen := false), rest[0], g) == t || After(s.(gateOpen := false), rest[0], g) == t.(gateOpen := false);
    }
  }

  lemma {:induction false} CoveredAfterPreparation(a: seq<Step>, b: seq<Step>)
    requires forall i :: 0 <= i < |a| ==> Preparatory(a[i].taskType)
    ensures Covered(b, true) ==> Covered(a + b, true)
    decreases |a|
  {
    if a == [] {
      assert a + b == b;
    } else {
      CoveredAfterPreparation(a[1..], b);
      assert (a + b)[1..] == a[1..] + b;
    }
  }

  /** The plans built with no hold requested cover their roll. */
  lemma BuiltCovered(n: Node)
    requires n.spec.hold == NoHold && RunningStepsOf(n).Some?
    ensures Covered(RunningStepsOf(n).value, SituationOf(n).drifted)
  {
    var steps := RunningStepsOf(n).value;
    if SituationOf(n).drifted {
      if DataResetPending(n) {
        assert steps[1..][4].taskType == MarkReady;
      } else if HoldMove(n).Some? {
        assert steps[1..][0].taskType == MarkReady;
      } else {
        var gates := KeyGates(n.spec);
        KeyGatesPreparatory(n.spec);
        UpdateStepTypes(gates, true);
        var a, b := steps[..|gates| + 2], steps[|gates| + 2..];
        assert steps == a + b;
        assert b[1..][0].taskType == MarkReady;
        CoveredAfterPreparation(a, b);
      }
    }
  }

  // ---- executing a plan under quiet outcomes ----

  ghost predicate Succeeding(o: Oracle) { forall k :: o(k) == Done || o(k) == StillRunning }

  /** The rest of a plan leads to a situation that needs at most r more plans. */
  predicate Heading(n: Node, rest: seq<Step>, r: nat) {
    && Needed(n.spec.hold, AfterAll(SituationOf(n), rest, n.spec.dataResetGeneration)) <= r
    && (n.spec.hold == NoHold ==> Covered(rest, SituationOf(n).drifted))
  }

  function Rest(p: TaskPlan): seq<Step> { StepsOf(p.tasks)[FirstIncomplete(p.tasks)..] }

  lemma EffectSituation(n: Node, p: TaskPlan, t: PlannedTask)
    requires t.taskType == RecordDataReset ==> t.params == Generation(n.spec.dataResetGeneration)
    ensures SituationOf(TaskEffect(n, p, t)) == After(SituationOf(n), Step(t.taskType, t.params), n.spec.dataResetGeneration)
  {
  }

  /** A plan built from the current spec records the counter it asks for. */
  lemma RecordsRequested(n: Node, p: TaskPlan, k: nat)
    requires Progress(n, p, k) && n.status.phase == Running && n.history.builtFrom == n.spec
    requires k < |p.tasks| && p.tasks[k].taskType == RecordDataReset
    ensures p.tasks[k].params == Generation(n.spec.dataResetGeneration)
  {
    assert StepsOf(p.tasks)[k] == Step(p.tasks[k].taskType, p.tasks[k].params);
  }

  /** Under a quiet outcome the current task completes or stays. */
  lemma AttemptVerdict(n: Node, p: TaskPlan, o: Outcome)
    requires Executable(n, p) && n.status.phase == Running && n.history.builtFrom == n.spec
    requires FirstIncomplete(p.tasks) < |p.tasks| && (o == Done || o == StillRunning)
    ensures var v := Judge(n, p.tasks[FirstIncomplete(p.tasks)], o);
            (v.Completes? || v.Stays?) && (o == Done ==> v.Completes?)
  {
    hide Base, Progress, TasksInvariant;
    var k := FirstIncomplete(p.tasks);
    if IsStartTask(p.tasks[k].taskType) { GuardPassesUnedited(n, p, k); }
  }

  lemma AttemptSituation(n: Node, p: TaskPlan, t: PlannedTask, o: Outcome)
    requires t.taskType == RecordDataReset ==> t.params == Generation(n.spec.dataResetGeneration)
    requires o == Done || o == StillRunning
    requires Judge(n, t, o).Completes? || Judge(n, t, o).Stays?
    ensures SituationOf(StepWorld(n, p, t, o)) ==
            if Judge(n, t, o).Completes?
            then After(SituationOf(n), Step(t.taskType, t.params), n.spec.dataResetGeneration) else SituationOf(n)
  {
    var m := Submitted(n, t.taskType, o);
    EffectSituation(m, p, t);
    assert SituationOf(m) == SituationOf(n) && m.spec == n.spec;
  }

  /** One attempt: it completes and takes its step off the rest, or changes nothing. */
  lemma AttemptHeads(n: Node, m: Node, rest: seq<Step>, completes: bool, r: nat)
    requires Heading(n, rest, r) && rest != [] && m.spec == n.spec
    requires SituationOf(m) == if completes then After(SituationOf(n), rest[0], n.spec.dataResetGeneration) else SituationOf(n)
    ensures Heading(m, if completes then rest[1..] else rest, r)
  {
  }

  lemma StepPlanRest(p: TaskPlan, v: Verdict)
    requires Advancing(p) && FirstIncomplete(p.tasks) < |p.tasks| && !v.Fails? && !v.Retries?
    ensures Rest(StepPlan(p, FirstIncomplete(p.tasks), v)) == if v.Completes? then Rest(p)[1..] else Rest(p)
  {
    var k := FirstIncomplete(p.tasks);
    StepPlanKeeps(p, k, v);
    StepPlanInvariant(p, v);
    assert StepsOf(StepPlan(p, k, v).tasks) == StepsOf(p.tasks);
  }

  /** p may run here, was built from this spec, and leaves at most r more plans to build. */
  predicate Bound(n: Node, p: TaskPlan, r: nat) {
    && Executable(n, p) && n.status.phase == Running && n.history.builtFrom == n.spec
    && Heading(n, Rest(p), r)
  }

  lemma AttemptBound(n: Node, p: TaskPlan, o: Outcome, r: nat)
    requires Bound(n, p, r) && FirstIncomplete(p.tasks) < |p.tasks| && (o == Done || o == StillRunning)
    ensures var (m, q) := Advance(n, p, FirstIncomplete(p.tasks), o);
            m.status.phase == Running && q.phase == p.phase && Heading(m, Rest(q), r)
  {
    var k := FirstIncomplete(p.tasks);
    var v := Judge(n, p.tasks[k], o);
    AttemptVerdict(n, p, o);
    if p.tasks[k].taskType == RecordDataReset { RecordsRequested(n, p, k); }
    AttemptSituation(n, p, p.tasks[k], o);
    AdvanceFrame(n, p, k, o);
    AttemptHeads(n, Advance(n, p, k, o).0, Rest(p), v.Completes?, r);
    StepPlanRest(p, v);
    StepPlanKeeps(p, k, v);
  }

  lemma CompletedStaysBound(n: Node, p: TaskPlan, o: Outcome, r: nat)
    requires Bound(n, p, r) && FirstIncomplete(p.tasks) < |p.tasks| && (o == Done || o == StillRunning)
    requires Judge(n, p.tasks[FirstIncomplete(p.tasks)], o).Completes?
    ensures var (m, q) := Advance(n, p, FirstIncomplete(p.tasks), o); Bound(m, q, r)
  {
    CompletedStaysExecutable(n, p, o);
    AdvanceFrame(n, p, FirstIncomplete(p.tasks), o);
    AttemptBound(n, p, o, r);
  }

  /** Execution keeps the heading and fails nothing. */
  lemma {:induction false} ExecuteHeads(n: Node, p: TaskPlan, o: Oracle, r: nat)
    requires Bound(n, p, r) && Succeeding(o)
    ensures var (m, q) := ExecuteFrom(n, p, o);
            m.status.phase == Running && !q.phase.PlanFailed? && Heading(m, Rest(q), r)
    decreases |p.tasks| - FirstIncomplete(p.tasks)
  {
    var k := FirstIncomplete(p.tasks);
    if k == |p.tasks| {
      assert SituationOf(FinishPlan(n, p).0) == SituationOf(n);
    } else {
      CompletesIffStatus(n, p, o(k));
      AttemptBound(n, p, o(k), r);
      if Judge(n, p.tasks[k], o(k)).Completes? {
        CompletedStaysBound(n, p, o(k), r);
        FrontierMoves(p, Completes);
        var (m, q) := Advance(n, p, k, o(k));
        ExecuteHeads(m, q, o, r);
      }
    }
  }

  // ---- quiet runs ----

  /** The probe answers what the gate says, the mode builds and the roll slot is free. */
  predicate Calm(n: Node, inp: Inputs) {
    && inp.probe == Some(if n.sidecar.gateOpen then SidecarReady else SidecarNotReady)
    && inp.modeValid && inp.renderSlotFree && inp.planSlotFree
  }

  /** Reconciles whose tasks do not fail, seid starting and exiting, and a
      sidecar restart while the pod template is still rolling. */
  ghost predicate Quiet(n: Node, m: Move) {
    match m
    case ReconcileMove(inp) => Calm(n, inp) && Succeeding(inp.oracle)
    case SidecarRestart => PodTemplateDrifted(n.spec, n.status, n.platform)
    case SeidStarts => n.sidecar.gateOpen
    case SeidExits => true
    case _ => false
  }

  ghost predicate QuietRun(n: Node, moves: seq<Move>) {
    moves == [] ||
    (QuietRun(n, moves[..|moves| - 1]) && Quiet(Run(n, moves[..|moves| - 1]), moves[|moves| - 1]))
  }

  /** A reachable Running, unpaused node that will build at most r more plans. */
  predicate Settling(n: Node, r: nat) {
    && Inv(n) && n.status.phase == Running && !n.spec.paused
    && if n.HasActivePlan() then n.history.builtFrom == n.spec && Heading(n, Rest(n.status.plan.value), r)
       else Needed(n.spec.hold, SituationOf(n)) <= r
  }

  lemma AdoptedHeads(n: Node, p: TaskPlan)
    requires n.spec.nodeConfig && ProbeAccurate(n) && Fresh(p)
    requires RunningStepsOf(n) == Some(StepsOf(p.tasks))
    ensures Needed(n.spec.hold, SituationOf(n)) > 0
    ensures Heading(Adopt(n, p), Rest(p), Needed(n.spec.hold, SituationOf(n)) - 1)
  {
    PlanPays(n);
    FirstIncompleteIs(p.tasks, 0);
    assert Rest(p) == StepsOf(p.tasks);
    assert SituationOf(Adopt(n, p)) == SituationOf(n);
    if n.spec.hold == NoHold { BuiltCovered(n); }
  }

  /** What a calm planner does on a node without an active plan. */
  predicate IdleOutcome(n: Node, m: Node) {
    var need := Needed(n.spec.hold, SituationOf(n));
    && m.spec == n.spec
    && if need == 0 then m.status.plan == None && m.history.plansBuilt == n.history.plansBuilt && Settling(m, 0)
       else m.HasActivePlan() && m.history.plansBuilt == n.history.plansBuilt + 1 && Settling(m, need - 1)
  }

  /** Without a plan, a calm planner either rests or adopts a plan worth one. */
  lemma PlanNextSettles(n: Node, inp: Inputs)
    requires Inv(n) && n.status.plan == None && n.status.phase == Running && !n.spec.paused
    requires ProbeAccurate(n) && Calm(n, inp)
    ensures IdleOutcome(n, PlanNext(n, inp))
  {
    hide SafeLog, OpenResetsPending, CountsAgree, Progress, PlanInvariant, Needed, NeededClosed, AfterAll;
    var id := n.history.plansBuilt;
    PlanPays(n);
    NeededBounds(n.spec.hold, SituationOf(n));
    RunningPlanIs(n, id);
    PlanNextSafe(n, inp);
    var b := BuildPlan(n, id);
    if b.Built? {
      var m := if b.startsUpdate then SetUpdating(n, true) else n;
      assert SituationOf(m) == SituationOf(n) && RunningStepsOf(m) == RunningStepsOf(n);
      NoRefusalWhenAdmitted(n, id);
      AdoptedHeads(m, b.plan);
    }
  }

  lemma RestartSettles(n: Node, r: nat)
    requires Settling(n, r) && PodTemplateDrifted(n.spec, n.status, n.platform)
    ensures Settling(n.(sidecar := n.sidecar.(gateOpen := false)), r)
  {
    var m := n.(sidecar := n.sidecar.(gateOpen := false));
    var s, g, want := SituationOf(n), n.spec.dataResetGeneration, n.spec.hold;
    SidecarMoveSafe(n, m.sidecar);
    assert SituationOf(m) == s.(gateOpen := false);
    if n.HasActivePlan() {
      var rest := Rest(n.status.plan.value);
      if want == NoHold {
        CoveredMarksReady(rest);
        GateForgotten(s, rest, g);
      } else {
        ClosingEarly(s, rest, g);
        ClosingAddsNoPlan(want, AfterAll(s, rest, g));
      }
    } else {
      ClosingAddsNoPlan(want, s);
    }
  }

  /** A calm render and probe change nothing the situation reads. */
  lemma CalmPrefix(n: Node, inp: Inputs)
    requires Inv(n) && n.status.phase == Running && !n.spec.paused && Calm(n, inp)
    ensures var m := Probed(Render(n, inp), inp);
            && ReconcileNode(n, inp) == (if n.HasActivePlan() then ExecutePlan(m, inp.oracle) else PlanNext(HandleTerminalPlan(m), inp))
            && Inv(m) && ProbeAccurate(m) && !m.history.templatePinned && SituationOf(m) == SituationOf(n)
            && m.spec == n.spec && m.status.plan == n.status.plan && m.status.phase == Running
            && m.history == n.history.(templatePinned := false)
  {
    assert ResolveDataReset(n) == n;
    ReconcileIs(n, inp);
    RenderSafe(n, inp);
    ProbeSafe(Render(n, inp), inp);
  }

  lemma StoreSettles(m: Node, q: TaskPlan, r: nat)
    requires PlanInvariant(q) && !q.phase.PlanFailed? && Heading(m, Rest(q), r)
    requires Inv(m.(status := m.status.(plan := Some(q)))) && m.status.phase == Running && !m.spec.paused
    requires m.history.builtFrom == m.spec
    ensures Settling(m.(status := m.status.(plan := Some(q))), r)
  {
    var w := m.(status := m.status.(plan := Some(q)));
    assert SituationOf(w) == SituationOf(m);
    if q.phase.PlanComplete? { assert Rest(q) == []; }
  }

  lemma ExecuteSettles(b: Node, o: Oracle, r: nat)
    requires Settling(b, r) && b.HasActivePlan() && !b.history.templatePinned && Succeeding(o)
    ensures var m := ExecutePlan(b, o);
            Settling(m, r) && m.spec == b.spec && m.history.plansBuilt == b.history.plansBuilt
  {
    var p := b.status.plan.value;
    ActiveIsExecutable(b);
    ExecuteHeads(b, p, o, r);
    ExecuteFrame(b, p, o);
    ExecutePlanSafe(b, o);
    ExecuteFromInvariant(b, p, o);
    StoreSettles(ExecuteFrom(b, p, o).0, ExecuteFrom(b, p, o).1, r);
  }

  lemma CalmSettles(n: Node, inp: Inputs, r: nat)
    requires Settling(n, r) && n.HasActivePlan() && Calm(n, inp)
    ensures var b := Probed(Render(n, inp), inp);
            && ReconcileNode(n, inp) == ExecutePlan(b, inp.oracle)
            && Settling(b, r) && b.HasActivePlan() && !b.history.templatePinned
            && b.spec == n.spec && b.history.plansBuilt == n.history.plansBuilt
  {
    CalmPrefix(n, inp);
  }

  lemma ActiveReconcileSettles(n: Node, inp: Inputs, r: nat)
    requires Settling(n, r) && n.HasActivePlan() && Calm(n, inp) && Succeeding(inp.oracle)
    ensures var m := ReconcileNode(n, inp);
            Settling(m, r) && m.spec == n.spec && m.history.plansBuilt == n.history.plansBuilt
  {
    CalmSettles(n, inp, r);
    ExecuteSettles(Probed(Render(n, inp), inp), inp.oracle, r);
  }

  lemma IdleOutcomeSame(n: Node, c: Node, m: Node)
    requires SituationOf(n) == SituationOf(c) && n.spec == c.spec && n.history.plansBuilt == c.history.plansBuilt
    requires IdleOutcome(c, m)
    ensures IdleOutcome(n, m)
  {
  }

  lemma ClearedIdle(b: Node, inp: Inputs)
    requires Inv(b) && b.status.phase == Running && !b.spec.paused && !b.HasActivePlan()
    requires ProbeAccurate(b) && Calm(b, inp)
    ensures IdleOutcome(b, PlanNext(HandleTerminalPlan(b), inp))
  {
    var c := HandleTerminalPlan(b);
    ClearSafe(b);
    assert SituationOf(c) == SituationOf(b);
    PlanNextSettles(c, inp);
    IdleOutcomeSame(b, c, PlanNext(c, inp));
  }

  lemma IdleReconcileSettles(n: Node, inp: Inputs)
    requires Inv(n) && n.status.phase == Running && !n.spec.paused && !n.HasActivePlan() && Calm(n, inp)
    ensures IdleOutcome(n, ReconcileNode(n, inp))
  {
    CalmPrefix(n, inp);
    ClearedIdle(Probed(Render(n, inp), inp), inp);
    IdleOutcomeSame(n, Probed(Render(n, inp), inp), ReconcileNode(n, inp));
  }

  /** Each quiet move keeps plans built plus plans still needed within the bound. */
  lemma QuietMoveSettles(n: Node, m: Move, r: nat)
    requires Settling(n, r) && Quiet(n, m)
    ensures var q := Apply(n, m);
            && n.history.plansBuilt <= q.history.plansBuilt <= n.history.plansBuilt + r
            && Settling(q, r - (q.history.plansBuilt - n.history.plansBuilt)) && q.spec == n.spec
  {
    match m
    case ReconcileMove(inp) =>
      if n.HasActivePlan() { ActiveReconcileSettles(n, inp, r); } else { IdleReconcileSettles(n, inp); }
    case SidecarRestart => RestartSettles(n, r);
    case SeidStarts => SidecarMoveSafe(n, n.sidecar.(seidRunning := true));
    case SeidExits => SidecarMoveSafe(n, n.sidecar.(seidRunning := false));
  }

  // ---- the theorems ----

  /** From any reachable situation of a Running node without a plan, every quiet
      run builds at most as many plans as needed, which is never more than three. */
  lemma {:induction false} AtMostThreePlans(n: Node, moves: seq<Move>)
    requires Inv(n) && n.status.phase == Running && !n.spec.paused && !n.HasActivePlan()
    requires QuietRun(n, moves)
    ensures var m, need := Run(n, moves), Needed(n.spec.hold, SituationOf(n));
            && n.history.plansBuilt <= m.history.plansBuilt <= n.history.plansBuilt + need <= n.history.plansBuilt + 3
            && Settling(m, need - (m.history.plansBuilt - n.history.plansBuilt)) && m.spec == n.spec
    decreases |moves|
  {
    NeededBounds(n.spec.hold, SituationOf(n));
    if moves != [] {
      AtMostThreePlans(n, moves[..|moves| - 1]);
      var b := Run(n, moves[..|moves| - 1]);
      QuietMoveSettles(b, moves[|moves| - 1], Needed(n.spec.hold, SituationOf(n)) - (b.history.plansBuilt - n.history.plansBuilt));
    }
  }

  /** A calm planner that builds nothing has nothing to do: the recorded hold is
      the requested one and the gate is open exactly when there is none. */
  lemma RestsOnlyWhenSettled(n: Node, inp: Inputs)
    requires Inv(n) && n.status.phase == Running && !n.spec.paused && !n.HasActivePlan() && Calm(n, inp)
    ensures !ReconcileNode(n, inp).HasActivePlan() <==> Settled(n.spec.hold, SituationOf(n))
  {
    IdleReconcileSettles(n, inp);
    NeededBounds(n.spec.hold, SituationOf(n));
  }

  /** Running, unpaused, reachable, without an active plan, and settled. */
  predicate AtRest(n: Node) {
    && Inv(n) && n.status.phase == Running && !n.spec.paused && !n.HasActivePlan()
    && Settled(n.spec.hold, SituationOf(n))
  }

  lemma RestMove(n: Node, m: Move)
    requires AtRest(n) && Quiet(n, m)
    ensures AtRest(Apply(n, m)) && Apply(n, m).history.plansBuilt == n.history.plansBuilt
  {
    NeededBounds(n.spec.hold, SituationOf(n));
    NeededBounds(n.spec.hold, SituationOf(Apply(n, m)));
    match m
    case ReconcileMove(inp) => IdleReconcileSettles(n, inp);
    case SeidStarts => SidecarMoveSafe(n, n.sidecar.(seidRunning := true));
    case SeidExits => SidecarMoveSafe(n, n.sidecar.(seidRunning := false));
  }

  /** A settled node without a plan stays so through every quiet run. */
  lemma {:induction false} StaysSettled(n: Node, moves: seq<Move>)
    requires AtRest(n) && QuietRun(n, moves)
    ensures AtRest(Run(n, moves)) && Run(n, moves).history.plansBuilt == n.history.plansBuilt
    decreases |moves|
  {
    if moves != [] {
      StaysSettled(n, moves[..|moves| - 1]);
      RestMove(Run(n, moves[..|moves| - 1]), moves[|moves| - 1]);
    }
  }
}
