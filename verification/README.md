# Verified model of the sei-k8s-controller

Three cores of the controller, modelled in Dafny with their main promises proved
for every input, every state or every run.

**A. The plan state machine.** A SeiNode is a value: spec, status with its stored
plan, platform configuration, the sidecar's start gate with the seid process
behind it, and an event log. A reconcile is one atomic step (resolve the reset
counter, render the StatefulSet, resolve the plan, execute a plan that was
already active). Between reconciles come spec edits, platform changes, MarkReady
tasks of the SeiNodeTask controller, sidecar restarts and seid starting or
exiting, in any order. Every answer of the outside world is an `Outcome`, so a
statement over runs ranges over all of them.

- `NodeTypes.dfy`, `Executor.dfy`: the node, the executor (functions, and class
  `NodeObject` whose methods change the object in place and are proved equal to them).
- `Attempts.dfy`: what every answer to an attempt does, and how many failures a task survives.
- `Builders.dfy`, `PlanProperties.dfy`, `StaticPlans.dfy`, `PlanContents.dfy`: every plan
  builder, what its plans look like, and exactly which tasks they hold.
- `Reconcile.dfy`, `Safety.dfy`, `Runs.dfy`: the reconcile, the moves, the
  invariant, the safety theorems over every legal run.
- `Resolution.dfy`: when a plan is adopted, when an update begins and ends, what a
  waiting node is rendered from.
- `PersistedPlans.dfy`, `Folding.dfy`: what every stored plan keeps over runs, and
  how many resets the raises of the counter can still cost.
- `Quiescence.dfy`, `Liveness.dfy`: with quiet inputs a node needs at most three
  plans, and reconciles that make headway settle it.
- `DriftBudget.dfy`: roll slots of a namespace over every run of starts, ends, drift
  and membership changes, and pinning. `Namespace.dfy`: the same for many nodes that
  reconcile, each told about its slot as computed from the listed statuses.

**B. The hash-log comparison.** `HashLog.dfy` is a node's log and the sidecar
endpoints that serve it. The schedule of appends, seals, new files, removals and failures is a
script that advances before each look the server takes, so every interleaving is
some script; a listing takes two looks, the directory read and the lookup of its
entries. `Tailing.dfy` says what an exact cursor is, `HashLogReader.dfy` is the
reader as a class, `TailingRuns.dfy` two runs that lose rows, `Comparator.dfy` the pair state,
`PairRunner.dfy` the runner that owns two readers and a pair state,
`ComparatorProperties.dfy` and `StreamingJoin.dfy` what they find over a run.

**C. The config overlay.** `OverlayTree.dfy` has the partial merge and its laws,
`OverlayBuild.dfy` the loops that refine it, `OverlayKeys.dfy` the paths of dotted keys,
`JsonNumber.dfy` (over `Decimal.dfy`) the
canonical spelling of numbers in section 6 of RFC 8259, `ConfigHash.dfy` the hash
input. `Peering.dfy` models peer resolution. `Orders.dfy` states sorting, compaction
and map iteration in arbitrary order.

## Idealisations

- A plan's ID is a counter, and a task ID is the tuple (plan, type, position): the
  deterministic UUID is taken as injective. `json.Marshal` of a canonical tuple is an
  injective function parameter, and the SHA-256 over it is not modelled further.
- A submitted mark-ready or start-seid-once opens the gate at once, also when its
  answer was lost (`ExecError(landed)`). A completed mark-not-ready closes it.
- Heights are at least 1, node IDs are non-empty without `@`, configValues keys are
  non-empty, names in a namespace are unique. These are what admission, the chain and
  Kubernetes give.
- A hash-log file that was removed does not come back. Line and header parsing are
  function parameters of the reader.

## Where a promise does not hold as stated

- *A namespace never has more nodes rolling than there are slots.* A config update
  starts rolling without asking for a slot and is then counted as rolling, so two
  edited nodes overfill one slot; a node leaving the count can shrink the slots under
  those rolling. `DriftBudget.ConfigUpdatesOverfill` is such a run, in which a drift
  start is even granted over full slots. `DriftBudget.SlotsHoldIff` is exact for every
  run: the slots hold throughout if and only if every config start and every change of
  membership finds room. Drift starts alone never overfill
  (`DriftBudget.DriftStartsNeverOverfill`). `Namespace.NamespaceHoldsIff` says the same of
  nodes that reconcile, and `Namespace.MountedNamespaceHolds` has the promise for
  nodes that all mount their config while the counted nodes stay.
- *ResolvePlan's refusal of a plan that writes a mounted config is never reached.*
  It is reached for exactly one kind of spec, which admission rejects:
  `StaticPlans.RefusalIsExactlyTheCeremony`.
- *Each height is compared at most once* needs heights of at least 1: the zero value
  of `lastCompared` means "none yet". A height is compared twice in some run if and
  only if it is zero or less: `ComparatorProperties.TwiceIffNotPositive`.
- *Each entry reads back at its dotted path* holds literally for leaf values. Another
  entry may add names below a table: `OverlayBuild.TableMayNotReadBack`. A table
  reads back unchanged if and only if no other entry adds anything below its path,
  and in any case the merged node contains it: `OverlayBuild.EntryReadsBack`.
- *Tailing loses no row of a log that is only renamed and appended to.* A listing
  leaves out a file that is sealed between the directory read and its lookup. That
  does no harm while only the last file of the directory is open: the reader waits
  (`HashLogReader.OneOpenSkipsNothing`), and a file sealed under the reader always
  shows (`HashLogReader.FollowsExactly`). With two files open at once it can be passed
  over (`HashLogReader.PassesOverIff`), and `TailingRuns.LosingRun` is such a run.
  `HashLogReader.Tail` is exact for every schedule: the whole log is read if and only
  if no file the reader gave up (passed over, or removed before it was reached) holds a
  line or a torn tail, and the next item does not apply.
- *A reader that starts near the tip finds its first line.* It does unless the file
  is sealed before any line ends after the start offset; then the reader never leaves
  that file (`HashLogReader.UnboundedIsStuck`, and `TailingRuns.StuckRun` is such a
  run). Rows shorter than the backtrack exclude it (`HashLogReader.ShortRowsAreBounded`).

## Model

| member | source | states |
|---|---|---|
| `Executor.TotalBackoffTable` | internal/planner/executor.go:242-255 | N retries wait 10 s for N = 1 and 10 + 20 + 30(N - 2) s beyond, for every N |
| `Executor.StepPlanInvariant` | internal/planner/executor.go:140-240 | one verdict keeps the plan invariant: completion moves the frontier by exactly one, failure names the current task, anything else leaves it |
| `Executor.UniqueIDs` | internal/planner/planner.go:622-640 | with position-indexed IDs the lookup by ID finds the very task |
| `Executor.ExecuteFromInvariant` | internal/planner/executor.go:88-138 | for every plan and outcome sequence: a Complete prefix, one current task, an untouched Pending suffix; Complete iff all tasks are; a failed index is the current task's; retry counts stay within budget |
| `Executor.ExecutePlanInvariant` | internal/planner/executor.go:71-138 | the same for the plan stored in a node, whatever its phase |
| `Executor.NodeObject.CurrentTask` | internal/planner/executor.go:58-67 | the first task that is not Complete |
| `Executor.NodeObject.FindByID` | internal/planner/executor.go:212-240 | the first task with an ID |
| `Executor.PhaseFollowsPlan` | internal/planner/executor.go:96-138 | for every outcome sequence the node ends in TargetPhase if the plan completed, in FailedPhase if it failed, in the phase it had otherwise, and an empty target leaves it |
| `Executor.NodeObject.ObserveRollout` | internal/task/observe_image.go:53-85 | stamps the observed fields, after which the pod template no longer drifts |
| `Executor.NodeObject.RecordDataResetTask` | internal/task/record_data_reset.go:45-55 | raises the handled counter and never lowers it |
| `Executor.NodeObject.FailTask` | internal/planner/executor.go:212-240 | the task and plan fail, the index found by ID, the node takes FailedPhase |
| `Executor.NodeObject.AdvanceTask` | internal/planner/executor.go:140-210 | one attempt at the current task, branch by branch as in the source, equal to the specification for every outcome; `Attempts.AnswerDecides` says what that is |
| `Attempts.AnswerDecides` | internal/planner/executor.go:140-210 | for every task and answer: the task completes, the plan fails naming it with its error and retry count, or the task stays Pending, each exactly when stated from the raw answer; only a failed attempt of a tracked task with retries left counts, by one |
| `Attempts.SurvivesItsBudget` | internal/planner/executor.go:186-205 | over any executions, whatever slow or lost answers come between, a tracked task with N retries left survives N failed attempts and not one more; then the plan fails naming it |
| `Attempts.HashFollowsPlan` | internal/planner/executor.go:96-118 | the observed config changes only when a plan completes, to the one it was built for |
| `Executor.NodeObject.Execute` | internal/planner/executor.go:88-138 | the loop over the plan equals the specification and keeps the plan invariant |
| `Builders.FreshPlanInvariant` | internal/planner/planner.go:656-701 | an all-Pending plan with position-indexed IDs satisfies the executor's invariant with its first task current |
| `Builders.SpliceOverlay` | internal/planner/config_overlay.go:82-93 | the loop that inserts the overlay and renumbers, proved against its specification |
| `PlanProperties.SpliceAt` | internal/planner/config_overlay.go:82-93 | the spliced list position by position: the patch before config-validate, everything else in order under the ID of its final position |
| `PlanProperties.SplicedPlan` | internal/planner/config_overlay.go:64-99 | the overlay is the last config writer, precedes validation, pod replacement, restart and mark-ready, and deleting it restores the task types |
| `PlanProperties.SidecarProgressionIs` | internal/planner/planner.go:456-486 | the inserted genesis and state-sync steps land where each snapshot source needs them, and insertion never fails |
| `PlanProperties.AssembleUpdatePlanIs` | internal/planner/planner.go:1003-1073 | the update and config-update plans, with base regeneration when the observed config is missing or stale |
| `PlanProperties.OverlayIsLastWrite` | internal/planner/config_overlay.go:62-99 | in every init, genesis, update and config-update plan with an overlay it is the last write; without it the plan is the one the node would get, and every ID names its position |
| `PlanProperties.FinishedUpdateClearsConfigDrift` | internal/planner/executor.go:96-118 | after a completed update configValues drift if and only if the spec was edited since the plan was built |
| `StaticPlans.ParkKeeps` | internal/planner/maintenance.go:108-121 | parking never fails on a plan that ends in mark-ready and changes only its ending |
| `StaticPlans.ClearKeeps` | internal/planner/maintenance.go:127-139 | clearing the hold never fails there and appends one record |
| `StaticPlans.ResetPlanIs` | internal/planner/data_reset.go:38-72 | observe, close the gate, stop, wipe, record, then release or park, for every hold requested and in effect |
| `StaticPlans.HoldStepsFit` | internal/planner/maintenance.go:47-78 | for every hold wanted and in effect the steps wipe nothing, close every start before the record, and release only when no hold is wanted |
| `Quiescence.HoldMoves` | internal/planner/maintenance.go:47-78 | carried out, they leave the wanted hold recorded and the gate open exactly when none is wanted, for all nine pairs |
| `StaticPlans.UpdatePlanIs` | internal/planner/static_config.go:173-219 | the drift update, without mark-ready under a hold |
| `StaticPlans.RunningPlanIs` | internal/planner/static_config.go:127-164 | the Running arm never fails and builds a fresh plan of exactly the steps of its case |
| `StaticPlans.RunningPlanShape` | internal/planner/static_config.go:127-164 | under a requested hold no plan carries mark-ready, every start-seid-once is closed before the hold is recorded, only a pending reset wipes, nothing writes config |
| `StaticPlans.InitPlanIs` | internal/planner/static_config.go:100-121 | an admitted init plan builds, writes no config, and ends released or parked as the hold says |
| `StaticPlans.NoRefusalWhenAdmitted` | internal/planner/planner.go:209-221 | for admitted specs no builder fails and none carries a config writer, in every mode and phase |
| `StaticPlans.EveryBuiltPlanIsFresh` | internal/planner/planner.go:656-701 | whatever the spec, mode and phase, a plan a builder returns is all Pending with position-indexed IDs, so it satisfies the executor's invariant |
| `PlanContents.EveryPlanContents` | internal/planner/planner.go:456-486 | for every spec, mode and phase, every init, update and config-update plan holds exactly the tasks the node's fields call for (each key gate, snapshot, genesis, state-sync, ceremony and overlay step, the restart after a config patch), each once and in one fixed order |
| `PlanContents.EveryPlanIsBudgeted` | internal/planner/planner.go:637-653 | every task of every plan has 180 retries if it configures genesis, 3 if it replaces a pod, 5 if it wipes data in a reset, none otherwise |
| `Resolution.EveryPlanTargets` | internal/planner/planner.go:656-701 | every plan heads for Running, and only one built before Running can fail its node |
| `PersistedPlans.StoredPlansKeepTheInvariant` | internal/planner/planner.go:171-262 | in every run, legal or not, the stored plan satisfies the executor's invariant |
| `PersistedPlans.StoredPlansWriteNoMountedConfig` | internal/planner/planner.go:209-221 | in every run of a node with a mounted config, whatever its spec, no stored plan carries config-apply, config-patch, configure-state-sync, set-genesis-peers or generate-identity |
| `StaticPlans.RefusalIsExactlyTheCeremony` | internal/planner/static_config.go:64-74 | the refusal happens if and only if a genesis-ceremony validator is being initialised |
| `Safety.SafeAppend` | internal/task/start_guard.go:16-121 | an event that is safe now keeps the whole log safe |
| `Safety.OpenGateBase` | internal/task/start_guard.go:85-121 | a start step that passed the guard opens the gate without breaking any log promise |
| `Safety.GuardPassesUnedited` | internal/task/start_guard.go:32-83 | the guard refuses a plan's start step only if the spec was edited after the plan was built |
| `Safety.WipeIsGuarded` | internal/planner/data_reset.go:38-72 | a wipe is reached only in a reset plan, with the gate closed and seid stopped |
| `Safety.RecordBase` | internal/task/record_data_reset.go:45-55 | recording a reset right after its wipe keeps every log promise and the count of resets within the raises |
| `Safety.CompletedEffect` | internal/planner/executor.go:178-200 | completing any task of any active plan keeps the invariant |
| `Safety.ExecuteBase` | internal/planner/executor.go:88-138 | a whole execution keeps the log promises, for every outcome sequence |
| `Safety.ExecuteProgress` | internal/planner/executor.go:88-138 | and leaves an active plan in a state its shape allows |
| `Runs.LiftSafe` | internal/planner/data_reset.go:96-124 | a node that is not Running absorbs the counter, so nothing is pending there |
| `Runs.RenderSafe` | internal/planner/drift_budget.go:92-118 | the render never pins while a plan is active |
| `Runs.PlanNextSafe` | internal/planner/planner.go:171-262 | whatever plan ResolvePlan adopts or defers, the invariant holds |
| `Runs.ReconcileSafe` | internal/controller/node/controller.go:105-372 | one reconcile keeps the invariant, whatever it hears back |
| `Runs.EditSafe` | internal/planner/data_reset.go:82-95 | a spec edit that only raises the counter keeps it, in the middle of any plan |
| `Runs.ExternalSafe` | internal/task/start_guard.go:27-62 | so does a MarkReady from another controller that the guard lets pass |
| `Runs.MoveSafe` | internal/task/start_guard.go:16-121 | every move of the environment keeps the invariant |
| `Runs.EveryRunIsSafe` | internal/task/start_guard.go:16-121 | in every run from creation: no start under a pending reset or an unwanted hold, every wipe with gate closed and seid stopped, no opening between a reset's mark-not-ready and its record, refusals only after edits, no stamp from a pinned template |
| `Runs.ResetsNeverOutnumberRaises` | internal/planner/data_reset.go:96-124 | recorded resets never outnumber raises, the handled counter stays within the requested one |
| `Runs.CounterNeverFalls` | internal/task/record_data_reset.go:45-55 | no move lowers the handled counter |
| `Runs.RunningRiseIsRecorded` | internal/task/record_data_reset.go:45-55 | on a Running node the counter rises only by a logged record-data-reset |
| `Folding.ContinuationOwes` | internal/planner/data_reset.go:38-72 | along every legal continuation without a raise, resets recorded plus resets still owed never grow |
| `Folding.RaisesFoldIntoOneReset` | internal/planner/data_reset.go:38-72 | however many raises came before, every legal continuation without another records at most one reset, or two if a reset for a lower value is under way and not yet recorded; none when nothing is pending |
| `Runs.HoldIsNeverReleased` | internal/planner/maintenance.go:141-147 | in no run is mark-ready submitted on a Running node with a hold requested; only start-once under AfterExit opens the gate |
| `Runs.InitIsNeverRefused` | internal/task/start_guard.go:27-50 | the guard never refuses the init plan, whatever edits arrive |
| `Resolution.AdoptsIff` | internal/planner/planner.go:171-262 | exactly when a plan is adopted, from the node's own fields and the answers heard: which phase, update report and counters follow, and that a deferred roll reports no update |
| `Resolution.GatedIff` | internal/planner/drift_budget.go:169-173 | the slot gates exactly the roll of a Running node: reset, hold, config-update and init plans never ask for one |
| `Resolution.ReconcileSteady` | internal/planner/planner.go:309-345 | a reconcile that finds an ended plan and adopts none reports no update any more; a Running node stays Running; a plan just adopted is not executed in the same reconcile |
| `Resolution.EveryRunIsSteady` | internal/planner/planner.go:171-345 | in every run a reported update has a stored plan on a Running node, a stored plan has left Pending behind, and Running is never left |
| `Resolution.CreatedIsSteady` | internal/planner/planner.go:171-345 | every run from creation starts so |
| `Resolution.FailedStays` | internal/controller/node/controller.go:258-304 | no run plans for, updates or leaves a Failed node |
| `Resolution.PausedStands` | internal/controller/node/controller.go:305-312 | a reconcile of a paused node records a reset counter that needs no wipe, and nothing else |
| `Resolution.ProbeIsForRunning` | internal/planner/planner.go:172-178 | the sidecar is probed only on a Running node, and a lost answer keeps the last one |
| `Quiescence.NeededBounds` | internal/planner/static_config.go:127-164 | the plans still needed are at most three, and none exactly when settled |
| `Quiescence.ClosingAddsNoPlan` | internal/planner/maintenance.go:149-155 | a sidecar restart during a roll or under a hold adds no plan |
| `Quiescence.ResetPays` | internal/planner/data_reset.go:38-72 | a completed reset plan lowers the plans needed by one |
| `Quiescence.HoldPays` | internal/planner/maintenance.go:47-78 | so does a completed hold plan, re-application included |
| `Quiescence.UpdatePays` | internal/planner/static_config.go:173-219 | so does a completed drift update |
| `Quiescence.PlanPays` | internal/planner/static_config.go:127-164 | a plan is built if and only if one is needed, and it pays for itself |
| `Quiescence.ExecuteHeads` | internal/planner/executor.go:88-138 | execution under quiet outcomes fails nothing and keeps heading there |
| `Quiescence.QuietMoveSettles` | internal/planner/planner.go:171-262 | every quiet move keeps plans built plus plans needed within the bound |
| `Quiescence.AtMostThreePlans` | internal/planner/static_config.go:127-164 | from any reachable state of counter, hold, gate and drift a quiet run builds at most the plans needed, never more than three |
| `Quiescence.RestsOnlyWhenSettled` | internal/planner/static_config.go:127-164 | a calm planner builds nothing if and only if the recorded hold is the requested one, the gate is where it says, no reset is pending and no template drifts |
| `Quiescence.StaysSettled` | internal/planner/static_config.go:127-164 | a settled node stays settled and gets no further plan |
| `Liveness.AtMostSevenSteps` | internal/planner/static_config.go:127-164 | no plan of a Running node has more than seven tasks |
| `Liveness.DoneMovesOn` | internal/planner/executor.go:88-138 | an execution whose current task answers Done ends the plan or leaves fewer tasks to do, whatever the later answers |
| `Liveness.QuietMoveWorks` | internal/planner/planner.go:171-262 | every quiet move keeps the work left within its budget, and a reconcile that makes headway lowers it |
| `Liveness.SettlesAfterEnoughWork` | internal/planner/planner.go:171-262 | every quiet run from any reachable Running state, even with an older plan active, is at rest after enough reconciles that find no plan or whose current task answers Done, whatever slow reconciles, sidecar restarts and seid exits come between |
| `Liveness.TwentyFourSettle` | internal/planner/planner.go:171-262 | from a state without an active plan twenty-four such reconciles are enough |
| `Liveness.SettledHoldsNoSlot` | internal/planner/planner.go:309-345 | one such reconcile more and the node at rest has no plan and reports no update, so it holds no roll slot |
| `DriftBudget.PinningIsSound` | internal/planner/drift_budget.go:120-167 | a pinned copy drifts if and only if no rollout was observed, is then never refused by the nodepool check, and changes only the four pinned fields |
| `DriftBudget.PinningRescues` | internal/noderesource/noderesource.go:346-354 | a waiting node renders without drift and without refusal even when its own pool request would be refused |
| `Resolution.RendersAsItRuns` | internal/planner/drift_budget.go:92-167 | a node is rendered as it runs if and only if it mounts its config, is unpaused, Running, without an active plan, not updating, drifted, with no reset or hold pending, without a slot and with a known image; which image, sidecar image, isolation and pool it then gets |
| `Resolution.DriftIsAnotherTemplate` | internal/planner/planner.go:874-931 | after an observed rollout the template drifts if and only if a later spec or platform asks for another image, sidecar image, isolation or pool |
| `DriftBudget.Classify` | internal/planner/drift_budget.go:47-61 | the loop counts Running unpaused nodes and lists the updating and the waiting ones |
| `DriftBudget.DriftSlot` | internal/planner/drift_budget.go:38-78 | free exactly when fewer nodes are ahead in the queue than there are slots; the message names exactly the admitted nodes; without a budget always free, on a failed list an error |
| `DriftBudget.SlotsAre` | internal/planner/drift_budget.go:64 | at least one slot, and otherwise the largest whole number within the percentage of the counted nodes, never more than those |
| `DriftBudget.AdmittedInOrder` | internal/planner/drift_budget.go:62-74 | rolling nodes before waiting ones, each by name; a node that is neither only when all of those leave a slot |
| `DriftBudget.ExactlySlotsAdmitted` | internal/planner/drift_budget.go:62-74 | on one snapshot exactly min(slots, updating + waiting) nodes are admitted |
| `DriftBudget.FirstQueuedIsServed` | internal/planner/drift_budget.go:62-74 | the first waiting node is admitted if and only if a slot is free |
| `DriftBudget.GrantedStartFits` | internal/planner/drift_budget.go:21-30 | a granted start stays within the slots if and only if the node was not already updating or the slots were not overfilled |
| `DriftBudget.CountsAfter` | internal/planner/drift_budget.go:47-61 | how each move changes the number of counted and of rolling nodes |
| `DriftBudget.MoveFitsIff` | internal/planner/drift_budget.go:21-30 | one move leaves the slots within bound if and only if it finds room |
| `DriftBudget.ConfigUpdatesOverfill` | internal/planner/config_update.go:21-31 | two ungated config updates with one slot leave two nodes rolling, and then a drift start of one of them is granted |
| `DriftBudget.SlotsHoldIff` | internal/planner/drift_budget.go:21-30 | over every run of drift starts, config starts, ends, drift, and nodes joining, leaving and changing their count, the slots hold throughout if and only if every move finds room |
| `DriftBudget.DriftStartsNeverOverfill` | internal/planner/drift_budget.go:21-30 | runs of granted drift starts, ends, drift and joining nodes always find room |
| `Namespace.StartsAreGated` | internal/planner/planner.go:222-234 | only a Running node starts an update; with template drift only by a plan that the slot gates, without it only on a controller-configured node |
| `Namespace.ReconcileStarts` | internal/planner/planner.go:171-262 | a reconcile that starts an update changes nothing else the budget reads, and with template drift it had a slot; how an update ends is in `Resolution.ReconcileSteady` |
| `Namespace.ActFitsIff` | internal/planner/drift_budget.go:21-30 | one move of one node, or a node created or deleted, leaves the slots within bound if and only if it finds room |
| `Namespace.NamespaceHoldsIff` | internal/planner/drift_budget.go:21-30 | over every run of a namespace of nodes, each reconcile told about its slot as computed from the listed statuses, the slots hold throughout if and only if every config start and every change of the counted nodes finds room |
| `Namespace.MountedNamespaceHolds` | internal/planner/drift_budget.go:21-30 | while the counted nodes stay and all mount their config, no run ever overfills the slots |
| `HashLog.LinesOfComplete` | internal/hashlogcompare/reader.go:117-121 | cutting at the last newline loses no complete line |
| `HashLog.Source.List` | sidecar/server/hashlog.go:58-90 | a directory read and, a moment later, the lookup of each entry: exactly the files still there under their name, not removed and not renamed, or a failure at either |
| `HashLog.Source.ReadFile` | sidecar/server/hashlog.go:94-119 | the bytes from an offset to the end, not found if the file was renamed or removed, or a failure |
| `HashLog.Source.ReadHead` | sidecar/server/hashlog.go:94-119 | the first bytes of a file, not found, or a failure |
| `Tailing.ExactGrows` | internal/hashlogcompare/reader.go:45-51 | an exact cursor stays exact under every append, seal and new file |
| `Tailing.ExactStart` | internal/hashlogcompare/reader.go:163-168 | a fresh cursor has consumed nothing |
| `Tailing.ExactHeader` | internal/hashlogcompare/reader.go:93-105 | taking a new file's header consumes no line |
| `Tailing.ExactSkip` | internal/hashlogcompare/reader.go:106-115 | skipping the partial first line consumes none and ends at the first boundary |
| `Tailing.ExactConsume` | internal/hashlogcompare/reader.go:117-121 | reading to the end consumes exactly the complete lines there |
| `Tailing.ExactTorn` | internal/hashlogcompare/reader.go:126-129 | dropping a sealed file's torn tail loses no complete line and reports that file |
| `Tailing.ExactMove` | internal/hashlogcompare/reader.go:204-213 | moving on leaves every line of the finished file consumed, and files passed over leave the scope |
| `Tailing.ExactAbandon` | internal/hashlogcompare/reader.go:188-194 | moving on from a removed file nothing was read of keeps everything consumed, and that file leaves the scope |
| `Tailing.ExactRename` | internal/hashlogcompare/reader.go:171-187 | following a seal changes the name, not the place |
| `Tailing.ExactIsPrefix` | internal/hashlogcompare/reader.go:45-51 | consumed lines are a prefix of all lines of the files not passed over, in file-index order: none missing, repeated or out of order |
| `Tailing.TornReportedOnce` | internal/hashlogcompare/reader.go:28-30 | every passed sealed file is reported once if its tail is torn and never otherwise |
| `Tailing.TornIsPrefix` | internal/hashlogcompare/reader.go:126-129 | the reported tails are a prefix of the torn tails of all sealed files, in file-index order |
| `Tailing.AllTailsReported` | internal/hashlogcompare/reader.go:126-129 | in an open file, or at the end of its own, a reader has reported every torn tail of a sealed file up to there |
| `Tailing.WholeIff` | internal/hashlogcompare/reader.go:204-213 | the lines and torn tails of the files not passed over are those of the whole log if and only if there were none in the others |
| `HashLogReader.EveryLineAccounted` | internal/hashlogcompare/reader.go:226-245 | parsed rows plus invalid lines are the lines consumed |
| `HashLogReader.ParseRows` | internal/hashlogcompare/reader.go:226-245 | the loop over lines, each parsed with its file's header or counted |
| `HashLogReader.ByName` | internal/hashlogcompare/reader.go:171-174 | a readable name is the cursor's file; an unreadable one was sealed under the same index |
| `HashLogReader.FollowsExactly` | internal/hashlogcompare/reader.go:174-194 | of a file that could not be read, every listing made afterwards says: followed under its sealed name if it was not removed; if it was, a gap when something of it was read, else moved past |
| `HashLogReader.MovesExactly` | internal/hashlogcompare/reader.go:204-213 | at the end of a sealed file the reader enters the first later file listed, or stays if none is, and the cursor stays exact |
| `HashLogReader.PassesOverIff` | internal/hashlogcompare/reader.go:204-213 | the listing at the end of a file passes one over if and only if the next file was removed, or was open at the directory read and sealed at its lookup, and a later one was listed |
| `HashLogReader.OneOpenSkipsNothing` | sidecar/server/hashlog.go:78-81 | listings with only their last file open at the directory read and nothing removed never pass a file over |
| `HashLogReader.WholeIsHarmless` | internal/hashlogcompare/reader.go:204-213 | nothing is ever recovered from a file given up: a reader has read the whole log only if there was nothing in those files |
| `HashLogReader.Reader.MoveAfter` | internal/hashlogcompare/reader.go:204-213 | to the beginning of the first listed file of higher index; if there is none, nothing moves |
| `HashLogReader.Reader.FollowMissing` | internal/hashlogcompare/reader.go:174-194 | for every listing: the first file of the reader's index under the same name changes nothing, under another it gives only name and flag; with none listed a reader past the beginning stops being started and keeps its cursor, and one at offset 0 goes to the beginning of the first file of higher index, or stays |
| `HashLogReader.Reader.HandleMissing` | internal/hashlogcompare/reader.go:171-194 | on every schedule: unavailable exactly when the listing fails; a file not removed is followed under its sealed name; a removed one of which something was read is a coverage gap; a removed one of which nothing was read is left for the first later file listed; no consumed line is forgotten |
| `HashLogReader.Reader.NextFile` | internal/hashlogcompare/reader.go:196-202 | enters the first later file of the listing the next two looks give and records that listing, stays at the end if it shows none, and fails exactly when a look does; over a log that stays it stays only if no later file is left |
| `HashLogReader.Reader.TakeHeader` | internal/hashlogcompare/reader.go:93-105 | takes a header once complete; it waits only while the file has no line end and errs only when the complete header does not parse |
| `HashLogReader.Reader.TakePartial` | internal/hashlogcompare/reader.go:106-115 | up to the first boundary; it waits only while there is none after the start offset |
| `HashLogReader.Reader.TakeLines` | internal/hashlogcompare/reader.go:117-118 | the complete lines, leaving no newline ahead |
| `HashLogReader.Reader.DropTorn` | internal/hashlogcompare/reader.go:126-129 | the torn tail of a sealed file is reported and passed |
| `HashLogReader.Reader.ReadOnce` | internal/hashlogcompare/reader.go:80-134 | one pass keeps the cursor exact and accounts for each consumed line; it reports a gap if and only if no call failed, the file was not there to be read, had been removed by the listing, and something of it had been read; it is unavailable exactly when a call failed, blames only a header that does not parse, and stops without error only when caught up or in a removed file nothing was read of: a readable log (of the files left only the last open, headers that parse, a first line boundary) is then read through unless the listing at a file end was overtaken; over a log that stays, every other pass leaves fewer to make |
| `HashLogReader.Reader.StartReading` | internal/hashlogcompare/reader.go:139-169 | starts in the newest file listed, at most the backtrack before its end and never inside its header; over a log that stays, whatever was removed from it, it starts in the last file left if and only if that file shows a header that parses within 64 KiB, and errs exactly when it shows none that could |
| `HashLogReader.Reader.ReadFiles` | internal/hashlogcompare/reader.go:80-135 | at most sixteen passes; over a readable log that stays a call reads it through or leaves fewer passes to make |
| `HashLogReader.Reader.PollOnce` | internal/hashlogcompare/reader.go:69-136 | whatever happened between the calls, rows and invalid lines account exactly for the newly consumed lines, a torn tail is reported once, an unavailable source is reported exactly when a call failed; a gap is reported only with the current file removed after bytes of it were read, always if it was so at the call, and if and only if so once nothing more happens; no gap on a schedule that removes nothing; over a log that stays a poll of a stopped reader starts it if it can be started, and one of a readable log reads it through or leaves fewer passes to make |
| `HashLogReader.Tail` | internal/hashlogcompare/reader.go:69-136 | for every schedule, removals included, and any number of polls the rows are the parsed consumed lines, parsed plus invalid is consumed, and what was consumed since the last gap is a prefix of the lines of the files not passed over; once the schedule is used up, two polls per file and three more leave no file beyond the reader and have consumed every complete line and reported every torn tail, once and in order, of the files not given up, and these are all of the log if and only if the first file was not sealed before a line ended after the start and no file given up held any; if nothing is removed there is no gap, and a schedule that opens a file only when the one before is sealed passes none over |
| `HashLogReader.ShortRowsGiveABoundary` | internal/hashlogcompare/reader.go:165-167 | rows shorter than the backtrack give a fresh reader its first boundary in bytes already written |
| `HashLogReader.ShortRowsAreBounded` | internal/hashlogcompare/reader.go:165-167 | so the first file of such a log is never sealed without one |
| `HashLogReader.UnboundedIsStuck` | internal/hashlogcompare/reader.go:106-112 | a reader whose first file was sealed before a line ended after the start never leaves it and never reads the log through |
| `TailingRuns.StuckRun` | internal/hashlogcompare/reader.go:106-112 | a reader that starts inside a row of 20,000 bytes and sees the file sealed is started, and however often it polls it never reads the log through |
| `TailingRuns.LosingRun` | internal/hashlogcompare/reader.go:196-213 | a reader that asks for the next file while two are open, the first just being sealed, passes over that file, and however often it polls its row is never read |
| `HashLogReader.Finished` | internal/hashlogcompare/reader.go:122-135 | caught up in an open file, or at the end of the last one left, an orderly log is read through |
| `HashLogReader.StaysReadThrough` | internal/hashlogcompare/reader.go:69-136 | further polls over the same log, whatever was removed from it, consume and report nothing again |
| `HashLogReader.GivenUpBounds` | internal/hashlogcompare/reader.go:188-213 | what was consumed and reported is a prefix of the lines and torn tails of the files not given up; a reader in a removed unread file with none left beyond has read through |
| `HashLogReader.StartsExactly` | internal/hashlogcompare/reader.go:139-169 | a listing and a head read a moment later place an exact cursor |
| `Comparator.DifferingColumns` | internal/hashlogcompare/compare.go:152-166 | the sorted names two rows disagree on, none exactly for equal rows, whatever the map order |
| `Comparator.EvictOldest` | internal/hashlogcompare/compare.go:100-106 | the loop equals removal of the n lowest heights |
| `Comparator.PairState.Add` | internal/hashlogcompare/compare.go:90-98 | the call against its specification, of which `ComparatorProperties.AddIs` says what it leaves |
| `Comparator.PairState.CommonHeights` | internal/hashlogcompare/compare.go:112-118 | the heights both sides have, in order |
| `Comparator.PairState.MatchHeights` | internal/hashlogcompare/compare.go:119-130 | compares and deletes each, tracking first and last |
| `Comparator.PairState.Prune` | internal/hashlogcompare/compare.go:136-150 | keeps exactly the rows above the last compared height and counts those after the first |
| `Comparator.PairState.Compare` | internal/hashlogcompare/compare.go:108-134 | the whole call against its specification, for every map order and all heights |
| `ComparatorProperties.EvictionKeepsHighest` | internal/hashlogcompare/compare.go:100-106 | eviction removes exactly min(n, size) rows, all lower than every row kept |
| `ComparatorProperties.CappedFits` | internal/hashlogcompare/compare.go:94-97 | no buffer exceeds 10,000 rows after an add |
| `ComparatorProperties.AddIs` | internal/hashlogcompare/compare.go:90-106 | an add at or below the last compared height changes nothing; otherwise up to 10,000 rows all stay, and beyond that exactly the highest 9,000, the new row among them if none is higher |
| `ComparatorProperties.CappedIs` | internal/hashlogcompare/compare.go:94-106 | the cap alone: nothing dropped up to 10,000 rows, exactly 9,000 kept beyond, every row dropped lower than every row kept |
| `ComparatorProperties.CompareKeeps` | internal/hashlogcompare/compare.go:108-150 | after a comparison the buffers share no height and hold only heights above the last compared one |
| `ComparatorProperties.ComparedAtMostOnce` | internal/hashlogcompare/compare.go:90-150 | for any order, re-delivery and eviction each height is compared at most once and compared heights strictly increase |
| `ComparatorProperties.NonPositiveIsComparedTwice` | internal/hashlogcompare/compare.go:91-93 | every height of zero or less is compared again on re-delivery |
| `ComparatorProperties.TwiceIffNotPositive` | internal/hashlogcompare/compare.go:91-93 | some run compares a height twice if and only if it is zero or less |
| `StreamingJoin.AddAllReceives` | internal/hashlogcompare/compare.go:90-98 | without overflow new rows simply join the buffer |
| `StreamingJoin.CollectNext` | internal/hashlogcompare/compare.go:108-150 | one more comparison takes the batch join of two streams to that of their extensions |
| `StreamingJoin.StreamingIsBatch` | internal/hashlogcompare/compare.go:90-166 | for height-ordered streams, however split into polls, cumulative results equal one batch join: mismatches, compared count, gaps strictly between first and last common height, leftovers |
| `StreamingJoin.SplitDoesNotShow` | internal/hashlogcompare/compare.go:90-166 | two splits of the same streams find the same |
| `StreamingJoin.EveryDivergenceIsReported` | internal/hashlogcompare/compare.go:108-134 | reported heights are exactly the common ones with different rows, in order, each with its differing columns |
| `PairRunner.FilterDecidesAgreement` | internal/hashlogcompare/compare.go:35-57 | filtered rows are equal exactly when the rows agree on every base and non-EVM module column |
| `PairRunner.OnlyEvmIsIgnored` | internal/hashlogcompare/compare.go:22-57 | rows that differ only in the EVM root filter alike and are usable alike; a difference in any other module root or in a block, changeset or result hash always shows |
| `PairRunner.ComparableHashes` | internal/hashlogcompare/compare.go:39-57 | the relevant columns, or an error when a base column or every module column is missing |
| `PairRunner.Runner.AddRows` | internal/hashlogcompare/run.go:96-108 | adds exactly the usable rows and counts the others |
| `PairRunner.Runner.Read` | internal/hashlogcompare/run.go:79-109 | one poll of a reader adds exactly the usable rows among the lines it consumed, and every consumed line is added or counted |
| `PairRunner.Runner.Record` | internal/hashlogcompare/run.go:111-134 | the diverged latch is set exactly when some mismatch was recorded and never cleared |
| `PairRunner.Runner.PollOnce` | internal/hashlogcompare/run.go:73-77 | one poll of both readers is one step of the streaming join over the usable rows they returned; what all polls brought is the usable rows of everything consumed |
| `PairRunner.DivergedMeans` | internal/hashlogcompare/run.go:111-120 | over height-ordered rows some mismatch is recorded exactly when the streams differ at a common height |
| `PairRunner.Runner.LatchMeans` | internal/hashlogcompare/run.go:111-120 | the gauge is set exactly when the lines the two readers consumed hold different usable rows at a common height |
| `PairRunner.Runner.Watch` | internal/hashlogcompare/run.go:73-77 | over any number of polls and any two schedules the gauge means that; with both schedules used up enough polls make it tell whether the two whole logs differ, if each could be read through, no lines were cut off by a gap and the files given up hold none; a schedule that removes nothing cuts off no line, and one that opens a file only when the one before is sealed passes none over |
| `Decimal.TrimRightValue` | internal/planner/config_overlay.go:231-240 | trimmed trailing zeros are exactly a power of ten |
| `JsonNumber.CanonicalIs` | internal/planner/config_overlay.go:226-248 | what the string code computes from the sign, digits and exponent of any JSON number |
| `JsonNumber.CanonicalDecidesValue` | internal/planner/config_overlay.go:223-248 | two JSON numbers have the same canonical string if and only if they have the same decimal value, for exponents of any size |
| `JsonNumber.CanonicalIsIdempotent` | internal/planner/config_overlay.go:223-248 | the canonical string is a JSON number of the same value and its own canonical form |
| `ConfigHash.CanonicalDecidesJson` | internal/planner/config_overlay.go:206-221 | canonical trees are equal exactly for values equal up to numeric spelling and key order |
| `ConfigHash.ConfigValuesHash` | internal/planner/config_overlay.go:183-204 | the loop over entries: sorted marshalled tuples, or an error when one does not decode |
| `ConfigHash.SameHashInput` | internal/planner/config_overlay.go:179-204 | two lists give the same hash input if and only if they pair off up to numeric spelling and key order |
| `OverlayTree.MergeCommutes` | internal/planner/config_overlay.go:126-152 | a merge and its failure do not depend on which side comes first |
| `OverlayTree.MergeAssociates` | internal/planner/config_overlay.go:126-152 | nor on how patches are grouped |
| `OverlayTree.MergesIff` | internal/planner/config_overlay.go:126-152 | patches merge if and only if every two of them fit |
| `OverlayTree.MergedLeaves` | internal/planner/config_overlay.go:126-152 | a merge has the leaves of both sides, no others, and none is on both |
| `OverlayTree.MergedNodes` | internal/planner/config_overlay.go:126-152 | at every path a merge has the node of the one side that has one, or the merge of two tables |
| `OverlayTree.MergeKeepsIff` | internal/planner/config_overlay.go:126-152 | a merge leaves a tree as it was if and only if the other side adds nothing to it |
| `OverlayTree.OrderDoesNotShow` | internal/planner/config_overlay.go:27-60 | every order of patches gives the same tree or every one fails |
| `OverlayTree.LeavesComeFromOnePatch` | internal/planner/config_overlay.go:27-60 | on success every leaf comes from exactly one patch and every other path has none |
| `OverlayTree.NodeOfOnePatch` | internal/planner/config_overlay.go:27-60 | a node of one patch is found unchanged in the merge if and only if no other patch adds to it, always if it is a leaf, and is always contained |
| `OverlayBuild.InsertName` | internal/planner/config_overlay.go:129-149 | one name: the merged node and its origin, or the key of the entry it collides with |
| `OverlayBuild.InsertOverlay` | internal/planner/config_overlay.go:126-152 | in every map order equal to the merge; the origin tree mirrors the value tree and remembers which entry brought each name, so the conflict lookup never misses |
| `OverlayBuild.SplitRoundTrip` | internal/planner/config_overlay.go:47-50 | splitting a key at its dots loses nothing |
| `OverlayKeys.PartsAreUndotted` | internal/planner/config_overlay.go:47-50 | no part of a split key holds a dot |
| `OverlayKeys.OnlyPath` | internal/planner/config_overlay.go:47-50 | so the path of a key is the one sequence of undotted names that spells it |
| `OverlayKeys.SplitJoin` | internal/planner/config_overlay.go:47-50 | a dot between two keys separates their paths |
| `OverlayKeys.LeafKeysBuildIff` | internal/planner/config_overlay.go:27-60 | an overlay of leaf values builds if and only if, within each file, no key equals another or continues it after a dot |
| `OverlayBuild.WrapPath` | internal/planner/config_overlay.go:47-50 | the loop that nests a value under its path |
| `OverlayBuild.ConfigValuesOverlay` | internal/planner/config_overlay.go:25-60 | the loop over entries equals the merge of their patches; it refuses the first entry without a value, or stops at the first that does not fit those before and names an earlier entry of the same file that really overlaps it |
| `OverlayBuild.MergeTables` | internal/planner/consensus_overlay.go:84-105 | in every map order equal to the merge, an error exactly on a taken name |
| `OverlayBuild.MergeOverlayPatches` | internal/planner/consensus_overlay.go:63-82 | file by file equal to the merge of the user's and the engine's patch |
| `OverlayBuild.EntryOrderDoesNotShow` | internal/planner/config_overlay.go:27-60 | every permutation of the entries gives the same overlay or every one fails |
| `OverlayBuild.EntryReadsBack` | internal/planner/config_overlay.go:47-58 | on success each entry reads back at its dotted path if and only if no other entry adds anything below it, a leaf always, and a table is always contained in what is found |
| `OverlayBuild.TableMayNotReadBack` | internal/planner/config_overlay.go:47-58 | an empty table at a and a leaf at a.b merge, and a reads back with b in it |
| `OverlayBuild.EngineKeysKeepLeaves` | internal/planner/consensus_overlay.go:63-105 | merging the engine's keys keeps every leaf of both sides and adds none |
| `Peering.ComposedHost` | internal/peering/resolver.go:147-170 | a composed entry indexes under its address |
| `Peering.IndexPeers` | internal/peering/resolver.go:161-173 | the loop against its specification |
| `Peering.IndexFinds` | internal/peering/resolver.go:161-173 | every host is indexed, under an entry of that host |
| `Peering.HostOfIff` | internal/peering/resolver.go:161-173 | an entry has a host if and only if it is a non-empty ID without @, an @, and that host |
| `Peering.AddressesDiffer` | internal/peering/resolver.go:175-184 | without external addresses two peers share an address only if they are the same |
| `Peering.ResolveLabel` | internal/peering/resolver.go:110-159 | fresh, preserved or skipped, peer by peer, never the node itself |
| `Peering.Resolve` | internal/peering/resolver.go:69-104 | the loop over sources against its specification, list and EC2 failures included |
| `Peering.ResolvedIff` | internal/peering/resolver.go:69-159 | exactly which entries are resolved: a peer that answers under its fresh ID and address, one that does not under the prior entry of its address, the other sources' own, and the whole prior set when EC2 failed; nothing only when a list call failed |
| `Peering.LabelKeeps` | internal/peering/resolver.go:137-157 | a label source keeps every host of its peers that the prior set had |
| `Peering.NoHostIsLost` | internal/peering/resolver.go:64-104 | one reconcile gives a sorted duplicate-free set that loses no host |
| `Peering.HostsNeverShrink` | internal/peering/resolver.go:14-18 | over any run with fixed sources a host once resolved stays, whatever calls fail |

## Left out

- The sidecar's task engine: only the effects named above are kept, and a task's outcome is free.
- Kubernetes, HTTP, AWS and SQLite calls, status patching and optimistic locking: a reconcile is atomic.
- Workflow adoption, SeiNetwork group plans, finalizers and deletion.
- Rendering of pods, volumes, probes and Services, apart from the nodepool check that pinning relies on.
- Conditions other than the update condition, events, metrics, plan durations and messages.
- The back-fill of an observed isolation on nodes created before that field existed.
- containsNull, the number range check and the file-name pattern: an entry they refuse is one without a value.
- JSON decoding, CSV parsing and marshalling: parameters.
- A log that stays with an open file before the last one left or with a complete header that does not parse: the reader waits there, and reading through is not claimed.
- EC2 instance selection and peer address validation in internal/peering/ec2.go.
- The plan rewrites that park, clear or drop mark-ready, canonicalJSONValue, insertOverlay and mergeTables work on values: update in place and the aliasing of shared maps are not captured.
- ComparableHashes: the two error messages are one absent result, because callers only count them.
- ResolveLabel: a missing sidecar factory is a peer without an answer, because the code treats both alike.
- Compare: its counters are unbounded integers; the source's are 64-bit.
