# Verified model of the checkpoint-native preemption controller

The controller runs a training job as a sequence of run attempts. It stops an attempt by asking the trainer to
checkpoint and yield, takes the evidence from object storage, deletes the child JobSet, and later resumes a new attempt from
the checkpoint. It also resizes running jobs, shapes their priority by checkpoint freshness, and renders the child JobSet from
what Kueue admitted. This project models that logic in Dafny and proves what it is meant to guarantee.

`dafny verify dfyconfig.toml` checks everything.

## How the model is laid out

| files | contents |
|---|---|
| `Foundation`, `Text`, `Sorting` | optional values, clock readings cut to whole seconds (section 5.6 of RFC 3339), string order, decimal rendering, stable sorting |
| `Checkpoints`, `ObjectStorage`, `Trainer`, `Catalog`, `Selection`, `Restore` | manifests, markers and their names; the bucket and its order invariant; the trainer's uploads; what the controller reads back; the choice of checkpoint; the trainer's own check |
| `Status`, `Reconcile` | the job's record and its transitions; one reconcile, as a list of API calls and as controller code |
| `Outcomes` | what one completed reconcile does in each case, on the API states before and after |
| `Lifecycle`, `SingleRun`, `Durability`, `Evidence`, `Controls`, `Deadline`, `Drains`, `RunOutcomes` | the protocol as a machine of atomic steps, and what holds in every run of it |
| `ElasticPlan`, `Resize`, `ResizeRuns` | the resize planner, one elastic reconcile, and what holds over runs of them |
| `YieldHistory`, `Priority` | the yield annotation and the priority decision over time |
| `DeviceClaims`, `DeviceProfile`, `Topology`, `Constraints`, `LaunchGate`, `Shape` | planning and rendering: device claims, their fingerprint, topology, additive pod updates, launch gates, counts |

A reconcile is modelled twice. `ReconcileOps` gives the API calls that it makes from what it read; class `Controller` is the
step-by-step code with its early returns, working on a mutable job and an API server that may stop answering after any call
(the process dies). Every controller method is proved to leave the server exactly as the corresponding list of calls would. What those
calls amount to is stated a third time, without them: `Outcomes` gives, for every case of the job's own fields, the API state that a
completed reconcile leaves. The machine in `Lifecycle` then makes those calls one at a time. Between two of them the user may edit the spec, Kueue may toggle
suspension, a JobSet may be deleted, its deletion may complete, trainers may upload, time may pass, and the reconcile may crash. A
status update conflicts when the spec was edited in the meantime. Reads are linearizable, one reconcile is in flight at a time,
the clock does not go back, and run attempts have different object names. The world also carries three history values (when the
attempt was recorded, when the stop was requested, when each manifest was built) that no decision reads. What a reconcile resumes
from is what the catalog's selection answers for the bucket it reads. A trainer may stamp a manifest at any instant up to its
upload, but writes the same checkpoint again only with a later stamp. The trainer's code, too, is tied to the machine: every outcome
of its yield branch is a run of worker steps.

## Findings

Some statements one would expect are false of the code. Each has its exact condition as a lemma.

- Both the request time and the SDK's completion times lose their fraction of a second and are compared strictly, so a checkpoint
  that was finished after the request but within the same second is not accepted
  (`Evidence.AcceptedFromTheNextSecond`, `Evidence.SameSecondIsRejected`).
- A lookup, control or read error during a drain restarts the drain deadline under the same request id; these errors and the timeout
  itself are exactly what ends the recorded stop (`Deadline.StopSurvivesExactly`, `Deadline.ErrorRestartsDeadline`).
- A reconcile past the deadline takes the run down exactly when the spec's generation was observed; otherwise it only records the
  generation, and the next one tears down (`Deadline.TearsDownExactlyWhenSeen`, `Deadline.EditDefersDeadline`).
- The controller never sets `status.elasticity.inPlaceShrinkSupported`, it only copies it. So a new job publishes reclaimable pods only
  after something else has set the field, and otherwise never puts an entry on its Workload
  (`ResizeRuns.FreshJobPublishesOnlyAfterReport`, `ResizeRuns.SilentRuntimePublishesNothing`).
- `status.elasticity.admittedWorkerCount` is only ever written with the value it was read with. Therefore a resize target that was
  reached by relaunching triggers the next relaunch, or an in-place shrink where that is possible
  (`ResizeRuns.CompletionActsAgainExactly`), and with a fixed preferred count a job is ever grown exactly when it starts below a
  preferred count that meets the minimum, so a new one never is (`ResizeRuns.GrowsExactlyBelowPreferred`, `ResizeRuns.FreshJobNeverGrows`).
- A relaunch is marked complete exactly when the restored run finds its recorded trigger with no planning or completing reconcile
  recorded since (`ResizeRuns.CompletesExactlyAfterTrigger`).
- The update conflict check before a launch looks at the parsed template, while rendering first removes Kueue's own labels and
  annotations and lets topology overwrite node selector entries. Over all replicated jobs the two verdicts agree exactly when some job
  has a clash that both see, or some job has one that only the first sees just when some job has a failure that only the second sees
  (`Constraints.DryRunAgreesExactly`). They differ either way for every representable topology that sets a key
  (`Constraints.DryRunCanDiffer`), and for every update of a Kueue label (`Constraints.KueueLabelsDiffer`).
- The controller passes the trainer none of the six identity values that the trainer compares with the manifest; they come from the
  job's template or the SDK's defaults. World size and the permission to restore at another size are passed on only along with
  admitted counts. So a checkpoint that the controller chose is refused by the trainer's check exactly when its format is not the SDK's, the
  template gives another identity, or its size is another one and no change is permitted by whoever decides
  (`Restore.RenderedAcceptsExactly`, `Restore.UnnamedShapeIsRefused`).
- A drain that only a resize started never reaches the delete: the next reconcile marks the run Running again. Evidence is looked for
  exactly when the user or Kueue requests a stop as well (`Drains.DrainsExactlyWhenRequested`, `Drains.ResizeAloneNeverDrains`).
- When fewer pods are admitted than one replica needs, more pods are rendered than were admitted
  (`Shape.ReplicatedJob.ApplyAdmittedReplicaCount`).
- The launch plan's world size differs from the other two when the 32-bit total is negative (`Shape.WorldSizesAgree`).

## Model

| member | source | states |
|---|---|---|
| SingleRun.SingleLiveRun | internal/controller/resumabletrainingjob_controller.go:160-371 | in every run with crashes anywhere, at most one child JobSet is not being deleted, and it belongs to the recorded attempt or the next |
| SingleRun.AttemptIsMonotone | internal/controller/resume_flow.go:27-110 | no step lowers the recorded attempt or raises it by more than one |
| SingleRun.StepKeepsSingleRun | internal/controller/resume_flow.go:172-224 | every step of the machine keeps the agreement between record, JobSets and the calls still to be made |
| Durability.DurableBeforeDelete | internal/controller/suspend_flow.go:90-177 | in every run, a delete that is not a timeout finds the status already naming a manifest that is complete in the bucket, and it stays complete for ever after |
| Durability.RestoresFromComplete | internal/controller/resume_flow.go:64-170 | in every run, a JobSet is only ever told to restore from a manifest that is complete in the bucket, given only that choices are what the catalog's selection answers |
| Durability.VisibleEvidenceIsComplete | fixtures/pytorch_ddp_counter/train.py:387-412 | in every run a visible marker has its manifest and a visible manifest all its artifacts |
| Durability.StepKeepsDurable | internal/checkpoints/catalog.go:67-121 | every step keeps all checkpoints named in status complete, and nothing complete is ever lost |
| Evidence.NoStaleEvidence | internal/controller/suspend_flow.go:179-214 | in every run an accepted observation was built by the recorded attempt, strictly after a stop request made no earlier than that attempt was recorded, whatever its request id |
| Evidence.AcceptedFromTheNextSecond | internal/checkpoints/catalog.go:74-108 | a marker answering the recorded request is accepted if and only if its manifest was built at or after the next whole second |
| Evidence.SameSecondIsRejected | sdk/python/yield_sdk/checkpoint.py:27-29 | a stop at 0.1 s answered at 0.9 s by a checkpoint that is complete in the bucket is not accepted |
| Evidence.StepKeepsTime | internal/controller/status_helpers.go:86-148 | every step keeps the recorded request time equal to the stored form of the real one, and that one after the attempt's start while stopping |
| Evidence.FreshBeforeDelete | internal/controller/suspend_flow.go:135-176 | in every run a delete that is not a timeout is of the recorded attempt's JobSet, and the recorded checkpoint is complete, of that attempt, and built strictly after a stop request made no earlier than the attempt was recorded |
| Deadline.FrozenRequest | internal/controller/suspend_flow.go:179-214 | once recorded, request id and time never change while every reconcile finds a stop requested and meets no error, crashes included |
| Deadline.FrozenDeadline | internal/controller/suspend_flow.go:90-133 | over such runs the reconcile past the first recorded request time plus maxDrainTime takes the run down, and none before it gives up |
| Deadline.GivesUpExactlyAfterDeadline | internal/controller/suspend_flow.go:111-115 | a reconcile of a recorded stop deletes as timed out if and only if the deadline has passed, and otherwise looks for evidence |
| Deadline.DeadlineTearsDown | internal/controller/suspend_flow.go:111-133 | after two calls the JobSet is terminating, after three the failure is recorded, and the request id is kept |
| Deadline.StopSurvivesExactly | internal/controller/suspend_flow.go:97-176 | a completed reconcile keeps request id and time in the record, and leaves the stop recorded if and only if no lookup, control or read error occurred and the deadline had not passed |
| Deadline.ErrorRestartsDeadline | internal/controller/resumabletrainingjob_controller.go:436-464 | when a stop is next found requested, the id stands and the time is a new one if and only if that reconcile did not leave the stop recorded |
| Deadline.TearsDownExactlyWhenSeen | internal/controller/suspend_flow.go:111-133 | past the deadline and without errors the run is taken down if and only if the generation was observed |
| Deadline.EditDefersDeadline | api/v1alpha1/resumabletrainingjob_types.go:2011-2024 | after an edit a reconcile changes nothing but the observed generation, however late, and the next one tears down |
| Controls.StopFindsItsControl | internal/controller/suspend_flow.go:240-260 | in every run a stop that can be requested finds the control ConfigMap it is passed on through |
| Drains.DrainsExactlyWhenRequested | internal/controller/resumabletrainingjob_controller.go:165-253 | a reconcile looks for evidence or deletes if and only if the user or Kueue requests a stop, it is recorded, the spec was seen, and lookup and control write succeed |
| Drains.ResizeAloneNeverDrains | internal/controller/resumabletrainingjob_controller.go:190-253 | over any run in which neither user nor Kueue requests a stop, however many resize verdicts fall, the controller takes no live JobSet down |
| Outcomes.LaunchesExactly | internal/controller/resumabletrainingjob_controller.go:160-371 | a completed reconcile without a create fault brings a JobSet into being if and only if phase set, generation seen, lookup done, wanted running, not suspended, none live, not gated, no conflicting updates, and a resuming job has its checkpoint |
| Outcomes.LaunchOutcome | internal/controller/resume_flow.go:27-224 | the launch's JobSet, what it restores from, its ConfigMap and the whole record: a recorded restore repeats its attempt with the selected manifest, another resume takes the chosen one, selects it and forgets the request, a plain launch keeps both |
| Outcomes.FaultyLaunchOutcome | internal/controller/resume_flow.go:172-224 | a launch that cannot create its objects fails and leaves a ConfigMap only if the JobSet was what failed |
| Outcomes.InitializationOutcome | api/v1alpha1/resumabletrainingjob_types.go:2011-2024 | a new job becomes pending, an edited one has its generation observed, nothing else changes |
| Outcomes.RestingOutcome | internal/controller/resumabletrainingjob_controller.go:160-371 | the phase left, with everything else unchanged: lookup failure, conflict or missing checkpoint Failed; held Paused, Failed or Pending; active Running; suspended Queued; gated nothing at all |
| Outcomes.ResizeOutcome | internal/controller/suspend_flow.go:228-238 | a resize verdict records a request made now under the old id if there is one, and does nothing else |
| Outcomes.RecordingOutcome | internal/controller/suspend_flow.go:179-226 | an unrecorded stop is recorded with the asker's id, and with a new time unless the job already waits under that request |
| Outcomes.StopOutcome | internal/controller/suspend_flow.go:90-177 | the whole state after a recorded stop for control error, timeout, read error, no evidence, new evidence and recorded evidence |
| Outcomes.PauseIsWritten | internal/controller/suspend_flow.go:240-272 | the recorded ConfigMap holds the recorded request id and time, and no other one changed |
| RunOutcomes.PausedBeforeLooking | internal/controller/suspend_flow.go:107-141 | in every run, when evidence is about to be looked for, the recorded ConfigMap holds that request, which is the recorded one |
| RunOutcomes.LaunchedAsAllowed | internal/controller/resume_flow.go:141-170 | in every run a JobSet appears only from a reconcile that began under the launch condition, and is told the recorded selection, or a listed compatible manifest than which no acceptable one was newer |
| Reconcile.RequestIDsDiffer | internal/controller/suspend_flow.go:189-226 | request ids of different askers, attempts or generations differ |
| Reconcile.Controller.Reconcile | internal/controller/resumabletrainingjob_controller.go:160-371 | dying after any number of calls, the code leaves the API server as the first that many calls of ReconcileOps do |
| Reconcile.Controller.StopFlow | internal/controller/suspend_flow.go:90-177 | request, control rewrite, timeout, evidence, checkpoint record and delete are made in exactly that order, each in its case |
| Reconcile.Controller.GiveUp | internal/controller/suspend_flow.go:111-133 | the JobSet is deleted before the failure is recorded |
| Reconcile.Controller.AfterObservation | internal/controller/suspend_flow.go:135-176 | error, no evidence, new evidence and recorded evidence lead to failure, draining, a status write and the delete |
| Reconcile.Controller.EnsureStopRequested | internal/controller/suspend_flow.go:179-214 | reports a change if and only if the stop was not fully recorded; otherwise returns the recorded id and time and changes nothing |
| Reconcile.Controller.ManualHold | internal/controller/suspend_flow.go:66-88 | a held job becomes paused when it has a checkpoint and a request, stays failed, or becomes pending |
| Reconcile.Controller.CreateRunAttempt | internal/controller/resume_flow.go:172-224 | control ConfigMap, then JobSet, then nothing until the attempt is recorded; a fault at either point fails the launch |
| Reconcile.Controller.Launch | internal/controller/resume_flow.go:27-62 | a launch creates attempt plus one from the selected checkpoint and records it last |
| Reconcile.Controller.Resume | internal/controller/resume_flow.go:64-139 | a recorded restore is repeated under its attempt, another takes the chosen checkpoint and the next attempt |
| Reconcile.Controller.ObserveRunning | internal/controller/resumabletrainingjob_controller.go:190-253 | the run is marked running, and a resize verdict enters the stop flow with the status that was just written |
| Reconcile.Controller.FailLaunch | internal/controller/resumabletrainingjob_controller.go:436-464 | the failure is written only if it changes the status |
| Reconcile.ApiServer.Send | internal/controller/resumabletrainingjob_controller.go:380-395 | one call has its effect or, once the process is dead, none; creating an existing object leaves it alone |
| Status.TrainingJob.SetPhase | api/v1alpha1/resumabletrainingjob_types.go:2026-2088 | timestamps move only when the phase really changes |
| Status.TrainingJob.Initialize | api/v1alpha1/resumabletrainingjob_types.go:2011-2024 | a new job becomes pending and the generation is recorded; changed is exact |
| Status.TrainingJob.Mark | internal/controller/status_helpers.go:112-125 | phase and observed generation are set together; changed is exact |
| Status.TrainingJob.MarkStopRequested | internal/controller/status_helpers.go:127-148 | sets the request and enters YieldRequested; changed is exact |
| Status.TrainingJob.MarkStarting | internal/controller/status_helpers.go:86-110 | records the attempt and its objects and keeps the old request id |
| Status.TrainingJob.MarkRestoring | internal/controller/status_helpers.go:184-227 | records the attempt and forgets the request; an equal selection is kept |
| Lifecycle.ReconcileIsARun | internal/controller/resumabletrainingjob_controller.go:160-371 | every outcome of the controller code, dying anywhere, is the outcome of a run of the machine |
| Lifecycle.YieldIsARun | fixtures/pytorch_ddp_counter/train.py:387-412 | every outcome of the trainer's yield branch, dying after any upload, is the outcome of a run of the machine |
| Trainer.UploadStagedFiles | sdk/python/yield_sdk/checkpoint.py:301-322 | the artifacts returned are those uploaded, in order; whatever dies when, the bucket stays ordered and loses nothing |
| Trainer.YieldBranch | fixtures/pytorch_ddp_counter/train.py:387-412 | dying after any upload keeps the bucket ordered; the marker slot changes only if the manifest is stored, complete, and describes attempt, identity, time and every file with path, size and digest |
| ObjectStorage.PutArtifact | sdk/python/yield_sdk/checkpoint.py:301-322 | storing an artifact keeps the order invariant and every complete manifest |
| ObjectStorage.PutManifest | sdk/python/yield_sdk/checkpoint.py:325-384 | storing a manifest whose artifacts are stored keeps both, and the manifest is then complete |
| ObjectStorage.PutMarker | fixtures/pytorch_ddp_counter/train.py:387-412 | storing a marker for a complete manifest of that attempt keeps both |
| Checkpoints.MarkerNamesDiffer | internal/checkpoints/types.go:67-70 | different attempts have different marker objects |
| Checkpoints.IdsNameOneAttempt | sdk/python/yield_sdk/checkpoint.py:172-174 | a generated checkpoint id determines its attempt |
| Checkpoints.IncompleteExactly | internal/checkpoints/types.go:88-125 | a manifest is incomplete if and only if one of its fields, or of its artifacts', is missing |
| Catalog.ObservePause | internal/checkpoints/catalog.go:67-121 | an accepted observation answers this request, and marker and manifest are strictly newer than it; a marker with an empty field is a read error, one with a malformed time is not ready |
| Catalog.AcceptedExactly | internal/checkpoints/catalog.go:67-121 | in an ordered bucket, accepted if and only if the attempt's marker answers the request and both times are later; what is accepted is complete and of that attempt |
| Catalog.ObservationExactly | internal/checkpoints/catalog.go:67-201 | in any bucket, the exact condition of acceptance and of a read error, and every field of the accepted reference |
| Catalog.CandidateExactly | internal/checkpoints/catalog.go:153-201 | in any bucket a manifest is loaded for selection if and only if it is whole and has every artifact stored |
| Catalog.SelectResumeCheckpoint | internal/checkpoints/catalog.go:123-165 | nothing exactly when no listed candidate is acceptable, otherwise the reference of a newest acceptable one |
| Catalog.SelectedIsComplete | internal/checkpoints/catalog.go:153-165 | in an ordered bucket every candidate is complete under the name it is given |
| Catalog.ChosenIsComplete | internal/checkpoints/catalog.go:123-165 | whatever the selection answers from an ordered bucket is listed, compatible and complete there, and every field of the answer is the stored manifest's |
| Selection.SelectLatestCompatible | internal/checkpoints/selector.go:9-39 | some result if and only if a candidate is compatible, then one than which no compatible candidate is newer, and of equally new ones the first listed |
| Selection.LatestIsMaximum | internal/checkpoints/selector.go:16-33 | the choice is the lexicographic maximum of completion time and manifest URI |
| Selection.ChoiceIgnoresOrder | internal/checkpoints/selector.go:9-39 | with distinct (time, URI) pairs the choice does not depend on the order of the candidates |
| Selection.NewerIsStrictWeakOrder | internal/checkpoints/selector.go:16-33 | the comparator is a strict weak order on all manifests, unparseable times included |
| Restore.ValidateRestoreManifest | sdk/python/yield_sdk/checkpoint.py:263-298 | raises if and only if some shared dimension, the format or the size rule fails; the mode follows the sizes |
| Restore.AcceptanceExactly | internal/checkpoints/compatibility.go:35-108 | for a runtime that agrees with the request, controller acceptance with the SDK's format is trainer acceptance plus the controller's own checks |
| Restore.ControllerAcceptanceSuffices | internal/controller/status_helpers.go:424-445 | an accepted manifest is refused by the trainer only for its format, never when only the SDK's format is supported, and all recorded modes equal the trainer's |
| Restore.RenderedAcceptsExactly | internal/jobset/render.go:127-152 | the rendered trainer's check accepts a chosen manifest if and only if it is in the SDK's format, the template gives its six identity values, and its size is the trainer's or a change is permitted, by the spec with admitted counts and by the template without |
| Restore.UnnamedShapeIsRefused | sdk/python/yield_sdk/runtime.py:59-109 | a job and checkpoint for h100 whose template names no GPU shape is refused by its trainer |
| ElasticPlan.EvaluatePlan | internal/elastic/plan.go:24-159 | a reclaim count occurs exactly with in-place shrink, leaves the target, and resizes start only unpublished and not in progress |
| ElasticPlan.PlanExactly | internal/elastic/plan.go:24-159 | the exact condition of every kind of plan, free of the order of tests, with its reclaim and worker counts |
| ElasticPlan.Patched | internal/elastic/reclaim.go:23-62 | afterwards the wanted count is published and no further update is needed; other PodSets keep theirs |
| Resize.Workload.Patch | internal/controller/workload_status_patch.go:63-119 | a patch is sent if and only if the published count differs, and then changes it to the wanted one |
| Resize.ElasticJob.SyncStatus | internal/controller/elastic_plan.go:122-207 | every field is brought in line with plan and input; changed is exact |
| Resize.ElasticJob.ClearStale | internal/controller/elastic_execute.go:266-289 | the published flag is cleared, a stale state becomes idle or completed; changed is exact |
| Resize.ElasticJob.CompleteAfterRelaunch | internal/controller/elastic_execute.go:304-333 | a relaunch in progress becomes completed and its path is erased |
| Resize.ElasticJob.ExecuteShrinkInPlace | internal/controller/elastic_execute.go:110-179 | the patch lands before the flag is set; a failed patch leaves both alone; at most one patch is sent |
| Resize.ElasticJob.ExecuteRelaunch | internal/controller/elastic_execute.go:190-261 | the resize is in progress, the flag cleared and the entry removed, unless the patch fails |
| Resize.ElasticJob.Execute | internal/controller/elastic_execute.go:58-102 | the stop flow is triggered if and only if the plan relaunches; no status change goes unreported |
| Resize.ElasticJob.ReconcileResize | internal/controller/resumabletrainingjob_controller.go:198-246 | status and Workload after one elastic reconcile, with a status write that may not land |
| ResizeRuns.PlansExactly | internal/controller/elastic_plan.go:26-88 | when each plan is made, in the fields of status, spec and Workload |
| ResizeRuns.ReconcileExactly | internal/controller/elastic_execute.go:58-289 | state, path, flag, counts and Workload entry after a recorded reconcile, for each plan and for a failing patch |
| ResizeRuns.DisabledExactly | internal/controller/elastic_execute.go:304-333 | without elasticity only a finished relaunch is recorded |
| ResizeRuns.ReclaimSafety | internal/elastic/plan.go:49-159 | over any run of target changes, capability reports, blocks, patch failures and lost status writes the published count leaves the minimum, and other entries are untouched |
| ResizeRuns.FreshJobKeepsMinimum | internal/controller/elastic_plan.go:26-88 | for a new job, whatever its runtime reports, the published count is always between zero and preferred minus minimum |
| ResizeRuns.FreshJobPublishes | internal/controller/elastic_execute.go:110-179 | once the runtime reports that it can, a new job publishes exactly preferred minus target |
| ResizeRuns.CapabilityIsReported | internal/controller/elastic_plan.go:168-172 | the recorded capability is the last report from outside, or the initial value |
| ResizeRuns.FreshJobPublishesOnlyAfterReport | internal/controller/elastic_plan.go:63-66 | a new job publishes only where the last report was that it can |
| ResizeRuns.SilentRuntimePublishesNothing | internal/controller/elastic_plan.go:168-172 | without such a report no run of a new job puts any entry on its Workload |
| ResizeRuns.RepeatSendsNoPatch | internal/controller/workload_status_patch.go:84-98 | after a lost status write the repeated reconcile has the same plan, sends no second patch, and ends where an undisturbed one does |
| ResizeRuns.RelaunchAtMostOnce | internal/controller/elastic_execute.go:190-225 | between a recorded relaunch trigger and the next lies a completion, or a recorded NoResize or Blocked |
| ResizeRuns.PublishAtMostOnce | internal/controller/elastic_execute.go:147-159 | between a recorded publication and the next resize action lies a recorded NoResize |
| ResizeRuns.CompletesExactlyAfterTrigger | internal/controller/elastic_execute.go:293-333 | a reconcile completes a relaunch if and only if the run was just restored and a recorded trigger stands, with no planning or completing reconcile recorded since |
| ResizeRuns.CompletionActsAgainExactly | internal/controller/elastic_plan.go:45-50 | a completing reconcile acts on its target again if and only if there is quota, no preemption, nothing published and the target differs within bounds; it relaunches if and only if in-place is ruled out besides |
| ResizeRuns.GrowsExactlyBelowPreferred | internal/controller/elastic_plan.go:45-50 | some run plans a growth if and only if the job starts below a preferred count that meets the minimum |
| ResizeRuns.FreshJobNeverGrows | internal/controller/elastic_plan.go:45-50 | with a fixed preferred count no reconcile of any run plans a growth |
| YieldHistory.Annotations.CountYieldsInWindow | internal/controller/telemetry.go:161-182 | the number of parseable entries not before the window, zero for no window |
| YieldHistory.Annotations.RecordYieldEvent | internal/controller/telemetry.go:205-226 | the new history is what the window keeps plus the event, cut to seconds |
| YieldHistory.MarshalKeepsSeconds | internal/controller/telemetry.go:184-237 | writing and reading back keeps every entry up to its fraction of a second |
| YieldHistory.PrunedAgreesWithFull | internal/controller/telemetry.go:161-237 | for any recorded yields on any parsed history, fractions included, at any later instant the pruned annotation counts what the full second-truncated one would |
| YieldHistory.PrunedWithinASecond | internal/controller/telemetry.go:161-237 | that count lies between the exact counts for the window less a second and for the window |
| YieldHistory.CountMonotone | internal/controller/telemetry.go:173-181 | a later cutoff never counts more |
| YieldHistory.CountIsSize | internal/controller/telemetry.go:173-181 | the count is the number of entries at or after the cutoff |
| YieldHistory.RecentExactly | internal/controller/telemetry.go:213-222 | recording keeps exactly the old entries within the window |
| Priority.ComputeEffectivePriority | internal/policy/checkpointpriority/decision.go:177-197 | the running clamp computes Effective and ends inside int32 |
| Priority.EffectiveIsNearest | internal/policy/checkpointpriority/decision.go:177-197 | under a valid policy the result is the one admissible value nearest to base plus adjustment |
| Priority.LowerBoundKept | api/v1alpha1/checkpointprioritypolicy_webhook.go:118-125 | the lower bound is met if and only if the bounds do not cross |
| Priority.DecisionDecays | internal/policy/checkpointpriority/window.go:28-113 | with telemetry fixed, time only moves the decision along protected, budget, cooling, active, stale; missing telemetry and staleness are absorbing |
| Priority.PriorityNeverRises | internal/policy/checkpointpriority/decision.go:34-121 | with ordered boosts the effective priority never rises between events |
| Priority.NeverRisesExactlyWhenOrdered | internal/policy/checkpointpriority/decision.go:34-197 | for a valid policy, bounded or not, the priority never rises for any job with an int32 base if and only if the boosts are ordered or the bounds leave one value |
| Priority.DecisionWithinBounds | api/v1alpha1/checkpointprioritypolicy_webhook.go:72-140 | every decision of a valid policy is inside its bounds and int32 |
| Priority.EffectiveFollowsState | internal/policy/checkpointpriority/decision.go:44-197 | state, preemption state and adjustment belong together in every decision |
| Priority.DecisionExactly | internal/policy/checkpointpriority/window.go:28-113 | the exact condition of every decision in start, resume, yields, checkpoint and the policy's windows |
| Priority.MeaningExactly | internal/policy/checkpointpriority/decision.go:34-197 | preemption state and clamped adjustment of every decision, fail-open and fail-closed included |
| DeviceClaims.InjectIntoPodSets | internal/kueue/rtj_podsets.go:118-149 | claims outside, PodSets inside: every pod ends as its accounted form |
| DeviceClaims.BuildInjections | internal/jobset/dra_render.go:31-58 | the claims that have a template ref, in order; none when devices are off |
| DeviceClaims.InjectClaims | internal/jobset/dra_render.go:72-103 | jobs outside, claims inside, present names skipped: every pod ends as its launched form |
| DeviceClaims.AnyContainerMatches | internal/jobset/dra_render.go:108-120 | true if and only if some container is a target |
| DeviceClaims.RefsResolveEveryClaim | internal/dra/profile.go:96-120 | with the refs TemplateRefs writes, both injectors work from the same list |
| DeviceClaims.AccountedEqualsLaunched | internal/kueue/rtj_podsets.go:118-180 | the two forms of a pod are equal, entry for entry, if and only if the names that reach it are new and pairwise different there |
| DeviceClaims.UniqueClaimsAgree | internal/jobset/dra_render.go:31-158 | so for unique claim names absent from the template the two injectors agree |
| DeviceClaims.LaunchedTwice | internal/jobset/dra_render.go:60-103 | injecting twice is injecting once, for any claims and any template |
| DeviceClaims.InjectedExactly | internal/kueue/rtj_podsets.go:118-180 | a container holds a claim if and only if it did before or a claim of that name is for it; the pod's entries likewise, with the template named after job and claim |
| DeviceClaims.OrderIsKept | internal/jobset/dra_render.go:79-100 | of two claims for a container the earlier one of the spec comes first |
| DeviceClaims.TemplateRefsAreSorted | internal/dra/profile.go:103-120 | the refs are those of the claims, sorted by claim name |
| DeviceClaims.ResolvedExactly | internal/jobset/dra_render.go:45-57 | a claim is injected if and only if it has a ref |
| DeviceClaims.LastRefCounts | internal/jobset/dra_render.go:39-43 | of several refs for a claim the last one counts |
| DeviceProfile.BuildProfile | internal/dra/profile.go:37-85 | canonical form, its hash, and each class once in order; empty when devices are off |
| DeviceProfile.FingerprintIsCanonical | internal/dra/profile.go:37-85 | permuting claims, permuting selectors and renaming claims, in any combination, change nothing |
| DeviceProfile.CanonicalExactly | internal/dra/profile.go:45-67 | for claims whose text is unambiguous, equal canonical forms if and only if equal requests, counts included |
| Topology.ParseAssignment | internal/topology/assignment.go:76-104 | succeeds if and only if there are levels and every slice is well formed, and then gives all domains in order |
| Topology.DecodeDomains | internal/topology/assignment.go:108-140 | domain d gets at each level the universal value or its own one, and its pod count |
| Topology.ResolveLevelValues | internal/topology/assignment.go:144-175 | one value per domain, or an error exactly when neither encoding fits |
| Topology.ResolvePodCounts | internal/topology/assignment.go:179-199 | one count per domain, or an error exactly when neither encoding fits |
| Topology.DecodingConserves | internal/topology/assignment.go:76-199 | domains and pods are conserved over universal and individual encodings |
| Topology.StatusRoundTrip | internal/topology/assignment.go:202-226 | the status form, encoded and decoded again, gives back every domain |
| Topology.DecodedExactly | internal/topology/assignment.go:108-199 | each label is the universal value or prefix, own root and suffix in this order; each count the universal or own one |
| Topology.AffixesRoundTrip | internal/topology/assignment.go:156-172 | values encoded with any shared prefix and suffix decode to themselves |
| Topology.CommonNodeSelector | internal/topology/assignment.go:305-339 | the labels of a single domain, otherwise exactly the level keys on which all domains agree, with that value |
| Topology.CommonIsGreatest | internal/topology/assignment.go:305-339 | a selector is satisfied by every assigned domain if and only if the common one contains it |
| Topology.RepresentableExactly | internal/topology/assignment.go:237-301 | representable if and only if there is one domain, or the common selector fixes every level but possibly the lowest |
| Constraints.InjectTopology | internal/jobset/topology_injection.go:31-71 | succeeds if and only if every assigned job is representable, and then sets the common selector in each |
| Constraints.ConflictingKeys | internal/jobset/podsetupdates.go:141-164 | exactly the keys present with another value |
| Constraints.ApplyPodSetUpdates | internal/jobset/podsetupdates.go:71-137 | each field of each job is merged or left alone; applied if and only if nothing clashes |
| Constraints.MergePodSetUpdates | internal/provisioning/podsetupdates.go:66-91 | the nested loops merge the entries of all checks in order |
| Constraints.LastValueWins | internal/provisioning/podsetupdates.go:66-91 | a merged key exists if and only if some check sets it, with the last one's value |
| Constraints.TolerationsAreConcatenated | internal/provisioning/podsetupdates.go:66-91 | every check's tolerations survive, in the order of the checks |
| Constraints.TolerationsExactly | internal/jobset/podsetupdates.go:168-191 | appending keeps the old tolerations in place and adds exactly the new ones |
| Constraints.ConstraintsCompose | internal/jobset/render.go:104-191 | the final selector holds all of topology and all of the update, keeps every other key, and has nothing else; labels and annotations are those of the template that are not Kueue's plus the update |
| Constraints.ReapplyingChangesNothing | internal/jobset/podsetupdates.go:71-191 | the same update again finds no clash and changes nothing, tolerations included |
| Constraints.Strip | internal/jobset/flavor_injection.go:43-55 | exactly the labels and annotations that are not Kueue's are kept |
| Constraints.StrippedExactly | internal/jobset/render.go:222-233 | exactly the keys under Kueue's prefixes go, all else stays |
| Constraints.RenderConstraints | internal/jobset/render.go:104-184 | stripping, topology and updates in that order fail if and only if some job's topology is not representable or some prepared job clashes, and otherwise give every job its final form |
| Constraints.DryRun | internal/controller/resumabletrainingjob_controller.go:338-343 | the check before the launch passes if and only if no job of the parsed template clashes |
| Constraints.DryRunAgreesExactly | internal/controller/resumabletrainingjob_controller.go:335-356 | over all jobs the two verdicts agree if and only if some clash is seen by both, or one that only the first sees exists just when a failure that only the second sees does |
| Constraints.DryRunCanDiffer | internal/controller/resumabletrainingjob_controller.go:335-356 | for every representable topology that sets a key, some job and update pass the first check and fail rendering, and some the other way round |
| Constraints.KueueLabelsDiffer | internal/jobset/render.go:104-107 | an update that changes a Kueue label of the template is refused before the launch although rendering accepts it |
| LaunchGate.EvaluateLaunchGates | internal/controller/launch_gate.go:80-214 | with a Workload ready if and only if the view is launch ready and the topology decodes, never waiting for a missing assignment; without one ready if and only if topology is off; and the exact reason otherwise |
| LaunchGate.BuildView | internal/provisioning/view.go:101-175 | quota, checks, provisioning and topology state of the Workload; safe defaults without one |
| LaunchGate.ParseTopology | internal/provisioning/topology.go:75-142 | a second pass is pending if and only if topology is configured and unassigned or delayed |
| LaunchGate.ParseAdmission | internal/topology/assignment.go:45-72 | fails if and only if some assignment does not decode; otherwise holds for exactly the assigned PodSets their own decoded assignment, the last one of each |
| LaunchGate.ClassifyProvisioning | internal/provisioning/requests.go:65-97 | the classified state of the first check that provisions, not configured if there is none |
| LaunchGate.EvaluateReadinessCheck | internal/controller/launch_gate.go:222-242 | the state of the first readiness check in a known state, none if there is none |
| LaunchGate.ChecksReason | internal/controller/launch_gate.go:119-161 | the exact reason for every state of provisioning and of the first known readiness check |
| Shape.TotalAdmittedCount | internal/controller/resume_flow.go:241-247 | the 32-bit total, whatever the order of the range over the map |
| Shape.EffectiveWorldSize | internal/jobset/render.go:268-279 | the positive total or the identity's world size |
| Shape.AdmittedWorldSize | internal/controller/resume_flow.go:251-260 | the positive total or the identity's world size |
| Shape.PlanWorldSize | internal/controller/launch_plan.go:55-68 | the non-zero total or the identity's world size |
| Shape.WorldSizesAgree | internal/controller/launch_plan.go:55-68 | the three agree if and only if the 32-bit total is not negative or equals the identity, so on all non-negative counts that fit |
| Shape.ReplicatedJob.ApplyAdmittedReplicaCount | internal/jobset/flavor_injection.go:12-37 | full admission gives back the template's replicas; pods exceed admitted less one replica, and stay within admitted if and only if one replica fits |
| Shape.ReplicatedJob.PerReplica | internal/kueue/rtj_podsets.go:101-112 | the least of parallelism and completions, with the defaults of both implementations |

## Left out

- Manager mode and MultiKueue mirroring, finalizers and deletion of the job itself: they depend on an adapter that is not part of this model.
- Conditions, messages, events, metrics, suspension and admission status: kept for observation only; no modelled decision reads them.
- Status writes of device templates, eviction classification, priority and readiness made before the modelled decisions: they change no modelled field; a failed one ends the reconcile as a crash does.
- Launch gates, template readiness and the resize verdict enter a lifecycle reconcile as inputs; the modules on gates and resizing treat each on its own.
- Deletion of control ConfigMaps by others: the machine only creates and rewrites them.
- Edits of the checkpoint storage URI during a job's life: the lifecycle machine keeps it fixed.
- Name hashing of child objects and 32-bit wrap-around of the run attempt: attempts are taken to have different names.
- The trainer's retry of an upload at a changed size, its barriers and its ranks other than zero: only rank zero writes to the bucket.
- JSON and annotation text, time zones and SHA-256: timestamps and documents are modelled after parsing, the hash is an arbitrary function.
- Saturation of Go durations beyond 292 years, and 32-bit overflow of worker counts in the resize planner.
- Shape.ReplicatedJob.Pods: does not model 32-bit overflow of replicas times pods per replica, because the source's own count does not guard against it and the replica laws are about counts that fit.
- Recovery-timeout classification, the fake provisioner, API version conversion and deep copies: shallow or test-only.
- Rendering of volumes, object metadata, resource flavors, and of environment variables other than world size, permission, cluster and job identity: plain upserts. The runtime's other identity variables belong to the job's template.
