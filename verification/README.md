# Argo CD: a verified model of syncing and of what surrounds it

This project models, in Dafny, the parts of Argo CD in which many steps have to fit together, and proves what they
promise over every input, every interleaving and every sequence of steps. `dafny verify dfyconfig.toml` checks all of
it.

## What is modelled

**Sync operations.** An operation is executed in many reconcile steps, each of which finds out from the persisted
lists of hook and resource statuses where it is. `HookSync.Step` is one such step as a function of the operation, its
persisted state and a world that answers every API call. `SyncContext` is the same step the way the controller writes
it, as a class that changes its fields in place, and each of its methods is proved equal to its function. `SyncRun`,
`SyncTheorems`, `Progress` and `Completion` are about whole runs of steps under arbitrary answers. `HookReports` ties
hook statuses to what live hooks report, `HookNames` and `Annotations` are what hooks are called and what makes one, and
`Outcomes` are the ends that come before a sync. `ApplySync` is the apply-based sync of a task list, `Admission` what it
lets through, `ApplyDetails` what it records, `Schedules` its goroutines under every schedule, and `KindOrder` the order
of its tasks.

**Comparison.** `Ownership` is the depth-first search that takes the children of a resource out of the very map it
ranges over, in any order; `Comparison` is deduplication, pairing with targets, and the trees of all listed resources;
`KindsAndNames` says what that means for objects, which are told apart by kind and name.

**Locks, cache and references.** `KeyLock` is the lock per key with its double-checked map, as steps of any number of
threads. Every run of it is shown to be, for those who lock and unlock, a run of `LockTable`, a table of the keys that
are held. `RepoCache` (the repository server's cache and shared working trees, with keys in `CacheKeys`) and
`ProjectServer` (projects and applications, with the checks of a project update in `Projects`) lock and unlock with the
operations of that table. `RepoRequests` and `ProjectRequests` are about what becomes of each request.

**Wire format.** `Varint`, `ProjectCodec`, `CodecTheorems`, `WrittenFields` and `TokenRequest` are the encoder, the size
function and the decoder of the token creation request, for all messages and for all bytes, following "Base 128 Varints"
and "Message Structure" of the Protocol Buffers Encoding specification. Integers are 64-bit words where the code's are,
with their wrap-around.

**An application over time.** `History`, `AppLifecycle` and `AppHistory` are the deployment history, rollback, and the
automated sync, over any sequence of refreshes, requests, specification changes and operation steps. An operation step
there is `HookSync.Step`, and the steps of each operation are shown to form a run.

Calls to Kubernetes, git and the manifest generators are answers of an arbitrary world: function-valued fields of the
step's environment, or fields of events. Where a result needs something of the world it says so in a precondition
(`ResolvesCommits`, `Smooth`, `Sensible`).

## What the code does that one would not expect

- Updating a hook status always counts as a change, because a pointer is compared with a value; a hook phase therefore
  takes at least one step more than its last hook. The model has it so, and the bound of four steps includes it.
- A hook sync whose every task is annotated `Skip`, without a hook marked `Sync` or `Skip`, never ends
  (`Completion.SkipOnlyNeverEnds`); `Completion.CompletionCondition` says exactly when a sync ends.
- A kind outside the resource order has the rank of `Namespace`. Tasks that mix the two can go in a circle
  (`KindOrder.MixedCircle`); `KindOrder.OrderCondition` says exactly when the order is one.
- An application request with an empty project field locks the empty name and is stored under the default project, so
  an update of the default project can take away what such an application is about to use
  (`ProjectServer.DefaultDropsInUse`). Only an application whose own last write left the field empty can lose something
  that way; `ProjectServer.UpdatesKeepWhatIsUsed` is the exact condition.
- A sync generates its manifests with the overrides of the operation, or else with those the specification has then,
  but its deployment is stored with those the specification has when it is recorded. The two can differ both ways
  (`AppHistory.OwnImageIsNotStored`, `AppHistory.LaterImageIsStored`); `History.StoredOverridesCondition` says exactly
  when they agree.
- A rollback to a deployment that is stored without overrides asks for none, and so deploys those that the specification
  has by then (`AppHistory.RollbackDeploysLaterImage`); `History.RollbackIsExact` says exactly when a rollback deploys
  the overrides that were deployed.
- With six or more stored deployments the newest one is dropped rather than the oldest
  (`History.SixLoseTheNewest`); `History.NewestIsKept` says exactly when, and no sequence of steps gets there.
- A message comes back from its wire format exactly if its unrecognized bytes are whole unknown fields
  (`CodecTheorems.RoundTripCondition`); `CodecTheorems.KnownFieldIsTakenUp` is one that does not.

## Model

| member | source | states |
|---|---|---|
| SyncTheorems.PhaseOrder | controller/sync_hooks.go:25-76 | over every run: no real apply or prune and no Sync hook creation before every PreSync hook has succeeded; no PostSync hook creation before also every Sync hook that runs has succeeded, the step that entered this PostSync phase, this one or an earlier one, found the application healthy, and a step before that one applied with success |
| SyncTheorems.StartedProperly | controller/sync.go:268-301 | whatever the persisted lists show as started was started by an earlier step of the run: Sync by a successful real apply, PostSync in the step that created or recorded the first PostSync hook, which found Healthy with Sync started and the PreSync and Sync hooks done |
| SyncTheorems.PostSyncEntered | controller/sync_hooks.go:54-72 | every step of a run that creates or records a PostSync hook when none was recorded found the application healthy and the PreSync and Sync hooks done, and comes after a step that applied with success |
| SyncTheorems.SucceededIsSound | controller/sync_hooks.go:32-75 | a hook sync with a task that ends Succeeded applied each un-annotated target exactly once, with pruning on the step that applied pruned each live object without a target exactly once, no other step applied or pruned anything, no real apply or prune failed, each hook that runs in a phase has exactly one status there, it is Succeeded and its live object has said so in a step of the run, and the last step did nothing more |
| SyncTheorems.StatusWasReported | controller/sync_hooks.go:201-262 | every hook status of every reachable state is what the live object of that hook reported in an earlier step |
| SyncTheorems.SucceededWasSeen | controller/sync_hooks.go:343-480 | a hook is recorded as Succeeded only after its live object has said so: a pod or workflow by its phase, a job by a Complete condition and no Failed one |
| SyncTheorems.AppliedAtMostOnce | controller/sync_hooks.go:180-197 | no run, however it ends, applies an object more often than it is a target |
| SyncTheorems.AppliedOnce | controller/sync.go:280-301 | before Sync has started nothing was really applied, and from then on exactly the targets were |
| SyncTheorems.EarlierCallsSucceed | controller/sync_hooks.go:38-46 | a real apply or prune that fails ends its run |
| SyncTheorems.PrunedOnce | controller/sync.go:331-356 | as long as the operation goes on, a step prunes exactly the live objects without a target, once each, if it applied and pruning is on, and otherwise nothing |
| SyncTheorems.OneStepApplies | controller/sync.go:280-292 | at most one step of a run really applies or prunes anything |
| SyncTheorems.OneApplyStepApplies | controller/sync.go:207-218 | an apply-strategy operation, as a rollback is, that goes on after its first step has applied and pruned everything with it, and is over with the second, which really applies and prunes nothing |
| SyncTheorems.SucceededApplyIsSound | controller/sync.go:184-218 | an apply-strategy operation with a task that ends Succeeded took two steps: the first really applied each target exactly once and, with pruning on, pruned each live object without a target exactly once, every call with success, and the second did nothing |
| SyncTheorems.HistoryOnlyOnSuccess | controller/sync.go:153-159 | a step writes history exactly if a full sync that is not a dry run has succeeded, never while terminating, and with the commit it compared at |
| SyncTheorems.DryRunCalls | controller/sync.go:184-202 | every call of every step of a dry run is a dry-run apply |
| SyncTheorems.RevisionPinned | controller/sync.go:50-99 | once a step has compared, every later step asks for, compares at and records that same commit, however branches move |
| SyncTheorems.StepRevision | controller/sync.go:73-99 | one step keeps the commit it was given, records the one it compared at, and resolves a commit that was asked for to itself |
| SyncRun.HookSettled | controller/sync_hooks.go:201-262 | a hook status once completed never changes in the rest of the run, and that hook is never created or deleted again |
| SyncRun.TerminatingStep | controller/sync_hooks.go:535-558 | a step in Terminating ends Failed or Error, writes no history, applies nothing; every unfinished hook gets a delete attempt and ends Failed, completed ones are untouched, and the phase is Failed exactly if all deletions succeed |
| SyncRun.RunGood | controller/sync_hooks.go:494-515 | in every reachable state hook statuses have distinct keys and unfinished ones belong to hooks that can still be running |
| SyncRun.DryRunEnds | controller/sync.go:189-202 | a dry run is over after its first step |
| SyncRun.StopHooksPointwise | controller/sync_hooks.go:535-558 | the keyed update while ranging over the list fails exactly the unfinished entries in place |
| SyncStep.SyncOnceOk | controller/sync.go:171-230 | the rule of one step: which calls it may make, what stays, what may start, and what Succeeded requires |
| SyncStep.DoHookSyncOk | controller/sync_hooks.go:25-76 | the hook sync of a step obeys that rule |
| SyncStep.RunHooksOk | controller/sync_hooks.go:129-176 | a phase that may run obeys that rule |
| SyncApply.StepApplies | controller/sync_hooks.go:38-52 | a step really applies only when it starts Sync, then applies the un-annotated targets once each with success or fails, and starting Sync, the applies and their success go together |
| SyncApply.StepPrunes | controller/sync_hooks.go:180-197 | a step that applies prunes what it has to exactly once, and no other step that leaves the operation going prunes |
| HookFacts.RunHooksEvolves | controller/sync_hooks.go:129-176 | whatever the cluster answers, a phase changes no completed status, calls only for its own unfinished hooks, and never ends the operation as succeeded |
| HookFacts.PassQuiet | controller/sync_hooks.go:129-176 | a pass that reports no change made no call, touched nothing and found every hook completed |
| HookFacts.RunHookEvolves | controller/sync_hooks.go:201-262 | one hook likewise, and if it is left alone the state is the same |
| HookFacts.ArgoHooksAre | controller/sync_hooks.go:96-124 | the hooks of a sync are exactly the manifests marked PreSync, Sync or PostSync, in order |
| HookFacts.NonHookTasksAre | controller/sync_hooks.go:180-194 | the tasks a hook sync applies itself are exactly those without a hook annotation, in order |
| HookReports.RunHookReports | controller/sync_hooks.go:201-262 | a completed hook is left alone; any other is created exactly if it is missing, gets the status that its live object reports, is deleted exactly if its policy says so, and it is an error exactly if no live object was seen |
| HookReports.LivePhaseSays | controller/sync_hooks.go:343-480 | the phase of a live hook is Succeeded, Failed or Error exactly if its kind says so, and unfinished otherwise |
| HookReports.PassReports | controller/sync_hooks.go:129-176 | a pass that does not fail has polled every unfinished hook of the phase, and changed no other status |
| HookReports.StepReports | controller/sync_hooks.go:25-76 | every status that a step changes is what a live object of that hook reported in that step |
| HookNames.NameOfHook | controller/sync_hooks.go:205-211 | a hook has its own name, or one that begins with what it asks for; the key has its kind and phase; there is none exactly if the commit is too short |
| HookNames.GeneratedNamesDiffer | controller/sync_hooks.go:205-211 | a generated name is generated again only in the same phase of an operation started at the same time for the same commit prefix |
| Annotations.ListHasWords | controller/sync_hooks.go:290-296 | a comma-separated list has exactly the words written in it, whatever space is around them |
| Annotations.HookTypesAre | controller/sync_hooks.go:284-297 | an object is a hook of exactly the types its annotation lists |
| Annotations.AnnotatedWithOne | controller/sync_hooks.go:284-297 | an object annotated PreSync is a PreSync hook and no other, and so for each type; Skip alone makes no hook |
| Annotations.SpaceDoesNotCount | controller/sync_hooks.go:290-296 | for instance with blanks, tabs and line ends around the names |
| Annotations.PoliciesAre | controller/sync_hooks.go:265-281 | a hook is deleted when it succeeds, or when it fails, exactly if its annotation lists that policy |
| Annotations.HelmHooksAre | controller/sync_hooks.go:304-325 | an object with the annotation of Helm is a hook exactly if it does not list crd-install |
| Completion.CompletesWithinFour | controller/sync.go:171-230 | from any reachable running state, if from then on calls succeed, hooks report completed and the application is healthy or has no PostSync hook, four further steps complete the operation |
| Completion.CompletionCondition | controller/sync_hooks.go:186-190 | when all calls and hooks succeed and the application is healthy or has no PostSync hook, the operation ends if and only if there is an un-annotated task or a hook marked Sync or Skip, and then within four steps and, its deployment being recorded, Succeeded |
| Completion.NeverFails | controller/sync_hooks.go:25-76 | when all calls and hooks succeed, and however the health changes from step to step as long as it can be assessed, no number of steps ends the operation otherwise than Succeeded |
| Completion.WaitsForHealth | controller/sync_hooks.go:54-68 | a step that finds the application not healthy before PostSync leaves the operation running with its hooks as they were and makes no call; if the health cannot be assessed it ends in Error |
| Completion.WaitsAndSucceeds | controller/sync_hooks.go:54-75 | however many steps the application takes to become healthy, four steps that find it so end the operation, Succeeded |
| Completion.NeverEnds | controller/sync.go:280-292 | otherwise it does not end however often it is resumed |
| Completion.HookFreeSucceeds | controller/sync.go:171-230 | an application without hooks, all of whose calls succeed, is synced by a run of two steps that ends Succeeded |
| Completion.SkipOnlyNeverEnds | controller/sync_hooks.go:327-341 | an application of one resource annotated Skip is such a case |
| Completion.RunCovered | controller/sync_hooks.go:201-262 | with fixed manifests every recorded status belongs to a hook of the manifests |
| Progress.SmoothStep | controller/sync_hooks.go:25-76 | a smooth step in which PostSync does not have to wait for health completes the operation or lowers the rank of the state |
| Progress.SmoothPhase | controller/sync_hooks.go:129-176 | a smooth phase goes on, fails, or completes all its hooks |
| ApplySync.GroupsPartition | controller/sync.go:465-477 | every target is in exactly one group, in order, and a group ends exactly where the kind changes |
| ApplySync.DoApplyMeaning | controller/sync.go:380-479 | an apply that succeeds has really and successfully applied each target once, in order; a failed one none of them twice; every real apply with pruning on prunes each live object without a target exactly once, in order, and otherwise none is pruned; a dry run only validates |
| ApplySync.PlanFits | controller/sync.go:312-356 | which calls the jobs of an apply make and with which flags, and that a job with a call succeeds exactly if the call does |
| ApplySync.TargetsAre | controller/sync.go:385-391 | the creates of an apply are the tasks with a target, in order |
| ApplySync.LivesAre | controller/sync.go:385-391 | its prunes are the tasks without one, in order |
| Admission.DoApplyAdmits | controller/sync.go:410-463 | an apply makes applies for exactly the objects of the groups whose kind is served and permitted, in order and with the flags asked for; it succeeds if and only if every other group is excused, which only a dry run does whose targets define the kind, and every call succeeds |
| Admission.RealAppliesAdmitted | controller/sync.go:410-463 | every real apply of every run is of a group that its step found served and the project permits, and forced exactly if the operation says so |
| Admission.HooksAreNotApplied | controller/sync.go:448-452 | whatever the tasks are, no apply is of a hook |
| Admission.VerdictOnHooks | controller/sync_hooks.go:79-93 | the first hook whose kind is not served is an error, the first that is not permitted a failure, and otherwise all are |
| Admission.ForbiddenHookStops | controller/sync_hooks.go:25-30 | if the first step finds such a hook it is the last one, the operation fails, and only dry-run applies were made |
| Admission.HooksWerePermitted | controller/sync_hooks.go:79-93 | in every run, whenever a hook is created or anything really applied or pruned, the first step had found all hooks served and permitted |
| ApplyDetails.SuccessIsRecorded | controller/sync.go:393-460 | an apply that succeeds records Synced for every target it lets through, pruned or to be pruned for every other live object, and nothing else |
| ApplyDetails.FailuresAreRecorded | controller/sync.go:393-460 | SyncFailed is recorded for the kind and name of every call that failed, even in a dry run, unless another call for them has succeeded |
| ApplyDetails.TurnedAwayIsRecorded | controller/sync.go:412-443 | and for every target of a group that was turned away |
| ApplyDetails.AllLetThrough | controller/sync.go:410-463 | a real apply that succeeds has let every target through |
| ApplyDetails.KeysTell | controller/sync.go:485-487 | details are told apart by kind and name |
| Outcomes.CannotSync | controller/sync.go:80-129 | a step that cannot compare or set up its clients ends the operation in Error and does nothing |
| Outcomes.NothingToSync | controller/sync.go:177-182 | without any task the operation has succeeded and nothing was called |
| Outcomes.ValidationFails | controller/sync.go:184-198 | whatever the strategy, if the dry run that comes first fails, the operation has failed and nothing else was called |
| Outcomes.DryCallsUnforced | controller/sync.go:193 | that dry run never forces anything |
| Outcomes.DryRunOutcome | controller/sync.go:193-202 | a dry-run operation succeeds exactly if its validation does, records what it let through as Synced, and makes no real call |
| Outcomes.UnknownStrategyFails | controller/sync.go:226-229 | a strategy that is not known fails the operation without a real call |
| Schedules.ScheduleIrrelevant | controller/sync.go:380-500 | for every schedule, when the main goroutine returns all goroutines are done, and the returned flag, the multiset of calls, which keys have a recorded detail and whether any has are those of the sequential apply; with distinct kind and name so is every recorded detail |
| Schedules.ScheduledApplyMeaning | controller/sync.go:380-500 | what the results about runs use of an apply holds for every schedule, distinct names or not: targets applied and live objects pruned exactly once, success of every call, and a non-empty record |
| Schedules.StagesInOrder | controller/sync.go:393-477 | in every state of every schedule of the main goroutine, its WaitGroups and the goroutines it starts, a create that has started finds all prunes done and all creates of earlier kind groups done |
| Schedules.SomeoneCanMove | controller/sync.go:393-477 | as long as the main goroutine has not returned, it or a goroutine can act, and no WaitGroup counter gets negative |
| Schedules.RunCounts | controller/sync.go:393-463 | in every such state the WaitGroup counter is the number of goroutines of the current stage that are started or counted and not done |
| Schedules.EveryScheduleEnds | controller/sync.go:380-479 | no schedule is longer than six turns for each job, one for each stage and two more, so every apply returns |
| Schedules.GoroutinesRunFreely | controller/sync.go:393-463 | the main goroutine starts one goroutine for each call of a stage without waiting for the others or doing their work, and each of them can act at any time |
| KindOrder.OrderCondition | controller/sync.go:558-586 | the sort's order is a strict weak order on a list if and only if the names of namespaces and unknown kinds agree with it |
| KindOrder.UnmixedIsOrdered | controller/sync.go:558-586 | in particular on every list that does not mix namespaces with unknown kinds |
| KindOrder.MixedCircle | controller/sync.go:566-576 | a namespace, a secret and an unknown kind that the order puts in a circle |
| KindOrder.OneGroupPerKind | controller/sync.go:465-477 | sorted tasks without that mix form exactly one group per kind, known kinds in resource order, unknown ones next by name, prunes last |
| KindOrder.Sortable | controller/sync.go:262 | a list on which the order is strict weak has a sorted arrangement |
| KindOrder.LessIsByCase | controller/sync.go:558-586 | the order case by case |
| KindOrder.EarlierKindsFirst | controller/sync.go:505-586 | targets of an earlier known kind come first whatever their names, and those of a known kind but the namespace before those of an unknown one |
| KindOrder.PodsComeAfter | controller/sync.go:508-536 | for instance, what pods are made with comes before every kind that runs them, and ingresses after |
| KindOrder.RolesAndVolumes | controller/sync.go:508-536 | volumes come before claims, and accounts and roles before bindings |
| SyncState.AreHooksCompletedSuccessful | controller/sync_hooks.go:518-532 | the loop tells whether all statuses of the type are completed, and whether all are successful |
| Keyed.Upsert | controller/sync.go:482-500 | scan, replace in place or append is the keyed update |
| Keyed.LookupPut | controller/sync_hooks.go:494-515 | after it the key has the new value and every other key its old one |
| SyncContext.GetHooks | controller/sync_hooks.go:96-124 | the manifests that are hooks of some type, in order |
| SyncContext.BatchJobPhase | controller/sync_hooks.go:374-407 | the phase that the conditions of a job give |
| SyncContext.SyncContext.SetResourceDetails | controller/sync.go:482-500 | the resource list in place, as the keyed update |
| SyncContext.SyncContext.UpdateHookStatus | controller/sync_hooks.go:494-515 | the hook list in place, as the keyed update; it always reports a change |
| SyncContext.SyncContext.PruneAll | controller/sync.go:393-408 | the prunes of an apply in place, as their jobs |
| SyncContext.SyncContext.ProcessCreateTasks | controller/sync.go:410-463 | one kind group in place: excused, rejected as a whole, or applied |
| SyncContext.SyncContext.CreateAll | controller/sync.go:465-477 | the creates in place: a group is processed where the kind changes and at the end, which gives the groups of the partition |
| SyncContext.SyncContext.DoApplySync | controller/sync.go:380-479 | prunes, then one group after the other, with the outcome of the plan |
| SyncContext.SyncContext.RunHook | controller/sync_hooks.go:201-262 | one hook in place, as its function |
| SyncContext.SyncContext.RunHooks | controller/sync_hooks.go:129-176 | one phase in place, as its function |
| SyncContext.SyncContext.VerifyPermittedHooks | controller/sync_hooks.go:79-93 | whether all hooks are permitted, and the phase if not |
| SyncContext.SyncContext.SyncNonHookTasks | controller/sync_hooks.go:180-197 | the real apply of the un-annotated tasks |
| SyncContext.SyncContext.DoHookSync | controller/sync_hooks.go:25-76 | the hook sync in place, as its function |
| SyncContext.SyncContext.SyncByStrategy | controller/sync.go:203-229 | the strategies in place, as their function |
| SyncContext.SyncContext.RunSync | controller/sync.go:171-230 | a whole sync in place, as its function |
| SyncContext.SyncContext.Terminate | controller/sync_hooks.go:535-558 | termination in place, as its function |
| SyncContext.SyncAppState | controller/sync.go:44-160 | the imperative step gives exactly the step that all results about runs are about |
| Ownership.LiveObjects.GetChildren | controller/state.go:369-389 | ends on any ownership, cycles included; for every iteration order it takes out exactly the objects that an owner chain connects to the parent, each as one node controlled by the node above it, and leaves the rest as it was |
| Ownership.TakenIsBelow | controller/state.go:369-389 | an object is gone if and only if a chain of control leads to it from the parent |
| Ownership.GrownDescends | controller/state.go:361-389 | every node is connected to the parent by a chain of control |
| Comparison.GroupLiveObjects | controller/state.go:50-86 | one live object for each full name |
| Comparison.IndexByName | controller/state.go:51-54 | the last target of each full name |
| Comparison.ListByName | controller/state.go:56-64 | the live objects of each full name, in order |
| Comparison.FirstWithVersion | controller/state.go:71-77 | the first object of the version, if any |
| Comparison.ChosenMeaning | controller/state.go:48-86 | which one: of the version of the target of that name, else any; none only if there is none |
| Comparison.PairLiveObjects | controller/state.go:167-205 | the grouped object goes to the first target of its name, others are looked up; it fails exactly if a look-up does; the names of the targets leave the map |
| Comparison.GetLiveObjs | controller/state.go:144-206 | grouping and pairing together, hooks left out |
| Comparison.SkipHooks | controller/state.go:159-165 | the objects that are not hooks, in order |
| Comparison.ListLiveObjects | controller/state.go:226-249 | the listed live objects and their trees, or none when the cluster cannot be read |
| Comparison.RootObjects | controller/state.go:242-249 | the unowned live objects, each once, in any order |
| Comparison.GrowTrees | controller/state.go:304-314 | one tree for each listed live object, over the shared map, each object in at most one tree |
| Comparison.GoneIsBelow | controller/state.go:304-314 | an object is in a tree if and only if a chain leads to it from a listed resource |
| Comparison.Conservation | controller/state.go:211-354 | every grouped live object is the live object of a target of its name, or exactly one top-level resource, or exactly one node of one tree, or owned without a chain from any listed resource; and nothing else is listed |
| Comparison.ChildHasParent | controller/state.go:356-367 | what is below a resource has an owner, so nothing is both top-level and child |
| Comparison.Assess | controller/state.go:260-302 | in sync exactly if both sides are there and do not differ, and the whole exactly if all are |
| Comparison.CompareAppState | controller/state.go:211-354 | the whole comparison: targets, then unowned objects; conservation unless the cluster could not be read; status; and no entry without both sides, so its last error cannot occur |
| Comparison.TasksAreValid | controller/sync.go:237-264 | the tasks of a comparison are valid: none is empty and no target is a hook |
| Comparison.NonHooksAre | controller/state.go:159-165 | exactly the hooks are left out, and the others stay in order |
| KindsAndNames.FullNameTells | controller/state.go:391-393 | kinds having no colon, two objects have the same full name if and only if they have the same kind and the same name |
| KindsAndNames.KeptByKindAndName | controller/state.go:50-86 | of each kind and name at most one live object is kept, the first of the wanted version; one is dropped only for another of its kind and name, or because none of them has the version of the target |
| KindsAndNames.PairedByKindAndName | controller/state.go:167-205 | a target gets the kept live object of its kind and name unless an earlier target has them too, and otherwise what the cluster has under its name; it fails exactly if the cluster has to be asked and cannot answer |
| KindsAndNames.PlaceByKindAndName | controller/state.go:211-354 | a kept live object is with the target of its kind and name, or else in the list exactly if nobody owns it |
| KindsAndNames.OwnedIsNode | controller/state.go:356-389 | the Endpoints of a listed Service, and what names a listed resource as its controller, is exactly one node of the trees |
| KeyLock.SameMutex | util/keylock.go:19-48 | whoever asks for a key, now or later, to lock or to unlock, gets one and the same mutex, and for different keys different ones |
| KeyLock.LocksAreNeverReplaced | util/keylock.go:19-38 | a key's mutex is made once and never replaced |
| KeyLock.MutualExclusion | util/keylock.go:41-48 | at most one thread holds a key, at any time of any run of any number of threads |
| KeyLock.RunKeepsInv | util/keylock.go:19-48 | no run unlocks an unlocked mutex; a mutex is locked exactly while its key has a holder |
| KeyLock.WriterIsAlone | util/keylock.go:26-37 | while a thread writes the map no other reads or writes it |
| KeyLock.StepsAreAtomicLocking | util/keylock.go:41-48 | every step leaves the held keys alone, takes a key nobody holds, or gives back one that is held |
| KeyLock.RunsAreLockTableRuns | util/keylock.go:41-48 | every run, seen by those who lock and unlock, is a run of the lock table on which the repository server and the API server are modelled |
| KeyLock.WaitsOnlyForHolder | util/keylock.go:41-43 | a thread waits for a key exactly while someone holds it |
| KeyLock.LookupProgress | util/keylock.go:19-38 | if threads are looking for mutexes, one of them can act |
| KeyLock.CallsBegin | util/keylock.go:41-48 | a thread can always call Lock, and Unlock for a key it holds |
| KeyLock.CallsReturn | util/keylock.go:41-48 | when Lock returns the thread holds the key, when Unlock returns it no longer does, and a call is for the same key throughout |
| KeyLock.CallsAreShort | util/keylock.go:19-48 | a call takes at most eight actions |
| CacheKeys.KeyTells | reposerver/repository/repository.go:332-348 | equal keys mean the same commit and the same question, up to the hash of source and overrides |
| RepoCache.TreeStaysPut | reposerver/repository/repository.go:316-330 | from its checkout until its unlock, through reading, filing and releasing, a request holds the lock and has the tree at its commit, touched by no other request |
| RepoCache.CacheIsFresh | reposerver/repository/repository.go:131-172 | every cache entry is the fresh generation, for a question that was asked, at the commit its key names, and a manifest carries that commit |
| RepoCache.ServedIsFresh | reposerver/repository/repository.go:55-172 | hit or miss, over all interleavings, a response is a fresh generation at the resolved commit for a request with the same key, and a request for a commit is answered at that commit |
| RepoCache.SameAnswer | reposerver/repository/repository.go:131-172 | two answers to the same question at the same commit agree, if no other question that was asked has its key |
| RepoCache.StepTrees | reposerver/repository/repository.go:147-155 | no step of any request moves a tree that another request reads |
| RepoRequests.EveryRequestOnce | reposerver/repository/repository.go:55-172 | over all interleavings every request is answered exactly once or is still under way |
| RepoRequests.GeneratesFresh | reposerver/repository/repository.go:147-160 | in every run, what a request generates is the fresh generation at the commit it checked out, and an error only if that fails |
| RepoRequests.DueIsServed | reposerver/repository/repository.go:160-172 | a request that has generated is answered with just that, whatever the others do |
| RepoRequests.HitIsServed | reposerver/repository/repository.go:131-141 | a request whose answer is in the cache is answered from it at once, without a lock |
| RepoRequests.StoredIsCached | reposerver/repository/repository.go:162-171 | what is stored is in the cache under the key of its question and commit |
| RepoRequests.CachedUntilEvicted | reposerver/repository/repository.go:162-171 | and stays there until it is evicted |
| RepoRequests.SoloMiss | reposerver/repository/repository.go:131-172 | a request that misses and is alone is answered with the fresh generation, leaves it in the cache, and gives the lock back |
| RepoRequests.ChangesShow | reposerver/repository/repository.go:316-330 | a generation that has seen the changes of another request, or two commits, is not the content of one commit |
| RepoRequests.NobodyIsStuck | reposerver/repository/repository.go:147-148 | a request under way can act, or waits for a lock whose holder can |
| Projects.GetRemovedDestination | server/project/project.go:174-193 | exactly the destinations that were listed and no longer are |
| Projects.GetRemovedSources | server/project/project.go:195-212 | exactly the repositories that were listed and no longer are |
| Projects.MayUpdate | server/project/project.go:234-262 | an update is accepted exactly if every application of the project keeps the listed destination and repository it uses |
| Projects.KeyIsDestination | server/project/project.go:177-184 | a destination key stands for one destination, namespaces having no slash |
| Projects.KeepsMeans | server/project/project.go:234-262 | what an update must leave an application: its destination and its repository, if they were listed |
| ProjectServer.ProjectsExist | server/project/project.go:291-320 | over all interleavings of application and project requests every stored application's project exists |
| ProjectServer.UpdatesKeepWhatIsUsed | server/project/project.go:215-275 | over all interleavings with any other requests, accepted updates take nothing away from an application of the project, if and only if the application's own last write named its project or the project is not the default one |
| ProjectServer.OnlyUnnamedLose | server/application/application.go:269-352 | whatever an accepted update takes away, it takes from an application of the default project whose last write left the project field empty |
| ProjectServer.DefaultDropsInUse | server/application/application.go:115-153 | the interleaving in which an update of the default project does |
| ProjectServer.OthersKnowledge | server/application/application.go:269-352 | what a request has checked under its lock stays true while others act |
| ProjectServer.StoreEffect | server/project/project.go:215-320 | which steps change which part of the store, and under which lock |
| ProjectRequests.ApplicationChanges | server/application/application.go:115-153 | among any other requests, a stored application changes only by deletion or by a validated request: a creation that may replace it or finds none, or an update that finds one |
| ProjectRequests.ProjectChanges | server/project/project.go:215-320 | a project changes only by a checked update and goes only by a checked deletion |
| ProjectRequests.SoloApp | server/application/application.go:115-153 | an application request by itself stores the application if its project exists and its verb allows, and otherwise changes nothing |
| ProjectRequests.SoloUpdate | server/project/project.go:215-275 | a project update by itself is stored if the project exists and every application keeps what it uses, and otherwise changes nothing |
| ProjectRequests.SoloDelete | server/project/project.go:291-320 | a project deletion by itself removes the project if no application belongs to it, and otherwise changes nothing |
| ProjectRequests.DefaultIsNotDeleted | server/project/project.go:292-295 | the default project cannot be deleted |
| ProjectRequests.FailedWrite | server/application/application.go:337-351 | a write that fails stores nothing; an update of a specification is tried again while the application exists, any other request gives up |
| ProjectRequests.DeletedAndCreated | server/project/project.go:134-148 | a deleted application is gone and no other; a project is created exactly if its name is free |
| Varint.ReadEncoded | server/project/project.pb.go:952-960 | a varint read back gives the number written, for every 64-bit number |
| Varint.AtMostTen | server/project/project.pb.go:1066-1075 | a varint takes one to ten bytes |
| Varint.EncodingIsShortest | server/project/project.pb.go:1296-1310 | no number is read from fewer bytes than its encoding has |
| Varint.EncodeIsBase128 | server/project/project.pb.go:952-960 | a varint is the number in base 128, least significant group first, every byte but the last marked |
| Varint.ElevenIsTooLong | server/project/project.pb.go:1296-1310 | more than ten bytes are not read as a number |
| CodecTheorems.RoundTrip | server/project/project.pb.go:813-844 | a message without unrecognized bytes comes back unchanged |
| CodecTheorems.RoundTripCondition | server/project/project.pb.go:1291-1447 | a message comes back if and only if its unrecognized bytes are whole unknown fields |
| CodecTheorems.KnownFieldIsTakenUp | server/project/project.pb.go:1407-1424 | a message whose unrecognized bytes read as the expiry does not: they end up in that field |
| CodecTheorems.DecodesWire | server/project/project.pb.go:1291-1447 | decoding on top of an existing message replaces the fields that were written and adds unknown ones |
| CodecTheorems.AcceptedIsStable | server/project/project.pb.go:1291-1447 | whatever bytes are accepted, the message has a wire format that is no longer and decodes to the same message |
| CodecTheorems.SkipLocal | server/project/project.pb.go:1743-1841 | an unknown field, groups included, is skipped by its own bytes only |
| WrittenFields.SkipsWritten | server/project/project.pb.go:1743-1841 | a field as it is to be written, by wire type, groups included, is skipped by exactly its own length whatever follows |
| WrittenFields.DecodesFields | server/project/project.pb.go:1291-1447 | whatever fields are written in whatever order, the decoder takes in the known ones by number, the last of each winning, puts the others aside, and refuses a known one of the wrong wire type |
| WrittenFields.WireIsWritten | server/project/project.pb.go:813-844 | the encoder writes exactly the fields that are not empty, by number and wire type, and what was put aside |
| WrittenFields.UnknownIsPutAside | server/project/project.pb.go:1426-1439 | an unknown field in front of a message is put aside and the message is read as without it |
| WrittenFields.WrittenAreUnknown | server/project/project.pb.go:1426-1439 | written fields with unknown numbers are whole unknown fields |
| WrittenFields.CutIsRefused | server/project/project.pb.go:1291-1447 | a field that is cut off anywhere is refused |
| WrittenFields.BadTagIsRefused | server/project/project.pb.go:1311-1318 | a wire type that does not exist, an end of a group that has not begun, and a field number that is not positive are refused |
| WrittenFields.NegativeLengthIsRefused | server/project/project.pb.go:1339-1342 | a length that does not fit a signed word is refused |
| TokenRequest.VarintSize | server/project/project.pb.go:1066-1075 | the size function counts the bytes of the encoding |
| TokenRequest.EncodeVarint | server/project/project.pb.go:952-960 | writes exactly the encoding at the offset and nothing else |
| TokenRequest.PutText | server/project/project.pb.go:817-822 | a text field, or nothing for an empty text, written at the offset and nothing else |
| TokenRequest.PutNumber | server/project/project.pb.go:835-839 | a number field, or nothing for zero, written at the offset and nothing else |
| TokenRequest.ReadText | server/project/project.pb.go:1324-1348 | where a text field's text is, with the length checks and their wrap-around |
| TokenRequest.ReadUnknown | server/project/project.pb.go:1426-1439 | where an unknown field ends, with the checks and their wrap-around |
| TokenRequest.TokenCreateRequest.Size | server/project/project.pb.go:994-1016 | the length of the wire format |
| TokenRequest.TokenCreateRequest.MarshalTo | server/project/project.pb.go:813-844 | writes exactly that many bytes, the wire format, and leaves the rest of the buffer alone |
| TokenRequest.TokenCreateRequest.Unmarshal | server/project/project.pb.go:1291-1447 | the loop decodes, refuses or panics exactly as the decoding function says, with its message |
| TokenRequest.SkipProject | server/project/project.pb.go:1743-1841 | the loops give the length of the field, or refuse, or panic, as the skipping function says |
| TokenRequest.ReadVarint | server/project/project.pb.go:1296-1310 | the loop reads the varint, or refuses |
| History.PersistFollowsLog | controller/state.go:404-437 | storing a deployment keeps the last five of the log |
| History.NewestIsKept | controller/state.go:423-425 | the new deployment is stored if and only if at most five were |
| History.SixLoseTheNewest | controller/state.go:423-425 | with six it is not |
| History.Rollback | server/application/application.go:754-773 | an operation at exactly the revision and overrides stored under the number, or none if there is no such number, while auto-sync is on, or while deleting |
| History.RollbackIsExact | server/application/application.go:754-773 | a stored number stands for one deployment, whose revision the rollback goes back to; the rollback deploys the overrides that were deployed under the number if and only if some are stored and those were the deployed ones, or none are stored and the specification has at the rollback what was deployed |
| History.StoredOverridesCondition | controller/state.go:416-421 | for every deployment of any log, the stored overrides are the deployed ones if and only if the operation asked for those of the specification, or for none and the specification did not change them between the step that applied and the step that recorded |
| History.EmptyIsNone | pkg/apis/application/v1alpha1/types.go:307-312 | an empty list of overrides is stored as none, any other as it is |
| AppHistory.HistoryIsLastFive | controller/state.go:404-437 | over any sequence of events the history is the last five full syncs that succeeded, in order, numbered consecutively, with their commits, and with their overrides under exactly that condition |
| AppHistory.DeploymentIsWhatWasApplied | controller/state.go:100-117 | a deployment that is recorded has the overrides that the operation asked for, or else those that the specification had at the one step of the operation that really applied |
| AppHistory.RollbackOverRuns | server/application/application.go:754-773 | over any sequence of events, a rollback to a stored number goes back to the deployed commit, and to the deployed overrides under exactly the condition for rollbacks |
| AppHistory.StoredWithTheSpecification | controller/state.go:416-421 | an operation is stored with the overrides the specification has when it is recorded, whatever it asked for and whatever the specification had when it was applied |
| AppHistory.OwnImageIsNotStored | controller/state.go:416-421 | for instance, an image of its own is deployed and not stored |
| AppHistory.LaterImageIsStored | controller/state.go:416-421 | for instance, an image that the specification gets only after the apply is stored and not deployed |
| AppHistory.RollbackTakesTheSpecification | controller/state.go:110-117 | a rollback to a deployment stored without overrides deploys those that the specification has by then |
| AppHistory.RollbackDeploysLaterImage | server/application/application.go:764-773 | for instance, an image that the specification has got since |
| AppLifecycle.NoAutoSyncLoop | controller/appcontroller.go:910-973 | of two operations in a row that auto-sync started and that resolved a commit, the second differs in commit or overrides |
| AppLifecycle.AutomatedByRefresh | controller/appcontroller.go:910-973 | every automated operation of a run was started by a refresh that found the application out of sync, when it was automated and idle and had not just been synced to that commit with those overrides |
| AppLifecycle.StartsWhenCalled | controller/appcontroller.go:910-973 | and such a refresh does start one, at that commit; a request starts its operation if nothing is pending |
| AppLifecycle.SpecificationIsAsSet | controller/appcontroller.go:911-913 | whether it is automated, and its overrides, are what they were last set to |
| AppLifecycle.TerminationEnds | controller/appcontroller.go:549-610 | a running operation that is asked to terminate ends Failed or in Error with its next step, and nothing is deployed |
| AppLifecycle.StepsAreARun | controller/appcontroller.go:549-610 | over any sequence of events, the steps taken for the operation started last form a valid run of it, so that the results about runs hold of them, and it is over exactly if the last of them completed it |
| AppLifecycle.SetOperationInv | util/argo/argo.go:476-499 | setting an operation, only if none is pending and dropping the last state, keeps that |
| AppLifecycle.OperateInv | controller/appcontroller.go:549-610 | one step of the pending operation keeps that |

## Left out

- Messages of statuses and conditions, log lines, events and metrics.
- Selecting resources of a partial sync and unmarshalling the states of a comparison: the tasks of a step are given.
- The sort itself is the standard library's; it is taken to give a sorted arrangement, which `KindOrder.Sortable` shows to exist.
- JSON marshalling of objects and the errors it might have; the diff of two objects is an arbitrary function.
- What a live job, workflow or pod reports is part of the world; what becomes of it is in `HookReports`.
- Lost terminate requests between the last read and the patch of the operation state.
- Controller crashes between a step and the persisting of its state, and stale application copies.
- RepoCache.Sensible: application names, which are Kubernetes names, are taken to have no bar, so that a key can be read back.
- KindsAndNames.FullNameTells: kinds are Kubernetes kinds, which have no colon.
- Projects.KeepsMeans: namespaces are Kubernetes names, which have no slash.
- Varint.Add: or-ing seven bits into an accumulator that has only lower bits is addition; the bit operation itself is not modelled.
- History.Persist: deployment numbers are unbounded, not 64-bit.
- AppLifecycle.AppliedSpec: the overrides of the step that applied the un-annotated resources; hooks created in other steps may have been generated with others.
- RepoCache.Step: two repositories whose URLs differ only in slashes and underscores share a root, and so a lock and a tree; what git does with such a tree is part of the world.
- ProjectServer.Step: deleting an application and creating a project are single steps, and tokens of projects are not modelled.
- ProjectServer.Work: the Kubernetes optimistic-locking conflict is an arbitrary failure of the write.
- Normalization of project policies, RBAC, sessions, and the CLI.
- Other generated messages.
- Expiry of caches by the clock is any eviction at any time.
