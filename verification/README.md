# Kanister: a verified model of its execution protocols

This Dafny project models the parts of Kanister in which several processes share
state, or in which parallel lists and maps have to stay aligned, and proves what they
guarantee. `dafny verify dfyconfig.toml` checks all of it.

**The ActionSet protocol** (`ActionSets`, `ActionSetObject`, `Protocol`, `Safety`,
`SafetyTheorems`, `Quiescence`, `Completion`, `Finality`,
`Records`). One stored ActionSet with a version is
shared by any number of add-event handlers, one goroutine per launched action, any
number of update-event watchers and the progress tracker. Every `Get` and every
version-checked `Update` is a step of its own, so a process may act on a stale copy, lose
a version race and retry, be rejected by the validator, or see an error although its
update was applied. The safety theorems hold over all of these runs. The theorems about
the final state are about fault-free runs: the API server and the launches work, while
phases, defer phases and renderings may still fail, in any interleaving.
`ActionSetObject` holds the loops that mutate a status in place, proved to compute the
same values the protocol steps by.

**Chronicle** (`Paths`, `ChronicleNames`, `Chronicle`, `ChroniclePush`, `ChronicleLimits`):
push and pull through a manifest, with crashes between any two store accesses, deletes
that fail half-way, restarts from ordinal 0, and concurrent pulls. Objects are stored under
the names that the location and object store packages make of a profile prefix and a path,
path cleaning included, and the delete of old data removes every object whose name starts
with that of the old data.

**Fan-in** (`FanIn`, `DeleteData`): BackupDataAll and RestoreDataAll collect errors and
outputs from two separate channels; DeleteData and DeleteDataAll walk parallel lists.

**Filters** (`Filters`), **output tailing** (`Tailing`), **wait conditions** (`Waiting`),
**the function registry** (`Registry`) and **child ActionSets** (`ChildActionSet`).
`Common` holds shared definitions.

Where the code does not do what one would expect, the code is modelled as it is, and the
exact condition is proved:

- A defer phase that has the name of the last core phase of its action, and of no other
  one, turns that phase back to running, and the ActionSet may stay in Running after a
  full success (`Completion.CompletionNeedsDistinctNames`). Other shared names are
  harmless, because the validator rejects the mark.
- The comment on `executeDeferPhase` promises Complete if and only if all phases and the
  defer phase succeed. Complete may be reported while the defer phase or the rendering of
  another action is still to run, and may turn into Failed; it is final if and only if
  there is at most one action, or no action has a defer phase or artifacts
  (`Finality.CompleteIsFinalExactlyWhen`).
- A defer phase that has the name of the core phase that failed, and of no other one, turns
  that phase back to running when it is marked; recorded failures stay visible if and only
  if there is no such name (`Records.FailuresShowExactlyWhen`).
- A failed rendering bumps the success counter, which therefore counts full successes only
  if and only if no action has artifacts (`Finality.SuccessesAreFullExactlyWhen`).
- A pull whose read of the manifest fails reads the empty path. It can return something no
  push wrote if and only if the empty path names the manifest, data or another object, as
  it does for the artifact path "." under a prefix
  (`ChronicleLimits.PullsAreRightExactlyWhen`).
- A restarted pusher begins at ordinal 0 again and can overwrite the data that the manifest
  names before it is published, so the theorems on what pulls return are about one life of
  the pusher (`ChronicleLimits.RestartMisleads`).
- The delete of old data also removes other objects that share its prefix, such as the
  manifest of another artifact at `db-10` (`ChronicleLimits.ObjectsSurviveExactlyWhen`), and
  misses the old data if the path leads out of the bucket
  (`ChronicleLimits.AtMostTwoExactlyWhen`).
- A tail stream that ends normally can miss output that was appended between its last
  empty read and the done check (`Tailing.TailCanBeLost`), and nothing else
  (`Tailing.FinishedClientHasTheTail`).
- A version counts as registered only in the same spelling: another spelling of the default
  version is an error (`Registry.FallbackWorksExactlyWhen`), another spelling of a
  different one silently takes the default (`Registry.ResolvesAsAskedExactlyWhen`).
- A phase runs with the arguments of the last phase that shares its name
  (`Registry.OwnArgumentsExactlyWhen`).
- DeleteData indexes the target paths without checking that there are enough; the exact
  condition under which it panics is part of `DeleteData.Delete`.

Assumptions: blueprints do not change between initialisation and launch; only the
controller writes the status; reads and writes of one object are atomic, a bucket accepts
every name, and one pusher writes at a path; reading a file to its end is atomic; channel and
stream messages arrive in order.

## Model

| member | source | states |
|---|---|---|
| ActionSets.PhaseOrderIsShape | pkg/validate/validate.go:115-130 | the validator's phase test accepts exactly a run of complete phases, then at most one in any state, then pending ones |
| ActionSetObject.InitialActionStatus | pkg/controller/controller.go:349-378 | all phases of the blueprint action, pending and in order, or an error exactly if the action is missing |
| ActionSetObject.IsPhaseInAction | pkg/controller/controller.go:783-790 | true exactly if a core phase or the defer phase has the name |
| ActionSetObject.PhaseOrder | pkg/validate/validate.go:115-130 | the flag loop decides exactly the pairwise phase order |
| ActionSetObject.ActionSet.InitStatus | pkg/controller/controller.go:304-347 | a pending action for every entry of the spec as its blueprint says, or a bare failure exactly if one names no blueprint or no action in it |
| ActionSetObject.ActionSet.Validate | pkg/validate/validate.go:32-113 | the loops decide exactly: as many actions as the spec, ordered phases, nothing pending or running once complete |
| ActionSetObject.ActionSet.UpdateRunningPhase | pkg/controller/controller.go:563-577 | the phase is shown as running, every phase of that name in the action becomes running, and nothing else changes |
| ActionSetObject.ActionSet.RecordPhaseEnd | pkg/controller/controller.go:504-533 | phase i becomes complete, or failed together with the set, and all other phases and actions stay |
| ActionSetObject.ActionSet.RecordDeferEnd | pkg/controller/controller.go:598-615 | the defer phase becomes complete, or failed together with the set, and all else stays |
| ActionSetObject.ActionSet.RecordRendering | pkg/controller/controller.go:657-671 | the action gets the artifacts, or the set fails and no action changes |
| ActionSetObject.ActionSet.MaybeSetComplete | pkg/controller/controller.go:694-727 | the loops clear the action's running phase and complete the set exactly if all core phases are complete and it has not failed |
| ActionSetObject.ActionSet.CompletesOnUpdateEvent | pkg/controller/controller.go:236-276 | an update event completes exactly a valid running set without actions |
| Safety.MarkIsPrecise | pkg/controller/controller.go:563-577 | a mark that passes validation changes only the phase it is for, even with duplicate names |
| Safety.DeferMarkKeepsCore | pkg/controller/controller.go:465-470 | a defer mark that passes validation leaves finished core phases alone unless it collides with the last one |
| Safety.WriteInBounds | pkg/controller/controller.go:504-533 | a closure never indexes outside the status it is given |
| Safety.WriteKeepsAction | pkg/controller/controller.go:481-554 | each write keeps what the status says about its goroutine's progress, acknowledged or not |
| Safety.WriteApplied | pkg/reconcile/reconcile.go:33-58 | an update that wins the version check acts on the stored object itself and keeps the invariant |
| Safety.StepInv | pkg/controller/controller.go:214-733 | every step of every process keeps the invariant |
| SafetyTheorems.RunInv | pkg/controller/controller.go:214-733 | the invariant holds in every state of every run |
| SafetyTheorems.StateOnlyMovesForward | pkg/controller/controller.go:236-276 | over every run, faults included, the state moves along Pending, Running, Complete, Failed and never leaves Failed |
| SafetyTheorems.CompleteMeansComplete | pkg/controller/controller.go:688-733 | in every reachable Complete state all core phases of all actions are complete and every action with phases was launched |
| SafetyTheorems.AtMostOneHandlerPasses | pkg/controller/controller.go:380-390 | of any number of handlers, at whatever times, at most one ever passes the Pending-to-Running gate |
| SafetyTheorems.EachPhaseAtMostOnce | pkg/controller/controller.go:481-498 | over the whole run each phase of each action executes at most once and in order, after successes only |
| SafetyTheorems.FinishedAction | pkg/controller/controller.go:463-480 | a finished goroutine ran its defer phase exactly if there is one, rendered only after full success, and ended in success exactly with the full log |
| SafetyTheorems.PhasesKeepTheirShape | pkg/controller/controller.go:349-378 | status and blueprint agree on phase names by index and the phases keep their shape in every reachable status |
| SafetyTheorems.IndicesStayInBounds | pkg/controller/controller.go:504-533 | in every run every closure indexes within the copy it holds, however stale |
| SafetyTheorems.CountersMatchActions | pkg/controller/controller.go:440-479 | at any time the failure counter is the number of actions whose launch or run failed, the success counter that of all others that have ended |
| SafetyTheorems.SuccessesCountFailedRenderings | pkg/controller/controller.go:463-479 | the success counter is the number of full logs plus the number of logs with a failed rendering, hence that of full successes if and only if there are none of the latter |
| SafetyTheorems.CountersAddUp | pkg/controller/controller.go:148-152 | at any time the counters add up to the number of actions that have ended, and to all actions if and only if every one has |
| Quiescence.ResultsAreAccepted | pkg/reconcile/reconcile.go:33-58 | validation never rejects a result, artifacts or a completion, even on a stale copy |
| Quiescence.QuiescentState | pkg/controller/controller.go:463-733 | once all goroutines of a fault-free run have finished the state is Complete if everything succeeded and Failed otherwise |
| Quiescence.QuiescentStateAnyNames | pkg/controller/controller.go:463-733 | whatever the names, the final state is Failed exactly when something failed and Complete only after full success |
| Quiescence.ArtifactsAreTheRendered | pkg/controller/controller.go:638-686 | the stored artifacts of an action that ended are those its goroutine carries, after a failure still the templates |
| Quiescence.RunningPhaseIsHeld | pkg/controller/controller.go:563-577 | a running phase shown belongs to an action still at work, or is the defer phase that succeeded after a failed core phase |
| Quiescence.NoRunningPhaseAtTheEnd | pkg/controller/controller.go:688-699 | after a full success no phase is shown as running |
| Completion.FinishThread | pkg/controller/controller.go:463-556 | a goroutine at work can always be brought to its end, and to success if nothing failed, without touching other actions |
| Completion.CanAlwaysFinish | pkg/controller/controller.go:463-556 | every fault-free run with all actions launched can be continued to quiescence |
| Completion.CollisionSpoilsCompletion | pkg/controller/controller.go:465-470 | for every colliding configuration a fully successful run ends without Complete |
| Completion.CompletionNeedsDistinctNames | pkg/controller/controller.go:579-584 | full successes always end in Complete if and only if no defer phase collides |
| Finality.OnlyLateFailures | pkg/controller/controller.go:598-671 | only the record of a failed defer phase or rendering ever leaves Complete |
| Finality.CompleteCanBeLeft | pkg/controller/controller.go:579-615 | for every configuration of two or more actions with a defer phase or artifacts some run reports Complete and then Failed |
| Finality.CompleteIsFinalExactlyWhen | pkg/controller/controller.go:579-733 | over all runs Complete is never left if and only if there is at most one action or no defer phase and no artifacts |
| Finality.FailRendering | pkg/controller/controller.go:638-671 | for every action with artifacts some run ends it with a failed rendering |
| Finality.SuccessesAreFullExactlyWhen | pkg/controller/controller.go:463-479 | over all runs the success counter is the number of full successes if and only if no action has artifacts |
| Records.WhatWasRenderedIsStored | pkg/controller/controller.go:638-686 | if the rendering of an action returned arts, then arts is what is stored once it has ended |
| Records.StoredArtifacts | pkg/controller/controller.go:638-686 | an ended action stores nothing without templates, the templates after a failure, and otherwise what a rendering step of its own returned |
| Records.FailedPhaseIsRecorded | pkg/controller/controller.go:504-533 | once a failed phase i of the log is recorded, the stored phases are complete before i, failed at i and pending after i, except that a defer phase named like it alone turns it to running |
| Records.UnstartedPhaseIsRecorded | pkg/controller/controller.go:481-533 | the same for a phase that could not start: it is the one after those that ran with success |
| Records.DeferResultIsRecorded | pkg/controller/controller.go:585-615 | an ended action stores its defer phase as complete or failed, as it ended |
| Records.FailureIsHidden | pkg/controller/controller.go:465-470 | for every core phase whose name the defer phase shares alone some fault-free run hides its failure |
| Records.FailuresShowExactlyWhen | pkg/controller/controller.go:504-533 | over all fault-free runs recorded failures show if and only if there is no such name |
| Records.MarkShows | pkg/controller/controller.go:563-577 | over all runs a mark that takes effect is the phase shown as running |
| Records.LastWriteClears | pkg/controller/controller.go:688-699 | the last write of a goroutine clears the running phase if and only if it is a phase of its own action |
| Records.OthersLeaveRunningPhase | pkg/controller/controller.go:504-671 | nothing else changes the running phase, except a failure, which clears it |
| Records.LaunchFailureIsRecorded | pkg/controller/controller.go:394-425 | a failed launch fails the set, and its first phase exactly if the goroutine was reached, and changes nothing else |
| Records.EmptySetCompletes | pkg/controller/controller.go:236-276 | a running set without actions can be brought to Complete by an update event |
| Records.UpdateEventCompletes | pkg/controller/controller.go:236-276 | an update event that takes effect completes the set for good, and only one without actions |
| Paths.NameFromElements | pkg/location/location.go:48-72 | the object that a read or write accesses is given by the cleaned elements of prefix and path |
| Paths.DeletePrefixFromElements | pkg/objectstore/directory.go:165-168 | the delete cleans the path a second time from the root, which only loses leading parents |
| Paths.SlashedOfElements | pkg/location/location.go:48-72 | splitting a path at slashes and joining it again is the identity |
| Paths.CleanTwice | pkg/location/location.go:48-72 | cleaning is idempotent |
| Paths.DetourIsNothing | pkg/location/location.go:48-72 | an element followed by a parent leads to the same object |
| Paths.ParentsInFront | pkg/objectstore/directory.go:165-168 | parents in front of a relative path stay and vanish at a root |
| ChronicleNames.DecimalIsDecimal | pkg/chronicle/chronicle_push.go:116-116 | the ordinal in a key is its decimal form without leading zeros |
| ChronicleNames.DataNamesDiffer | pkg/chronicle/chronicle_push.go:116-127 | different ordinals have different data objects, for every prefix and path |
| ChronicleNames.ManifestIsShorter | pkg/chronicle/chronicle_push.go:116-130 | the manifest is never a data object |
| ChronicleNames.DeleteSparesManifest | pkg/location/location.go:159-165 | the delete by prefix never removes the manifest |
| ChronicleNames.DeleteSparesCurrent | pkg/chronicle/chronicle_push.go:133-135 | the delete by prefix of the previous data never removes the current data |
| ChronicleNames.DeleteHitsExactlyWhen | pkg/objectstore/directory.go:165-182 | the delete removes the data it is for if and only if the cleaned path does not lead out of the bucket |
| ChronicleNames.DeleteReachesFurther | pkg/objectstore/directory.go:165-182 | the delete of ordinal m removes exactly the data of ordinals whose decimal form starts with that of m |
| ChronicleNames.DotNamesTheRoot | pkg/location/location.go:48-72 | "/" names the same object as the empty path, and so does "." if and only if there is a prefix |
| ChronicleNames.PlainPathsAreApart | pkg/location/location.go:48-72 | a path without blanks, dots and parents shares neither manifest nor data with the empty path |
| Chronicle.ManifestNeverDangles | pkg/chronicle/chronicle_push.go:49-137 | over all runs with failures, half-done deletes, crashes and restarts an existing manifest names an existing object |
| Chronicle.PullReturnsCurrentPush | pkg/chronicle/chronicle_pull.go:28-38 | a concurrent pull returns nothing or the output of the push that was current when it read the manifest |
| Chronicle.DataKeysAreWrittenOnce | pkg/chronicle/chronicle_push.go:49-69 | one life of the pusher writes no data object twice |
| Chronicle.AtMostTwoDataObjects | pkg/chronicle/chronicle_push.go:133-136 | without skipped pushes and failing deletes no three data objects exist at once, for a path inside the bucket |
| ChroniclePush.Bucket.DeleteAllWithPrefix | pkg/objectstore/directory.go:170-182 | the loop removes exactly the objects it reached that have the prefix |
| ChroniclePush.PushOnce | pkg/chronicle/chronicle_push.go:87-137 | a push fails if and only if the profile is unreadable, or present and the start, the data, the command or the manifest fails; data is written exactly if it got that far, the manifest changes only after a successful command, and then leads to the output |
| ChroniclePush.RoundKeepsExactly | pkg/chronicle/chronicle_push.go:107-137 | a round removes another object if and only if its delete reached it under the prefix, and changes none |
| ChroniclePush.Push | pkg/chronicle/chronicle_push.go:49-69 | from any store the loop stops exactly at the first failing round, so missing profiles never stop it; the last round with a profile is published at its own ordinal and is what a pull returns, rounds without one change nothing, and a sound manifest stays sound |
| ChroniclePush.Pull | pkg/chronicle/chronicle_pull.go:28-38 | without interference the pull reads the object the manifest names |
| ChroniclePush.RoundIsAPath | pkg/chronicle/chronicle_push.go:87-137 | every round of the code continues a run of the transition system |
| ChroniclePush.PullIsAPath | pkg/chronicle/chronicle_pull.go:28-38 | the pull of the code is the two reads of a reader of the transition system |
| ChronicleLimits.RootMisleads | pkg/chronicle/chronicle_pull.go:30-37 | a failed manifest read returns the object under the empty path as data |
| ChronicleLimits.PullsAreRightExactlyWhen | pkg/chronicle/chronicle_pull.go:28-38 | pulls are right in every life of the pusher if and only if the empty path names neither the manifest nor data nor an object in the store |
| ChronicleLimits.PlainPathsPullRight | pkg/chronicle/chronicle_pull.go:28-38 | pulls of plain paths are right under every prefix |
| ChronicleLimits.DotMisleads | pkg/chronicle/chronicle_pull.go:30-37 | under every prefix the path "." has a life in which a pull returns the manifest as data |
| ChronicleLimits.RestartMisleads | pkg/chronicle/chronicle_push.go:49-61 | at every path some run with a restart makes a pull return output that was never published |
| ChronicleLimits.AtMostTwoExactlyWhen | pkg/objectstore/directory.go:165-182 | tidy lives never have three data objects if and only if the path stays in the bucket |
| ChronicleLimits.ObjectsSurviveExactlyWhen | pkg/objectstore/directory.go:165-182 | another object survives all runs unchanged if and only if it is not manifest or data and its name does not start with the stem, a dash and a digit |
| ChronicleLimits.NeighbourIsLost | pkg/chronicle/chronicle_push.go:133-135 | the manifest of an artifact at db-10 is lost or overwritten in some run of the pusher at db |
| FanIn.NeverStuck | pkg/function/backup_data_all.go:164-187 | until the collector has finished some process can move |
| FanIn.EveryRunEnds | pkg/function/backup_data_all.go:164-187 | every interleaving ends, and after 4 n steps the collector has finished |
| FanIn.ArrivalsAreOrders | pkg/function/backup_data_all.go:166-187 | each channel delivers every pod's message exactly once, in an order of its own |
| FanIn.ErrorsAreTheFailures | pkg/function/backup_data_all.go:178-190 | in every arrival order the errors collected are those of the failing pods |
| FanIn.CollectBackups | pkg/function/backup_data_all.go:178-190 | the loop succeeds exactly without errors and then maps every pod received to an output of that pod |
| FanIn.CollectRestores | pkg/function/restore_data_all.go:207-222 | the loop succeeds exactly without errors and then merges all outputs, the last one winning |
| FanIn.BackupAll | pkg/function/backup_data_all.go:164-199 | for every interleaving and mispairing: success exactly if every pod succeeded, one entry per pod with its own backup, otherwise the failing pods' messages |
| FanIn.RestoreAll | pkg/function/restore_data_all.go:172-222 | for every interleaving and mispairing: success exactly if every pod succeeded, every entry reported by some pod, none lost, and the value determined where pods agree |
| DeleteData.FindTagged | pkg/function/delete_data.go:147-165 | every tag is looked up at the path of its index, and success, error and panic each have their exact condition |
| DeleteData.ForgetAll | pkg/function/delete_data.go:166-187 | every ID is forgotten and pruned at the path of its index, the space freed is the sum over the prunes, and success, error and panic each have their exact condition |
| DeleteData.TotalIsSum | pkg/function/delete_data.go:178-187 | the space freed is the sum of what the prunes freed |
| DeleteData.Delete | pkg/function/delete_data.go:77-193 | exactly one list is accepted, every forget and prune command is at the path of its own tag or ID, and success, argument error, command error and index panic each have their exact condition |
| DeleteData.NoPathsPanic | pkg/function/delete_data.go:147-187 | without target paths a call panics if and only if the guard lets it through |
| DeleteData.ForgottenOnce | pkg/function/delete_data_all.go:132-137 | commands that pair the lists index by index forget no pod twice, and every pod if there are as many commands as pods |
| DeleteData.DeleteAll | pkg/function/delete_data_all.go:127-154 | in any iteration order success means every pod's snapshot was forgotten exactly once at that pod's path |
| Filters.KeepIsSelection | pkg/filter/filter.go:106-118 | filtering keeps exactly the passing elements in order |
| Filters.Join | pkg/filter/filter.go:121-133 | copying matchers to offsets is concatenation |
| Filters.ApplyTypes | pkg/filter/filter.go:97-118 | without requirements the list itself, otherwise exactly the types that some, or for exclusion no, requirement of any matcher accepts |
| Filters.ApplyResources | pkg/filter/filter.go:241-262 | without requirements the list itself, otherwise exactly the resources that some, or for exclusion no, requirement matches |
| Filters.EmptyMatchesAll | pkg/filter/filter.go:36-53 | a requirement without fields matches everything |
| Filters.TypeFieldsNarrow | pkg/filter/filter.go:36-53 | setting group, version or resource narrows a type requirement to that value, core standing for the empty group |
| Filters.FieldsNarrow | pkg/filter/filter.go:153-170 | setting name, type or labels narrows a requirement to exactly the resources that have them; labels that cannot be evaluated match nothing |
| Filters.IncludeByNameAndLabels | pkg/filter/filter.go:153-170 | including by name or labels keeps, in order, those of the resources included without that have them |
| Filters.OneRequirement | pkg/filter/filter.go:241-262 | one requirement includes a resource if and only if the fields of the resource are as asked for, and excludes it otherwise |
| Filters.TypeMatcherOf | pkg/filter/filter.go:185-201 | the type matcher accepts a type exactly if an eligible requirement does |
| Filters.PreFilterIsSound | pkg/filter/filter.go:153-201 | dropping types by the coarse filter first changes no inclusion and no exclusion |
| Filters.WrongFlagLoses | pkg/filter/filter.go:188-196 | using the inclusion types for exclusion is right exactly if every resource of those types is matched anyway |
| Filters.ExcludeTwice | pkg/filter/filter.go:102-118 | excluding by a then b equals excluding by both |
| Filters.IncludeExcludePartition | pkg/filter/filter.go:97-118 | a matcher that is not empty splits a list without loss or overlap |
| Filters.TypeMatcherRoundTrip | pkg/filter/filter.go:85-91 | turning a type matcher into a resource matcher and back is the identity |
| Filters.FilterSpecs | pkg/filter/unstructured.go:24-48 | for every key order the result is the map restricted to the passing types |
| Tailing.WrittenIsAPrefix | pkg/kanx/server.go:150-174 | at every point the client has written a prefix of the process output |
| Tailing.FinishedClientHasTheTail | pkg/kanx/client.go:105-119 | a normal end delivers everything up to the last empty read, hence everything exactly if nothing was appended after it |
| Tailing.NothingMissingAfterExit | pkg/kanx/server.go:86-100 | nothing is missing if the wait for the process had returned before the last empty read |
| Tailing.TailCanBeLost | pkg/kanx/server.go:158-166 | any output can be lost in a stream that ends normally |
| Tailing.ReportedEndIsFinal | pkg/kanx/server.go:176-192 | a reported end and the output file never change again |
| Tailing.ReportTellsTheEnd | pkg/kanx/server.go:86-100 | a reported end is failed or succeeded as the wait for the process ended |
| Tailing.EndIsReportedAfterClose | pkg/kanx/server.go:176-192 | the end is reported as soon as the done channel is closed and not before |
| Tailing.StreamOutput | pkg/kanx/server.go:150-174 | the loop sends what it read, in order, never an empty message, and returns normally only from an empty read with a passed done check |
| Tailing.Output | pkg/kanx/client.go:105-119 | the loop writes the messages in order, up to a part of the one whose write fails, and succeeds exactly at the end of the stream without a write error |
| Waiting.Captured.PollOnce | pkg/function/wait.go:152-177 | a poll is done exactly if its conditions are met, and the carried result shows only with two empty lists |
| Waiting.WaitForCondition | pkg/function/wait.go:140-183 | the wait succeeds at the first poll that meets the conditions, and the carried result is false at every start if evaluators return false on error |
| Waiting.MetWithoutErrors | pkg/function/wait.go:152-177 | without errors the conditions are met if and only if one of the first list holds, or the second is not empty and holds throughout |
| Waiting.ErrorBlocksSecondList | pkg/function/wait.go:165-176 | an error in the second list blocks it |
| Waiting.ErrorHidesLater | pkg/function/wait.go:153-163 | an evaluation error hides a later condition that holds |
| Registry.Table.RegisterVersion | pkg/kanister.go:78-93 | adds exactly the new entry, or refuses nil, or panics exactly for a bad version or a second registration, and then changes nothing |
| Registry.Table.Register | pkg/kanister.go:48-63 | the same at the default version |
| Registry.EntriesAreForever | pkg/kanister.go:48-93 | no sequence of registrations replaces or removes an entry |
| Registry.RegistrationsStayFiled | pkg/kanister.go:48-93 | every entry is filed under the name of its function |
| Registry.ResolvedIsRegistered | pkg/phase.go:147-172 | a resolved version is registered, and the one asked for if that is registered, else the default |
| Registry.ResolvesExactlyWhen | pkg/phase.go:147-222 | the exact condition under which a version resolves, an empty one being the default |
| Registry.ResolvesAsAskedExactlyWhen | pkg/phase.go:147-172 | a resolved version equals the one asked for if and only if that is registered in the same spelling |
| Registry.OtherSpellingFallsBack | pkg/phase.go:160-169 | asking for 0.1.0 takes the default although v0.1.0 is registered |
| Registry.FallbackWorksExactlyWhen | pkg/phase.go:160-169 | the fallback works except for a version equal to the default but spelled differently |
| Registry.OtherSpellingFails | pkg/phase.go:160-163 | asking for 0.0.0 fails although v0.0.0 is registered |
| Registry.GetPhases | pkg/phase.go:175-200 | one phase per blueprint phase, in order, with the function of the resolved version, or an error exactly if one cannot be built |
| Registry.GetDeferPhase | pkg/phase.go:120-145 | the same for the defer phase, absent exactly if the blueprint has none |
| Registry.PhasesStayValid | pkg/phase.go:193-197 | later registrations do not invalidate a phase |
| Registry.SetPhaseArgs | pkg/phase.go:84-106 | the last phase of the name sets the arguments, and an error occurs exactly if one of them does not render |
| Registry.OwnArgumentsExactlyWhen | pkg/phase.go:84-106 | if phases of one name differ in their arguments, a phase gets its own if and only if no later phase shares its name |
| Registry.OthersArguments | pkg/phase.go:84-106 | the first of two phases of one name gets the arguments of the second |
| ChildActionSet.MergeOptions | pkg/kanctl/actionset.go:676-686 | in any iteration order new options win and nothing is lost |
| ChildActionSet.Derive | pkg/kanctl/actionset.go:226-257 | the overrides win field by field |
| ChildActionSet.MakeChild | pkg/kanctl/actionset.go:219-268 | action k targets object k % m of the m new ones, or the parent's without any; every other field and option is the given one if given and otherwise that of parent action k / m; an error exactly for a parent that is not complete, out of range exactly for too short a spec |
| ChildActionSet.ChildByIndex | pkg/kanctl/actionset.go:224-268 | the child has one action per parent action and object, and action k is made of parent action k / m and object k % m, field by field |
| ChildActionSet.SiblingsDifferInTarget | pkg/kanctl/actionset.go:258-266 | the child actions of one parent action differ in their target only |
| ChildActionSet.CompletedParentsAreSafe | pkg/controller/controller.go:334-343 | a parent completed by any run of the controller has spec and status lists of the same length |

## Left out

- Kubernetes, AWS, Helm, OpenShift, gRPC and object-store clients: foreign calls, modelled as answers that may succeed or fail.
- Argument decoding, templates, JSON, YAML and regular expressions: they rest on libraries.
- Error messages, events, logs, phase outputs and progress percentages of an ActionSet; the progress tracker is a step that only bumps the version.
- The object-kind check of `validate.ActionSet`, which looks at the spec and not at the status.
- The goroutines of the controller run as program counters of a transition system, not as methods, because their interleaving is the point.
- Deleting an ActionSet while it runs, and the map of tombs.
- Completion of an ActionSet without actions: it needs an update event, and the final-state theorems are about at least one action.
- SafetyTheorems.EachPhaseAtMostOnce: about one lifetime of the controller process; a restart kills the goroutines and leaves the set in Running.
- DeleteData.ForgetAll: sums unbounded integers, the 64-bit range of the total is not modelled.
- Filters.ApplyResources: label selectors are an opaque function of the labels that may fail to evaluate.
- Tailing.StreamOutput: the 4 MiB initial buffer size has no effect on what is sent and is not modelled.
- `kube_exec_all.go` and the parallel part of `create_volume_snapshot.go`: they append to shared variables without synchronisation.
- The `processes` map of the kanx server: one process and one stream at a time.
- The artifact path is fixed for a run of the pusher; the code reads it from a file at every push.
- ChildActionSet.MakeChild: the name of the new ActionSet, which may be missing and then is an error, and its labels are not modelled.
