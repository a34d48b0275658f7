# Rollout operator: a verified model

This project models the reconcile pipeline of the rollout operator and proves what it
guarantees. Rendered objects are rolled out to a Kubernetes API server in groups of steps;
a feedback object records the progress in the status of the resource that triggered the
rollout; success checks wait for the cluster to follow; a resource trigger and a database
trigger start rollouts. `dafny verify dfyconfig.toml` checks everything.

| module | models |
|---|---|
| `Kube` | objects and the API server: fresh resource versions, compare-and-swap updates, creates that refuse an object carrying a resource version, no objects that cannot be decoded, refused calls, and a `Cluster` whose methods are the calls |
| `Client` | update preparations and checks, as configured lists and as the default ones; rendered objects are changed in place (`Unstructured`) |
| `Actions` | the three object actions, one API call at a time and as methods |
| `LostUpdate` | one action against other writers that come between any two of its calls |
| `Walk` | an action on a nested list: what the list holds, in which order, and what a walk over it does |
| `Rollout` | steps, sequential and parallel groups, and the `Runner` |
| `Steps` | a step together with its success checks |
| `Parallel` | the goroutines of a parallel group, interleaved at every API call |
| `Effects`, `Symbols`, `Pictures`, `Executions`, `Scripts` | what actions, sequences of actions and whole rollouts do to a cluster |
| `Convergence`, `OneObject`, `ConvergenceExact` | repeated execution of a rollout |
| `Protocol`, `Goroutines` | the group loop as a state machine over every order in which steps return, and the API calls of goroutines as its runs |
| `Status`, `Feedback`, `Quiescence` | status conditions, the feedback object over shared pointers, and the writes of any number of syncs |
| `Engine` | the group loop together with its feedback object |
| `SuccessCheck`, `Checks`, `Observations` | snapshots, comparisons, failure checks and the two nested polls; the checks of a step; both told by the objects that are read |
| `KeyTransformation`, `ResourceTrigger`, `SelfTrigger` | event handlers, work queue and worker; the trigger together with the status writes of its own syncs |
| `DatabaseTrigger` | deduplication of runs by row key |

## Main results

- **Convergence.** A third execution of a rollout leaves the cluster of the second, up to
  resource versions, whatever cluster it starts from, for every list of groups, steps and
  nested lists, for rendered objects that several steps share and change in place, and for
  every interleaving of parallel groups on disjoint objects. The hypothesis is on the
  rollout (`Convergence.Renders`): its rendered objects are fresh, which means that the server
  can decode them and that they carry no resource version, and its script never updates,
  deletes and then creates the same rendered object. The first part is exact: each other
  object, rendered beside a fresh one, makes a rollout that re-creates nothing change the
  cluster in its third execution. Without the second part a rollout may alternate for ever:
  an update takes over the live resource version, and the server refuses to create what
  carries one. For rollouts of one rendered object the exact condition is proved. The second
  execution may still change something: a Deployment first gets an annotation when it is
  updated.
- **Confluence.** Every interleaving of the API calls of a parallel group on disjoint
  objects gives every step the result, and the cluster the objects, that the listed order
  gives; and what is collected as errors is the same, each error as often.
- **No lost updates.** With other writers between any two calls, an update goes through
  exactly when the live object is the one that was read and the server can decode the new
  one; it then keeps the live cluster IP and revision.
- **Barrier, marks, errors.** Over every run of the group loop: no step starts before the
  earlier groups are over, finished marks agree with the groups done, and the collected
  errors of a parallel group are exactly those of its failed steps. Every interleaving of
  API calls is such a run.
- **Status writes.** Skipping a write while the status equals a snapshot that is never
  refreshed loses nothing. Over any number of syncs, fresh, stale, failed or abandoned, n
  group names cause at most n + 1 changes of the stored status, and at most n + 2 if names
  repeat, which is reached. An Initialize is silent exactly if there are groups and the
  stored conditions have their names and agree where names repeat; if they are finished too,
  the whole sync is silent.
- **The loop comes to rest.** With the status writes of its own syncs fed back as update
  events, the length of every run of the resource trigger is bounded by its first state and by
  how often a sync fails or others interfere; and it rests only when the object has been
  synced at the version that the server has.
- **No lost wakeup.** In every reachable state of the resource trigger a cached object that
  is not synced is announced, queued, delayed or in the worker's hands.
- **What a step does.** Whatever calls the server refuses: the error of an action, the
  rendered object and everything stored afterwards are told by the refusals and the objects
  met. A nested list is walked at exactly the addresses where something other than a list
  stands, in lexicographic order; a walk that returns nil has stored (or, deleting, removed)
  every leaf. A step returns nil only if its object is known, its walk did so and every one of
  its success checks passes; a rollout that succeeds has passed every step that must not fail.
- **Success checks.** A check returns nil exactly if, after some number of observed changes,
  every comparison observes on the object read the value that it expects, or a wait timed out
  and that was reported. Which of these it is, is told by what the paths show on the objects
  read and by the failure checks (`Observations.PassesMeans`); every further poll is paid for by an observed
  change; the success exit of the inner poll is never taken. The checks of a step pass
  exactly if each of them does.
- **Database runs.** Keyed by the inner map, a trigger and key have at most one unfinished
  run in every interleaving. As written, every interleaving keeps their runs apart exactly if
  the key is the name of a trigger, and then it never runs.

## Where the code differs from its apparent intent

- trigger/database/database.go:140 and :158 use the outer map, which is keyed by trigger
  names, while :165 stores under the inner one. So nothing is ever pruned, a key that is a
  trigger name never starts a run, and every other row always does
  (`DatabaseTrigger.AsWrittenExactly`, `DatabaseTrigger.AsWrittenOverWholeRuns`).
- trigger/resource/handlers.go:64-68: `drop` drops what does *not* match, as `keep` does. It
  agrees with its name on the empty key only (`KeyTransformation.DropIsKeep`). A dropped key
  stays dropped along the rest of a chain exactly if no later transformation makes a key of
  the empty one (`KeyTransformation.DroppedForGood`).
- client/client.go:169 writes the live resource version into the rendered object, which
  rollout/actions.go:31 may pass to a create that the server then refuses
  (`OneObject.RecreationAlternates`).
- rollout/checks/success_check.go:135-142 compares the outer snapshot again inside the inner
  poll, so the success branch there is dead (`SuccessCheck.PollInner`).
- rollout/rollout.go:139-144: `ContinueOnError` has no effect in a parallel group
  (`Rollout.ContinueOnErrorIsVoid`).
- feedback/feedback.go:125: with no groups the status is written every time, because a nil
  slice and an empty one are not deeply equal (`Quiescence.InitializeIsQuietExactly`).

## Model

| member | source | states |
|---|---|---|
| `Client.PreparationExact` | client/client.go:224-258 | the default preparations fail exactly on a malformed live cluster IP, or a Service that cannot take one; they take over resource version, live cluster IP and live revision; all else stays as rendered |
| `Client.ServiceSpecs` | client/client.go:224-237 | the spec of a prepared Service, and the error if it cannot be prepared, for every combination of live and rendered spec |
| `Client.DeploymentAnnotations` | client/client.go:243-258 | the annotations of a prepared Deployment are the rendered ones with the live revision, or the empty string for a live object without one; as rendered if the live object has no annotations |
| `Client.OtherKinds` | client/client.go:168-258 | any other object only takes over the live resource version |
| `Client.NeededUpdates` | client/client.go:196-222 | an update is not needed exactly for a decodable ServiceAccount with the live name, namespace, labels and annotations, where none is as good as empty |
| `Client.PreparationsInOrder` | client/client.go:168-178 | any list of preparations is its members one after another, each on what the last left, up to the first that fails |
| `Client.ChecksInOrder` | client/client.go:180-192 | any list of checks comes to its first that is not a plain need to update |
| `Client.PrepareServiceForUpdate` | client/client.go:224-237 | in place: the live cluster IP, if there is one, is written into a rendered Service, with the two error exits |
| `Client.PrepareDeploymentForUpdate` | client/client.go:243-258 | in place: the live revision, or the empty string, is written if the live object has annotations |
| `Client.PrepareUnstructuredForUpdate` | client/client.go:168-178 | in place, for any list: resource version first, then the preparations up to the first that fails, keeping what was changed by then |
| `Client.CheckUnstructuredForUpdate` | client/client.go:180-192 | for any list: the first check that fails or finds no need decides |
| `Client.DefaultsAreUsed` | client/client.go:168-192 | the preparation and check that the other modules speak of are those of the default lists |
| `Actions.UpdateWithCurrent` | client/client.go:152-166 | prepare, check, and only if both allow it one update call |
| `Actions.ExecuteCreateOrUpdate` | rollout/actions.go:28-40 | Get, then Create or Update, in the micro-steps that other writers can interleave with; a refused Get is returned and changes nothing; on nil the object is stored; error, rendered object and store for every refusal |
| `Actions.ExecuteCreateIfNotExist` | rollout/actions.go:48-59 | likewise: Get, then Create if not found, else nothing |
| `Actions.ExecuteDeleteIfExist` | rollout/actions.go:67-80 | Delete, where not found is no error; a refusal is returned and changes nothing; on nil the object is gone |
| `Actions.ActionOutcome` | rollout/actions.go:28-80 | for every store and every set of refused calls: the error of an action, the rendered object afterwards and all that is then stored, by which call is refused and what was stored |
| `Actions.SuccessMeans` | rollout/actions.go:28-80 | on nil the object is stored, or after a deletion it is not; no other object appears or disappears |
| `LostUpdate.InvRun` | rollout/actions.go:28-59 | whatever others write, an object of the version that was read is the object that was read |
| `LostUpdate.HeldObjectWasRead` | rollout/actions.go:28-40 | the object held for an update is the result of an earlier Get of the run |
| `LostUpdate.UpdateReplacesWhatWasRead` | client/client.go:152-178 | an update succeeds exactly if the live object is the one read and the new one can be decoded; then it keeps the live cluster IP and revision and touches nothing else; otherwise nothing changes |
| `LostUpdate.CreateIfNotExistAltersNothing` | rollout/actions.go:48-59 | at every point of every run, existing objects stay as they are and at most the addressed one appears |
| `Walk.FlattenEnumerates` | rollout/rollout.go:193-204 | a nested list is walked at exactly the addresses at which something other than a list stands, in lexicographic order; addresses are paths of indices |
| `Walk.EnumeratedOnce` | rollout/rollout.go:193-204 | no address is walked twice |
| `Walk.LeavesAreItems` | rollout/rollout.go:193-204 | whatever stands at an address and is no list is walked, however deep |
| `Walk.ItemOutcome` | rollout/rollout.go:206-222 | one member, by the name of the action: unknown actions and members that are no objects fail without a call; a known action changes one rendered object and the store as the action does |
| `Walk.WalkIsItsItems` | rollout/rollout.go:193-204 | a walk is its members one after another, each from where the last ended, up to the first that fails |
| `Walk.WalkDoesAll` | rollout/rollout.go:193-204 | a walk without an error has stored every leaf of the nested list, or after a deletion none of them is stored |
| `Walk.StopsAtFirstFailure` | rollout/rollout.go:193-204 | a failing walk over leaves is decided by a prefix: what follows its first failing leaf does not matter |
| `Walk.RunItemsConcat` | rollout/rollout.go:193-204 | walking two lists is walking one and then, unless it failed, the other |
| `Rollout.StepOutcome` | rollout/rollout.go:173-191 | from the fields of a step: an unknown object, or the error of its walk, or else what its success checks return; a failed check undoes nothing |
| `Rollout.SequentialIsItsSteps` | rollout/rollout.go:146-154 | a sequential group attempts its steps from the first on, each from where the last ended |
| `Rollout.SequentialStops` | rollout/rollout.go:146-154 | a sequential group attempts its steps up to the first failure that may not be ignored, and fails exactly if there is one |
| `Rollout.SequentialConcat` | rollout/rollout.go:146-154 | a sequential group is its parts one after the other, as long as they do not fail |
| `Rollout.FailedCheckEndsGroup` | rollout/rollout.go:146-154 | a success check that fails and may not be ignored ends its group with that error; no later step is attempted |
| `Rollout.FailedCheckEndsRollout` | rollout/rollout.go:128-168 | and it ends the rollout: no later group is run |
| `Rollout.ContinueOnErrorIsVoid` | rollout/rollout.go:136-160 | in a parallel group setting or clearing the flag of any step changes nothing, and the group fails exactly if some step does |
| `Rollout.AllIsItsSteps` | rollout/rollout.go:129-145 | in listed order a parallel group attempts every step, each once and from where the last ended |
| `Rollout.ErrorsAppend` | rollout/rollout.go:139-145 | one more step adds its error to the collection, and nothing if it has none |
| `Rollout.IgnorableStepFailsParallelGroup` | rollout/rollout.go:133-160 | two ignorable steps that fail: the sequential group passes, the parallel one fails with both errors |
| `Rollout.ExecuteConcat` | rollout/rollout.go:128-168 | a rollout is its groups one after the other, stopping with the first failure |
| `Rollout.ExecutionIsItsGroups` | rollout/rollout.go:128-168 | a rollout runs its groups from the first on, each from where the last ended, up to the first that fails, and ends as that one does |
| `Rollout.SuccessNeedsEveryCheck` | rollout/rollout.go:128-191 | a rollout without a failure has passed every step that must not fail: its object is known and its success checks returned nil |
| `Rollout.Runner.ExecuteSingleAction` | rollout/rollout.go:206-222 | an unknown action fails without a call; a known one changes one rendered object and the cluster as specified |
| `Rollout.Runner.ExecuteAction` | rollout/rollout.go:193-204 | the recursive walk over a nested list has the effect and error of walking its members, up to the first that fails; on nil every leaf is stored, or after a deletion none is |
| `Rollout.Runner.RunOneStep` | rollout/rollout.go:173-191 | unknown object, action error, or the outcome of the success checks; on nil the object is known, its success checks returned nil and all its leaves are done |
| `Steps.RunStepWithChecks` | rollout/rollout.go:173-191 | the walk, then the success checks of the step: nil exactly if the object is known, the walk did not fail and every check passes; and it is the step of the model with what its checks came to |
| `Rollout.Runner.ExecuteSequential` | rollout/rollout.go:146-154 | the loop over a sequential group: attempts, effects and error as specified |
| `Rollout.Runner.ExecuteParallel` | rollout/rollout.go:129-145 | the loop over a parallel group in listed order: every step is attempted and every error collected |
| `Rollout.Runner.ExecuteRollout` | rollout/rollout.go:128-170 | the group loop without feedback stops at the first failing group, with parallel groups in listed order |
| `Parallel.NextUpToVersions` | rollout/actions.go:28-80 | one API call depends on resource versions only through whether the object read is still live and whether the rendered one carries any |
| `Parallel.OnlyOwnStepsMatter` | rollout/rollout.go:132-156 | in a group on disjoint objects a goroutine ends up where its own calls alone would have taken it |
| `Parallel.AnyTwoCompleteRuns` | rollout/rollout.go:132-156 | two complete interleavings end with the same outcomes, rendered objects and cluster |
| `Parallel.ListedOrder` | rollout/rollout.go:132-156 | attempting the steps in listed order is one of the interleavings |
| `Parallel.Confluence` | rollout/rollout.go:132-156 | every complete interleaving gives the results, rendered objects and cluster of the listed order, up to which resource versions there are |
| `Parallel.SomeRunCompletes` | rollout/rollout.go:132-156 | a complete interleaving exists for every group |
| `Goroutines.CallsAreRuns` | rollout/rollout.go:132-156 | every interleaving of API calls extends a run of the protocol, at every call, by returns of steps only |
| `Goroutines.BarrierForCalls` | rollout/rollout.go:128-168 | at every API call of a parallel group every earlier group has returned, without an error that counts, and its Finished write was accepted |
| `Goroutines.CollectedErrorsAgree` | rollout/rollout.go:129-160 | whatever the interleaving, the errors collected are those of the listed order, as a multiset, and the group fails exactly if it fails in the listed order |
| `Effects.CarryLaws` | client/client.go:224-257 | carried values are taken over once: a later value replaces an earlier one, and carrying from a carried object is carrying from its source |
| `Effects.PerformHasEffect` | rollout/actions.go:28-80 | unless the server refuses to create it, an undisturbed action on a decodable object succeeds, does to the stored object what the abstract effect says, and nothing elsewhere; the object carries a version from then on exactly if it met a live one |
| `Symbols.SymbolEffectMeans` | rollout/actions.go:28-80 | the effect of any sequence of actions on an identity is one of four functions of what was stored at first; one more action stays in that family |
| `Symbols.ThriceIsTwice` | rollout/actions.go:28-80 | any such function applied a third time changes nothing |
| `Pictures.NoRecreationIsAccepted` | rollout/actions.go:28-80 | a sequence of actions that updates, deletes and then creates no rendered object is never refused a create, from any cluster |
| `Executions.SequentialExecution` | rollout/rollout.go:128-168 | without parallel groups a rollout has one execution, which is what the group loop does |
| `Scripts.InterleavingFollows` | rollout/rollout.go:132-156 | an interleaved parallel group does what its actions in listed order do |
| `Scripts.RolloutFollows` | rollout/rollout.go:128-168 | an execution does a sequence of actions that depends on the rollout only, as long as the server accepts it; a refused single object stays lost |
| `Convergence.ExecutionTold` | rollout/rollout.go:128-168 | what a whole accepted execution leaves under an identity is a fixed function of what it found there |
| `Convergence.ThirdRunChangesNothing` | rollout/rollout.go:128-168 | the third execution of a rollout leaves the cluster of the second, if its objects are rendered fresh and none is updated, deleted and then created |
| `OneObject.OneExecution` | rollout/actions.go:28-80 | whether an execution leaves its one rendered object stored is what a fold over its actions says, refused creates and ignored failures included |
| `OneObject.OneObjectExactly` | rollout/rollout.go:128-168 | a rollout of one rendered object converges from every cluster exactly if that fold does not turn absent into stored and stored into absent |
| `OneObject.AlternatesForEver` | rollout/actions.go:28-80 | otherwise every execution turns stored into absent and absent into stored |
| `OneObject.RecreationAlternates` | rollout/actions.go:28-80 | update, delete, create on one object does so |
| `ConvergenceExact.ConvergenceIsExact` | client/client.go:152-257 | a rendered object is harmless to convergence exactly if the server can decode it and it carries no resource version |
| `ConvergenceExact.Diverges` | rollout/actions.go:28-80 | for each other object a rollout that re-creates nothing and whose third execution still changes the cluster |
| `ConvergenceExact.SecondRunMayChange` | client/client.go:243-258 | two executions are not enough: the second adds the revision annotation |
| `Protocol.InvStep` | rollout/rollout.go:128-168 | starting, returning, finishing and concluding keep the invariant of the group loop |
| `Protocol.Barrier` | rollout/rollout.go:128-168 | once a step of a group has started, all steps of earlier groups have returned, with no error but ignorable ones of sequential groups, and with feedback their Finished writes were accepted |
| `Protocol.FinishedMarksAgree` | rollout/rollout.go:162-167 | at every point a condition is Finished exactly if it was before or a group of its name is done, and the groups done are a prefix of the list |
| `Protocol.ErrorsAreConserved` | rollout/rollout.go:129-160 | the collection has one entry for each failed step, as a multiset, and the rollout fails at the group exactly if a step failed |
| `Status.RoundTrip` | feedback/feedback.go:34-75 | conditions that are written and read back are the same up to fractions of seconds |
| `Status.LastNamedIsLast` | feedback/feedback.go:164-169 | the condition taken over for a group is the last old one of its name |
| `Status.MergedExactly` | feedback/feedback.go:149-183 | the condition of a group after initialization: the last old one of its name, else a fresh one, "Not Started", at the time of the clock |
| `Status.SetExactly` | feedback/feedback.go:107-119 | setting a status gives every condition of the name that has another status that status and the time of the clock, and leaves all others as they are |
| `Status.StoredFields` | feedback/feedback.go:34-75 | which fields are stored of a condition, and what is read of stored ones: a missing field reads as the empty one |
| `Status.MergedNames` | feedback/feedback.go:149-183 | after initialization the conditions have the names of the groups, in order |
| `Status.MergeDiverges` | feedback/feedback.go:149-183 | an initialized status equals the old one or differs from it in a way that lasts, also with repeated names |
| `Status.DivergedForGood` | feedback/feedback.go:107-127 | such a difference survives every condition set to Finished, whatever the clock shows |
| `Status.FirstChangeDiverges` | feedback/feedback.go:107-127 | the first change of an unchanged status makes such a difference |
| `Feedback.ExtractStatus` | feedback/feedback.go:34-75 | fresh conditions with the stored fields, missing ones empty, or no status exactly if the list or one condition is unreadable |
| `Feedback.AvailableConditions` | feedback/feedback.go:164-169 | the map holds, for every name, the last old condition of that name |
| `Feedback.MergedConditions` | feedback/feedback.go:171-182 | the list built shares the old objects or holds fresh ones, with the merged values |
| `Feedback.ChangedConditions` | feedback/feedback.go:109-119 | conditions are replaced by fresh objects and never changed |
| `Feedback.Feedback.InitializeStatus` | feedback/feedback.go:149-183 | the current status holds the merged values; no old condition object is in the frame |
| `Feedback.Feedback.SetConditionStatus` | feedback/feedback.go:107-119 | every condition of the name is set; shared objects keep their values |
| `Feedback.Feedback.WriteStatus` | feedback/feedback.go:129-146 | without a client nothing changes; else all conditions are written under the held version, and a refusal leaves no held object |
| `Feedback.Feedback.UpdateStatus` | feedback/feedback.go:124-147 | no call while the status is the old one; else a write of all conditions, which goes through exactly if it is not refused and holds the current version |
| `Feedback.Feedback.Initialize` | feedback/feedback.go:101-105 | merge, then update |
| `Feedback.Feedback.SetCondition` | feedback/feedback.go:107-122 | set, then update |
| `Quiescence.ConditionsInMemory` | feedback/feedback.go:107-183 | after an Initialize and any number of sets, conditions have the group names in order, each as the last old one of its name or a fresh one unless its name was set since, and then Finished |
| `Quiescence.SkippingIsSafe` | feedback/feedback.go:124-147 | after every successful update, written or skipped, the stored conditions read as those in memory |
| `Quiescence.StaleWritesNothing` | feedback/feedback.go:124-147 | a sync from a stale object writes nothing, and succeeds only while its status is the stale one |
| `Quiescence.InitializeIsQuietExactly` | feedback/feedback.go:101-183 | an Initialize makes no call exactly if there are groups and the stored conditions are readable, have their names, and agree where names repeat |
| `Quiescence.FinishedIsQuiet` | feedback/feedback.go:124-183 | a sync that starts with such conditions, all Finished, makes no status call and changes nothing |
| `Quiescence.ChangeIsPaidFor` | feedback/feedback.go:124-183 | each event of the sync loop keeps changes made plus changes remaining from growing, for any list of groups |
| `Quiescence.AtMostOneChangePerGroupAndOne` | feedback/feedback.go:124-183 | any number of syncs, fresh, stale, failed or abandoned, changes the stored status at most n + 1 times for n distinct groups, and n + 2 times if names repeat |
| `Quiescence.RepeatedNamesCostOneMore` | feedback/feedback.go:149-183 | with a repeated name the bound n + 2 is reached |
| `Engine.RunAndMark` | rollout/rollout.go:128-168 | the loop body: the group, and its Finished mark if it did not fail; feedback is untouched if it did |
| `Engine.GroupLoop` | rollout/rollout.go:128-170 | however the loop with feedback ends, the groups before its end have run as they do without, and a success has set every group |
| `Engine.ExecuteWithFeedback` | rollout/rollout.go:115-171 | from a fresh or stale object: how far the rollout has run, by how it ended, a refused Finished write included; a success means that the stored status says that all groups are finished, or that the stale object already said so and nothing was written |
| `SuccessCheck.RegisterPaths` | rollout/checks/success_check.go:59-93 | succeeds exactly if every path parses; the keys are all paths and non-empty value paths; the last registration gives the default |
| `SuccessCheck.RegistrationMeans` | rollout/checks/success_check.go:66-83 | the paths are those that some comparison mentions; the last comparison to mention one gives its default, and none if it mentions it as an expected value |
| `SuccessCheck.ReadMeans` | rollout/checks/success_check.go:25-40 | an object is read exactly if every path shows a value on it, a single result or its default for no results; and it is read as these |
| `SuccessCheck.CurrentValues` | rollout/checks/success_check.go:221-237 | in whatever order the map is walked: the values that the paths show, or the error of a path that shows none |
| `SuccessCheck.CheckComparisons` | rollout/checks/success_check.go:239-285 | a report for each comparison: whether the observed value is the expected one, by path, else the fixed one, else the number; success exactly if all are |
| `SuccessCheck.SnapshotsAreComplete` | rollout/checks/success_check.go:254-285 | every path that a comparison looks up is in every snapshot, also when paths collide |
| `SuccessCheck.AllHoldMeans` | rollout/checks/success_check.go:221-285 | on the snapshot of an object the comparisons succeed exactly if on the object itself each observes the value that it expects |
| `SuccessCheck.PassMeans` | rollout/checks/success_check.go:161-183 | the first failure check that is unknown or does not pass decides a pass: its error, or none if it is a failure that was reported |
| `SuccessCheck.PassExactly` | rollout/checks/success_check.go:161-183 | a pass is without error exactly if all checks pass or the first that does not is reported |
| `SuccessCheck.CheckFailed` | rollout/checks/success_check.go:161-183 | the outcome of a pass, and exactly one report if the first check that does not pass is a failure with a report, else none |
| `SuccessCheck.PollInner` | rollout/checks/success_check.go:125-149 | the verdict is that of the first call that errs or sees a change; the success branch is never taken |
| `SuccessCheck.PollOuterOnce` | rollout/checks/success_check.go:105-152 | the five ways out of one outer call, and its work; success exactly if every comparison agrees with the object read; a failed read and a path without a value abort with their errors |
| `SuccessCheck.ExecuteCheck` | rollout/checks/success_check.go:95-159 | without a client nothing is polled; else the outer poll goes on while changes are seen; the error is that of the last verdict, and a timeout is reported if so configured; reads and passes are bounded by the calls |
| `SuccessCheck.CallsAreBounded` | rollout/checks/success_check.go:105-152 | n outer calls with at most m inner ones each make at most n * (1 + m) calls |
| `SuccessCheck.VerdictIsDetermined` | rollout/checks/success_check.go:105-152 | the verdict of an outer call depends only on what it observes |
| `SuccessCheck.EveryFurtherPollIsPaidFor` | rollout/checks/success_check.go:105-152 | when nothing errs, another outer poll follows exactly if an inner snapshot differs; else the whole check times out |
| `SuccessCheck.NilExactly` | rollout/checks/success_check.go:105-158 | nil exactly on a satisfied outer snapshot, or a timeout of either kind that was reported |
| `Observations.SatisfiedMeans` | rollout/checks/success_check.go:111-118 | an outer snapshot satisfies the comparisons exactly if the object read shows a value for every path and every comparison observes what it expects |
| `Observations.VerdictMeans` | rollout/checks/success_check.go:105-152 | the verdict of an outer call, exactly, from the objects that the two polls read and the failure checks: success, an error, the first inner call that sees other values, or no progress |
| `Observations.EndMeans` | rollout/checks/success_check.go:105-152 | the outer poll ends at its first call that is not followed by another, and how, in the same terms |
| `Observations.PassesMeans` | rollout/checks/success_check.go:51-159 | a check passes exactly if its paths parse, it has a client, and after some number of changes the object fulfils every comparison or a timeout was reported |
| `Checks.NewChecks` | rollout/checks/checks.go:26-47 | fails exactly on a repeated name; otherwise the known checks are those given |
| `Checks.EndIsDetermined` | rollout/checks/success_check.go:105-152 | how long a check polls and how it ends is determined by what it meets, up to which error |
| `Checks.RunCheck` | rollout/checks/checks.go:64-80 | nil exactly if all paths parse, a client can be built, and an outer snapshot is satisfied or a timeout reported |
| `Checks.RunChecks` | rollout/checks/checks.go:49-62 | the checks of a step pass exactly if each does; the first that does not ends them |
| `KeyTransformation.Transform` | trigger/resource/handlers.go:81-88 | the loop applies the chain from left to right |
| `KeyTransformation.TransformsAlong` | trigger/resource/handlers.go:55-88 | the keys along a chain: a replacement expands a key that matches and keeps any other; filters keep what matches and empty the rest; unknown actions keep |
| `KeyTransformation.SplitsCompose` | trigger/resource/handlers.go:81-88 | a chain is the composition of any of its splits |
| `KeyTransformation.FiltersKeepWhatAllMatch` | trigger/resource/handlers.go:55-88 | a chain of filters yields the key exactly if all match it, and the empty key otherwise |
| `KeyTransformation.FilterOrderIsIrrelevant` | trigger/resource/handlers.go:55-88 | filters can be permuted |
| `KeyTransformation.DropIsKeep` | trigger/resource/handlers.go:64-73 | drop as written is keep; it agrees with the drop that its name promises on the empty key only |
| `KeyTransformation.StaysEmptyExactly` | trigger/resource/handlers.go:81-88 | the empty key stays empty all along a chain exactly if no transformation makes a key of it |
| `KeyTransformation.DroppedForGood` | trigger/resource/handlers.go:55-88 | a filtered key is dropped at every later point of a chain exactly if nothing after the filter makes a key of the empty one |
| `KeyTransformation.FilteredIsNotHandled` | trigger/resource/handlers.go:119-177 | no handler enqueues anything for a key that such a chain filters, wherever the filter stands |
| `KeyTransformation.FilteredKeyReturns` | trigger/resource/handlers.go:55-88 | one later replacement that matches the empty key brings every filtered key back |
| `KeyTransformation.HandledExactly` | trigger/resource/handlers.go:119-177 | an event enqueues the last key along the chain and no other, unless that is empty or the versions before and after an update are the same |
| `ResourceTrigger.QueueKeepsValid` | trigger/resource/resource.go:170-210 | adding, taking and finishing keep the queue duplicate-free and exactly the dirty keys that are not being processed |
| `ResourceTrigger.InvStep` | trigger/resource/resource.go:170-237 | every cache change, delivery, retry and worker step keeps the no-lost-wakeup invariant |
| `ResourceTrigger.NoWakeupIsLost` | trigger/resource/resource.go:170-237 | in every reachable state an unsynced cached object is announced, dirty, delayed or in the worker's hands |
| `ResourceTrigger.QuietMeansSynced` | trigger/resource/resource.go:170-237 | with nothing left to do, every cached object has been synced at its version |
| `ResourceTrigger.ComesToRest` | trigger/resource/resource.go:186-237 | with no outside events and successful syncs each step lowers a measure, and some step is possible until all is quiet |
| `ResourceTrigger.Trigger.EnqueueObject` | trigger/resource/resource.go:170-184 | adds the key that it is given or that the object has, if there is one |
| `ResourceTrigger.Trigger.Handle` | trigger/resource/handlers.go:119-177 | makes the transformed key dirty, and no other, unless it is empty or the version is unchanged |
| `ResourceTrigger.Trigger.Sync` | trigger/resource/resource.go:212-237 | fails, and records nothing as synced, if the indexer, the encoding or the rollout does; a missing object is a success; a successful rollout records its version |
| `ResourceTrigger.Trigger.ProcessNextWorkItem` | trigger/resource/resource.go:191-210 | one work item is the machine's take, lookup, success or failure, and done; its key waits for a retry exactly after a failed indexer, encoding or rollout, and only a rollout that succeeded is recorded |
| `SelfTrigger.InvStep` | trigger/resource/resource.go:186-237 | the trigger together with its own status writes keeps no lost wakeup, what a sync knows of the status, and that the last version seen or to be seen is the server's |
| `SelfTrigger.EveryStep` | trigger/resource/resource.go:186-237 | every step of the loop's own lowers a potential, status writes and the events that they cause included |
| `SelfTrigger.EveryRunIsBounded` | trigger/resource/resource.go:186-237 | the length of every run is bounded by its first state and the number of failed syncs and outside events, if there are groups |
| `SelfTrigger.RestsWhenSynced` | trigger/resource/resource.go:186-237 | when no step but those of others is possible, all is quiet and the object has been synced at the server's version |
| `DatabaseTrigger.InnerMapKeepsRunsApart` | trigger/database/database.go:137-169 | with the inner map: at most one unfinished run of a trigger and key in every interleaving, no crash, and after a tick a row starts a run exactly if none is unfinished |
| `DatabaseTrigger.AsWrittenExactly` | trigger/database/database.go:137-169 | as written, one row: a tick changes nothing, and a row keeps its runs apart exactly if its key is a trigger name or has no unfinished run |
| `DatabaseTrigger.AsWrittenOverWholeRuns` | trigger/database/database.go:137-169 | as written, whole runs: every interleaving keeps the runs of a trigger and key apart exactly if the key is a trigger name, and then it never runs |
| `DatabaseTrigger.AsWrittenDuplicates` | trigger/database/database.go:137-169 | for every other key, two ticks that see the same row start two runs of it |
| `DatabaseTrigger.TriggerRunner.Prune` | trigger/database/database.go:138-142 | the loop deletes the keys of done runs from the outer map |
| `DatabaseTrigger.TriggerRunner.ScheduleTriggerRun` | trigger/database/database.go:157-169 | looks up the outer map, stores in the inner one, starts the run |
| `DatabaseTrigger.TriggerRunner.FinishRun` | trigger/database/database.go:63-70 | a run whose rollout has returned is done, with or without an error; no other is touched |
| `DatabaseTrigger.TriggerRunner.RunRows` | trigger/database/database.go:187-236 | rows are scheduled up to the first that cannot be read, has no key or cannot be encoded; grouped rows once, under the empty key, if all can be used and their array encoded |
| `DatabaseTrigger.KeysExactly` | trigger/database/database.go:187-223 | the keys scheduled are those of the rows before the first without a key or encoding, in order |
| `DatabaseTrigger.RowsStart` | trigger/database/database.go:157-223 | scheduling these starts one run for each key that is not a trigger name, in order, whatever is under way, and touches no other run |

## Left out

- The API server is abstract: no server-side defaulting, validation or garbage collection beyond refusing what it cannot decode (a Service whose cluster IP is not a string or whose spec is null or not a map, a ServiceAccount that does not decode); a deletion is immediate although the propagation policy is foreground.
- Discovery and building a client for an object (client/client.go:84-143): in a rollout a failure counts as a refused first call; in the feedback object and in success checks it is a case of its own.
- JSON trees are cut to the fields that the code looks at; a map with a non-string label or annotation is not modelled.
- Error texts and wrapping: errors are values, and a parallel group's collection holds errors that are not collections themselves.
- Rollout.Runner.RunOneStep: takes the outcome of the step's success checks as given, the same in every execution; `Steps.RunStepWithChecks` runs them, and what they come to is the subject of `Checks` and `Observations`.
- Rollout.Runner.ExecuteParallel: the goroutines run in listed order, because the interleavings are the subject of `Parallel`, `Protocol` and `Goroutines`.
- Rollout.Runner.ExecuteRollout: has no feedback calls, because those are in `Engine`.
- Engine.ExecuteWithFeedback: parallel groups run in listed order.
- Parallel.Confluence: assumes that a refused call depends only on the addressed object, and that the steps of the group work on disjoint identities, without which the outcome does depend on the order.
- Convergence.ThirdRunChangesNothing: its condition on re-creation is sufficient for all rollouts and exact only for rollouts of one object, because with several objects a refused create may also end a rollout early and leave what converges later or by accident; parallel groups whose steps share an identity are taken in listed order only.
- SelfTrigger.EveryRunIsBounded: is for rollouts with at least one group; with none every sync writes the status and so causes the next.
- Status.RoundTrip: time formats are taken to keep whole seconds; time zones are not modelled.
- JSON paths, regular expressions and the wall clock of polls: uninterpreted; a poll makes a non-empty, finite number of calls, so a zero timeout, which waits for ever, is outside the domain.
- Comparisons without a value and definitions without field comparisons crash the code and are not modelled.
- The work queue follows client-go's documented contract; shutting down, rate limits and several workers are not modelled.
- The query of the database trigger, transaction retries (which repeat ticks and rows) and payloads are given from outside.
- The unsynchronized access of several triggers to one Go map: steps are atomic here.
- Rendering, the interval and one-off triggers, the config passer, metrics, the command line, the execution register, duration parsing and the pod OOM check are not modelled.
