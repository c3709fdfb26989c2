# flowgen: change proposals, task graphs, once-only protocols and hot reload

A Dafny model of the state-bearing logic of flowgen, a workflow engine whose flows are YAML files:

- **Change proposals** (`Prelude`, `Targets`, `Changes`, `WorkspacePaths`, `ChangeStore`, `Lifecycle`,
  `LifecycleSafety`, `PublishRuns`). People and agents propose edits to flow and resource files; reviewers approve or
  reject them; a publish flow pushes an approved change to a branch. Records live in a compare-and-swap store shared by
  all pods. `Changes` says what each handler writes, `ChangeStore` runs the handlers against a store object, and
  `Lifecycle` interleaves any number of handlers and publishers step by step, with lost replies, dead pods and an
  arbitrary clock.
- **Published history** (`StableSort`, `PublishedHistory`, `PublishedReads`, `WaitingChanges`). What the branch holds as
  far as flowgen knows, from what runs and the published versions, and which changes still wait for deployment.
- **Task graphs** (`TaskGraph`, `DependencyPaths`, `Wiring`, `EventFlow`, `Erasure`, `FanOut`). Parents resolved from
  names or implicitly, channels and dispatchers wired between tasks, leaves counted in one reverse pass, and events
  travelling through the wired channels in any order.
- **Leadership** (`Leadership`, `Tenures`, `Grants`). The monitor that spawns a flow's tasks on gaining leadership and
  cancels and aborts them on losing it.
- **Once-only protocols** (`ClientRegistry`, `ClientKeys`, `Toolsets`, `ToolsetSharing`, `ToolsetCalls`, `CookieKey`).
  One client per key, one MCP toolset per user and token, one cookie key for all pods.
- **Hot reload** (`Reconciler`, `ReconcileBatches`, `BatchCollection`). Watch events debounced into batches, reduced to
  one event per key, and applied in hash-map order.

`dafny verify dfyconfig.toml` checks the project.

## How to read it

Methods and classes follow the source's loops and updates and are proved equal to functions; the results are about
those functions. Protocols that interleave are transition systems: a `Step` is one atomic action of one actor, a step
that is not enabled changes nothing, `Run` folds `Next` over any list of steps, and a result over `Run` (or
`Reachable`) is about every interleaving. Fields named `history`, `succeeded`, `lost`, `entered` and `log` only record
what happened; no step reads them.

Results about what always holds come with results about what does happen: `PublishRuns` that an accepted proposal can
be published and that every stored outcome is what a flow returned, `Grants` that a granted monitor runs its tasks,
`BatchCollection` which events reach the registry of flows, and `ClientRegistry.StoredKeysAreServed` and `ToolsetCalls`
what each caller is answered.

Results that bound what the code guarantees:

- `Leadership`: while the monitor drains duplicate `Leader` messages it also consumes the message that ends the drain.
  `Tenures.RunsWithoutLeadershipExactlyWhenSwallowed` says that tasks run after a last `NotLeader` exactly when that
  message ended a drain, its tenure could be spawned and its tasks are not done. The first tenure runs
  `parallel_instances` copies of the tasks; later ones run one copy.
- `ClientRegistry`: the documentation of `get_or_init` promises at most one initialisation. A caller dropped after its
  closure returned and before its client is stored lets init succeed again (`DroppedClientIsOpenedAgain`);
  `InitSucceedsOnce` counts exactly those. `remove` also drops the guard, so two closures can run at once
  (`RemoveAllowsTwoInitsAtATime`). `ToolsetSharing` has the same boundary (`DroppedConnectIsOpenedAgain`).
- `Reconciler`: a put that is refused leaves the old flow running, so as the last event of its key in a batch it hides
  the events before it (`BrokenPutHidesAGoodOne`). From every registry of started flows a batch does what its events
  one by one do exactly when, for each flow, the last event is not refused, or all are, or no source of the flow can
  run at all (`BatchAgreesExactlyWhenHarmless`). A shutdown loses only the events since the last timer that ended
  (`BatchCollection.BatchesAreWhatWasHeard`).
- `Wiring`: the linear builder does not check for duplicate names, the general one does; on distinct names they agree
  (`LinearMeansTheSame`).
- `Targets`: of equally long folders the last target in the list wins; who owns a path depends on the order of the
  list exactly when two targets list the deciding folder (`OwnershipDependsOnOrderOnlyWhenContested`).
- `PublishedHistory`: a change that runs is never waiting, even if it listed a path twice
  (`RunningChangeIsNeverWaiting`); listing paths once gives it file by file (`RunningFileIsNotPending`). For changes
  read from the store one by one while others write, both assumptions hold (`PublishedReads`). Where each version
  builds on the one before, a file waits exactly while something older than it runs (`WaitingChanges`).

Assumptions: revisions of a record only grow, ids of new changes are fresh, records already stored list each path once
(`Lifecycle.Init`), and a flow's verdict (refused, fails to start, runs) is a function of its name and source.
Reading a cookie key back takes the first 64 bytes and refuses fewer, as the cookie library does.

## Model

| member | source | states |
|---|---|---|
| Prelude.BlankIsTrimmedEmpty | flowgen/app/src/authoring.rs:864-873 | a title or description trims to nothing exactly when every character of it is white space |
| Prelude.TrimDropsTheEnds | flowgen/app/src/web.rs:143-146 | trimming drops white space from both ends, all of it, and nothing else |
| Targets.CoveringFoldersOfOneLengthAgree | flowgen/core/src/identity.rs:64-70 | two equally long folders that contain one path on whole segments are the same folder |
| Targets.MatchedLenBounds | flowgen/app/src/config.rs:893-900 | a target with a folder containing the path matches it, at least as long as that folder |
| Targets.MatchedLenIsReached | flowgen/app/src/config.rs:893-900 | the length a target matches with is that of one of its folders containing the path |
| Targets.OwnerIndexIsTheLastLongest | flowgen/app/src/config.rs:881-887 | the chosen target matches at least as long as every earlier one and strictly longer than every later one |
| Targets.OwnerIsMostSpecific | flowgen/app/src/config.rs:878-900 | an owner is found exactly when some folder covers the path; it lists a folder no covering folder is longer than, and any covering folder as long is that folder |
| Targets.OwnershipDependsOnOrderOnlyWhenContested | flowgen/app/src/config.rs:878-900 | reordering the targets can change the owner if and only if two different targets list the deciding folder |
| Targets.FindTargetFor | flowgen/app/src/authoring.rs:499-529 | the loop over the paths gives the target or the first error that the specification gives |
| Targets.TargetForOwnsEveryPath | flowgen/app/src/authoring.rs:499-529 | a target is given exactly when there is a path and every path's owner has that target's name |
| Targets.TargetForRefusal | flowgen/app/src/authoring.rs:499-529 | a refused list has a first path that nobody owns, or that another target owns than all before it; the error names it, or the two targets in the order met |
| Targets.TargetForIsTheLastOwner | flowgen/app/src/authoring.rs:499-529 | of targets that share a name, the one given owns the last path |
| Targets.StoredTargetStillOwnsTheFiles | flowgen/app/src/authoring.rs:532-550 | a stored change keeps its target exactly when that target, by name, now owns each of its files; it is told of another owner exactly when one owns them all, and that its target is gone when none does |
| Targets.DecidersAreNamed | flowgen/app/src/authoring.rs:593-622 | someone may decide exactly when nobody signs in, or a person does and the target lists no group or one that their claim names; a key is refused as such and a person outside every group by their id |
| Targets.AuditLabel | flowgen/app/src/web.rs:139-151 | audit fields name a person by the trimmed email claim or else their id, a key behind a prefix, and nobody as anonymous |
| Changes.CheckedPathsAreDistinct | flowgen/app/src/authoring.rs:232-253 | a list of files passes exactly when every path can be located and no path repeats |
| Changes.CheckRefusal | flowgen/app/src/authoring.rs:232-253 | a refused list has a first file that cannot be located or repeats an earlier path, and the error names it and why |
| Changes.CheckPaths | flowgen/app/src/authoring.rs:232-253 | the loop gives each file's location in order, or the first problem |
| Changes.MergeAt | flowgen/app/src/authoring.rs:904-925 | added files keep every known file in place with the base recorded first, give each path its last posted content, record a base only for new paths, and never list a path twice |
| Changes.AddFiles | flowgen/app/src/authoring.rs:904-925 | the loop over the posted files computes that merge |
| Changes.ApprovalNeedsOwnership | flowgen/app/src/authoring.rs:999-1029 | an approval is accepted exactly when the change's own target owns every file now and names the caller (nobody signed in, or a person in one of its groups), no other publisher may still be at work, it is the reviewed version and has no issue; it then changes exactly status, decider, date and error |
| Changes.ApprovalRefusal | flowgen/app/src/authoring.rs:999-1024 | a refused approval is told the first of: no owner, another owner, not a person, not an approver, the status, a newer version, issues |
| Changes.StalledMayBeRetried | flowgen/app/src/authoring.rs:1046-1067 | a change is stalled exactly when it is in publishing without a date, or on a pod that knows the timeout once it passed |
| Changes.RejectionNeedsOwnership | flowgen/app/src/authoring.rs:1176-1204 | a rejection is accepted exactly when the change's own target owns every file now and names the caller, and the change is pending or failed; it changes exactly status, decider and date, and a refusal says which of these failed |
| Changes.ProposalNeedsOneOwner | flowgen/app/src/authoring.rs:757-800 | a proposal is accepted exactly when it has a title, its paths can be located and differ, and one target name owns them all; every field of the stored record is given |
| Changes.ProposalRefusal | flowgen/app/src/authoring.rs:224-229 | a refused proposal is told of its title first, then of its first bad path, then of the target it lacks |
| Changes.EditIsByTheProposerOfAPendingChange | flowgen/app/src/authoring.rs:829-880 | an edit is accepted exactly from the proposer of a pending change and unless it blanks the title; it sets what it names, a blank description clearing it, keeps everything else, and dates the change strictly after its last edit; a refusal says which of these failed |
| Changes.FilesAreAddedByAnEditor | flowgen/app/src/authoring.rs:882-903 | files are added exactly by the proposer of a pending change, and only located, distinct paths that with the known ones belong to the change's target |
| Changes.AddedFilesAreMerged | flowgen/app/src/authoring.rs:904-935 | adding files changes the files, their issues and the version alone, each path holding what the merge leaves there |
| Changes.FilesRefusal | flowgen/app/src/authoring.rs:882-903 | refused files are told of the status, the proposer, the first bad path or the target, in this order |
| Changes.OutcomeSettles | flowgen/app/src/authoring.rs:1131-1149 | what a publisher records is the one record that is published with the returned object's fields, or none, when the flow succeeded, and failed for its reason with the result kept when it did not |
| WorkspacePaths.LocateReadsSegments | flowgen/app/src/authoring.rs:197-220 | a path is judged by its segments: the first names the kind, the last may not be empty, and the first empty, relative or otherwise spelled one is the problem |
| WorkspacePaths.LocatedPaths | flowgen/app/src/authoring.rs:197-220 | exactly `flows/` or `resources/` followed by named segments can be located |
| WorkspacePaths.WithinIsByWholeSegments | flowgen/core/src/identity.rs:64-70 | a path is within a folder, however many slashes it ends with, exactly when its segments start with the folder's; every path is within the empty folder |
| Changes.PublishingIsRetriedOnlyAfterTheTimeout | flowgen/app/src/authoring.rs:1026-1074 | an approved change can be approved again exactly on a pod that knows the timeout and once more than that has passed |
| ChangeStore.Store.Update | flowgen/core/src/cache.rs:144-167 | compare-and-swap: the record changes only over the expected revision, a delivered answer tells a mismatch apart, and an error may hide a write that applied |
| ChangeStore.Transition | flowgen/app/src/authoring.rs:658-668 | a revision mismatch is reported as concurrent, any other failure as a store error, and the store changes as `Update` says |
| ChangeStore.WithEdit | flowgen/app/src/authoring.rs:838-876 | the edit, step by step, makes the record `EditedRecord` specifies, or its error |
| ChangeStore.WithFiles | flowgen/app/src/authoring.rs:882-935 | adding files, step by step, makes the record `FilesAddedRecord` specifies, or its error |
| ChangeStore.Approve | flowgen/app/src/authoring.rs:1006-1029 | the approval, step by step, makes the record `ApprovedRecord` specifies, or its error |
| ChangeStore.Reject | flowgen/app/src/authoring.rs:1183-1202 | the rejection, step by step, makes the record `RejectedRecord` specifies, or its error |
| ChangeStore.EditChange | flowgen/app/src/authoring.rs:856-880 | the handler leaves in the store what its load step and its update step of the lifecycle leave, and answers not found, the refusal, the record written or a store error accordingly |
| ChangeStore.AddChangeFiles | flowgen/app/src/authoring.rs:882-938 | the same for adding files, a missing change included |
| ChangeStore.ApproveChange | flowgen/app/src/authoring.rs:999-1030 | the same for an approval, a missing change included; on success the publisher gets exactly the stored record and revision |
| ChangeStore.RejectChange | flowgen/app/src/authoring.rs:1176-1205 | the same for a rejection, a missing change included |
| ChangeStore.RecordOnce | flowgen/app/src/authoring.rs:1151-1160 | in whatever state others left the store, one attempt to record an outcome is one update step of the publisher's session, which goes on exactly when the attempt is repeated |
| ChangeStore.Record | flowgen/app/src/authoring.rs:1150-1161 | the retry loop leaves what the session's update steps leave; a write over the approval happens at most once, and not at all only if every attempt failed before applying |
| ChangeStore.Publish | flowgen/app/src/authoring.rs:1124-1173 | the publisher leaves what its session's steps leave, from the flow's return through every attempt, and succeeds exactly when the session is over; its record is published exactly when the flow succeeded, with the returned fields or none, and failed for the flow's reason otherwise; it is written at most once, only over the revision given |
| Lifecycle.ProposalStartsAHistory | flowgen/app/src/authoring.rs:757-800 | a proposal is stored pending, dated, with distinct paths and the issues of exactly its files |
| Lifecycle.RequestFollows | flowgen/app/src/authoring.rs:856-1029 | what a handler writes differs from what it loaded only in the fields its kind of request may change |
| Lifecycle.OutcomeFollows | flowgen/app/src/authoring.rs:1131-1149 | a publisher's record settles its approval: published exactly when the flow succeeded, failed with its reason otherwise, and nothing else changed |
| Lifecycle.UpdateKeepsInv | flowgen/app/src/authoring.rs:658-668 | an update, applied or not, answered or not, keeps every record's history one that the handlers could have written |
| Lifecycle.NextKeepsInv | flowgen/app/src/authoring.rs:757-1205 | every step of every actor keeps the invariant |
| Lifecycle.ReachableInv | flowgen/app/src/authoring.rs:757-1205 | the invariant holds after every interleaving, from any store content |
| LifecycleSafety.OutcomeLandsOnItsOwnApproval | flowgen/app/src/authoring.rs:1124-1172 | a publish outcome is stored only directly over the Publishing record its own approval wrote, changing only status, result and error, as the flow's return says |
| LifecycleSafety.OneOutcomePerApproval | flowgen/app/src/authoring.rs:1151-1172 | retries after lost replies never store a second outcome of one approval |
| LifecycleSafety.SupersededPublisherNeverLands | flowgen/app/src/authoring.rs:1124-1172 | once anything else is written over an approval, its outcome is never stored in any continuation |
| LifecycleSafety.DecidedContentIsFrozen | flowgen/app/src/authoring.rs:838-853 | once a record is not pending no later record is, and title, description, files, target and issues stay |
| LifecycleSafety.ApprovedContentNeverChanges | flowgen/app/src/authoring.rs:838-1036 | from an approval on, every later record in every run has the approved content and no issue |
| LifecycleSafety.EveryAttemptPublishesTheApprovedContent | flowgen/app/src/authoring.rs:1076-1097 | every publisher at work calls the flow with the id, target, title and files of each approval the change ever had |
| LifecycleSafety.TerminalRecordsStay | flowgen/app/src/authoring.rs:1046-1061 | a published or rejected record is never written again, whoever is still at work on it |
| LifecycleSafety.PublishedOnlyThroughApproval | flowgen/app/src/authoring.rs:1124-1172 | a proposed change is published only by the outcome of an approval |
| LifecycleSafety.EditsMoveTheVersion | flowgen/app/src/authoring.rs:829-835 | between two records either nothing a reviewer reads changed and nobody edited, or the version moved strictly forward |
| LifecycleSafety.SameVersionSameContent | flowgen/app/src/authoring.rs:829-835 | two records carry one `updated_at` exactly when nobody edited between them, and then have the same content |
| LifecycleSafety.ApprovalIsOfTheReviewedContent | flowgen/app/src/authoring.rs:1015-1020 | every stored approval that named the version it reviewed has exactly the content of every record of that version |
| LifecycleSafety.AcceptedApprovalIsOfTheReviewedContent | flowgen/app/src/authoring.rs:1015-1020 | already the record an accepted approval is about to write has the content of the version it names |
| LifecycleSafety.ApprovedFilesAreValid | flowgen/app/src/authoring.rs:1021-1024 | every stored record lists each path once, and an approved record of a proposed change passes validation |
| LifecycleSafety.RecordedBasesStay | flowgen/app/src/authoring.rs:904-925 | the base recorded for a file stays in every later record |
| PublishRuns.PublishedIsWhatAFlowReturned | flowgen/app/src/authoring.rs:1124-1172 | in every run a stored outcome goes back to a moment a flow returned to a publisher holding the very record its approval stored, and it is published exactly when that flow succeeded |
| PublishRuns.StoredApprovalCallsItsFlow | flowgen/app/src/authoring.rs:1026-1036 | an approval written over the record it was computed from is stored, and once answered its publisher calls with that record and revision |
| PublishRuns.UndisturbedApprovalIsPublished | flowgen/app/src/authoring.rs:999-1173 | an accepted approval nobody disturbs ends in a record settled by what the flow returned, published exactly when it succeeded |
| PublishRuns.AcceptedProposalCanBePublished | flowgen/app/src/authoring.rs:757-1173 | from any moment on, an accepted proposal without issues is published, with the files proposed, by the run in which someone its owner names approves it |
| PublishRuns.SomeRunPublishes | flowgen/app/src/authoring.rs:757-1173 | such a run exists from an empty store |
| PublishRuns.PublishersRetryUntilAnswered | flowgen/app/src/authoring.rs:1150-1172 | a publisher repeats its write until it is answered and is through then, first or not |
| PublishRuns.StoppedActorsAreGone | flowgen/app/src/authoring.rs:1032-1036 | whoever stops changes nothing and never writes again |
| StableSort.SortIsStable | flowgen/app/src/authoring.rs:367 | the sort orders by key, keeps every element, and keeps elements of one key in their order |
| StableSort.StableSortIsUnique | flowgen/app/src/authoring.rs:367 | two ordered lists that agree key by key are equal, so a stable sort has one result |
| PublishedHistory.ApplyPublished | flowgen/app/src/authoring.rs:397-417 | the backward search and the loop compute the replay from the newest version that runs |
| PublishedHistory.ApplyReachesAFixedPoint | flowgen/app/src/authoring.rs:397-417 | for any running content and any versions, replaying onto the result gives the result and no pending change |
| PublishedHistory.ChainPendsEverythingNewer | flowgen/app/src/authoring.rs:397-417 | when each version is based on the one before, the base is the last version's content and exactly the versions after the newest match are pending |
| PublishedHistory.SameContentIgnoresTheTail | flowgen/app/src/authoring.rs:344-350 | two contents match exactly when both are missing or they differ in trailing white space alone |
| PublishedHistory.IndexFiles | flowgen/app/src/authoring.rs:369-374 | the inner loop appends each file of a change to its path's versions and touches no other path |
| PublishedHistory.IndexPublished | flowgen/app/src/authoring.rs:356-376 | each path holds its versions of all published changes, oldest decision first |
| PublishedHistory.DecidedIsOldestFirst | flowgen/app/src/authoring.rs:359-367 | published changes are in order of decision, by creation where no date is recorded, ties as listed, and none is lost |
| PublishedHistory.VersionsComeFromChanges | flowgen/app/src/authoring.rs:369-374 | the versions of a path are exactly the files the published changes hold there, each with its content over its base |
| PublishedHistory.VersionsInOrder | flowgen/app/src/authoring.rs:369-374 | the versions of a path are in the order of the changes |
| PublishedHistory.PublishedInOrder | flowgen/app/src/authoring.rs:357-360 | filtering keeps the order of the changes |
| PublishedHistory.DeploymentOf | flowgen/app/src/authoring.rs:439-480 | for published changes of a target of that name that is followed: waiting exactly when a file pends and all files up to it can be read, deployed exactly when none pends and all can be read |
| PublishedHistory.RunningChangeIsNeverWaiting | flowgen/app/src/authoring.rs:397-480 | in any history no file of a change whose files all match what runs is pending |
| PublishedHistory.RunningFileIsNotPending | flowgen/app/src/authoring.rs:232-480 | for a change listing each path once, any single file that matches what runs is not pending |
| PublishedReads.PublishedReadsAgree | flowgen/app/src/authoring.rs:378-391 | two published records of one id, read from the store at any two moments of any run, are the same record |
| PublishedReads.RunningFileOfAReadChangeIsNotPending | flowgen/app/src/authoring.rs:378-480 | with the changes read one by one during any run, no file of a published change that matches what runs is pending |
| WaitingChanges.FilePendsExactlyWhenNewer | flowgen/app/src/authoring.rs:397-475 | in a history where each version builds on the one before, a file pends exactly when what runs belongs to the history and is older than a version of the change |
| WaitingChanges.NewerChangeIsWaiting | flowgen/app/src/authoring.rs:356-475 | a published change whose versions of a path are all newer than what runs there, in a chained history, pends there |
| TaskGraph.ResolveParents | flowgen/app/src/flow.rs:109-153 | the two loops compute the specified resolution or its error |
| TaskGraph.ResolveIsCorrect | flowgen/app/src/flow.rs:109-153 | resolution succeeds exactly when names are distinct and every dependency names an earlier task; it is then the only one where named parents are as listed and implicit ones the nearest pipeline task |
| TaskGraph.RefusalNamesTheFirst | flowgen/app/src/flow.rs:119-145 | a list with distinct names is refused for the first dependency no earlier task has: unknown exactly when no task has it, and later exactly when one does |
| TaskGraph.RefusalNamesTheDuplicate | flowgen/app/src/flow.rs:109-118 | a list with a repeated name is refused for the first task that repeats an earlier name |
| TaskGraph.ResolutionsAreTopological | flowgen/app/src/flow.rs:109-153 | every resolved parent comes before its child |
| DependencyPaths.ChildOf | flowgen/app/src/flow.rs:307-316 | a task is a child of another exactly when that one is its parent, and then comes later |
| DependencyPaths.PathsForward | flowgen/app/src/flow.rs:307-316 | counting paths from their start or from their end gives the same number |
| DependencyPaths.PathCountCountsPaths | flowgen/app/src/flow.rs:307-316 | the count is the size of a list of all paths, each once, where a repeated dependency is two edges |
| Wiring.LeavesThroughChildren | flowgen/app/src/flow.rs:375-397 | the leaves of a task are itself when it has no child and otherwise the union of its children's |
| Wiring.BuildLinear | flowgen/app/src/flow.rs:251-290 | the linear builder joins each task to the next and counts one leaf |
| Wiring.GroupChildren | flowgen/app/src/flow.rs:307-316 | the grouping loop gives each task its children in order, repeated names counted twice |
| Wiring.CreateInbound | flowgen/app/src/flow.rs:323-334 | exactly the tasks with parents get an inbound channel, each its own |
| Wiring.WireOutputs | flowgen/app/src/flow.rs:341-369 | in whatever order parents are visited, each sends to nobody, to its only child, or to a dispatcher of its own over all its children |
| Wiring.CountLeaves | flowgen/app/src/flow.rs:375-397 | the reverse pass counts the distinct leaves reachable over dependency paths |
| Wiring.EveryTaskAwaitsALeaf | flowgen/app/src/flow.rs:375-397 | every task has at least one leaf downstream |
| Wiring.BuildDag | flowgen/app/src/flow.rs:303-414 | the general builder accepts what resolution accepts, with the same errors, and wires it |
| Wiring.Build | flowgen/app/src/flow.rs:231-248 | without `depends_on` and with pipeline tasks only the linear registry is built, whatever the names; otherwise resolution decides, and a resolvable list comes out wired |
| Wiring.LinearMeansTheSame | flowgen/app/src/flow.rs:231-290 | without `depends_on` and with pipeline tasks only, a registry is wired over distinct names exactly when it is the linear one, channel for channel |
| EventFlow.DeliverSpends | flowgen/app/src/flow.rs:958-968 | each delivery, by a task or a dispatcher, leaves the sum over copies in flight and receptions unchanged |
| EventFlow.PathsAreConserved | flowgen/app/src/flow.rs:307-373 | at every moment of every schedule, what a task received plus what the copies in flight will bring is its number of dependency paths |
| EventFlow.EachDeliveryIsProgress | flowgen/app/src/flow.rs:958-968 | the deliveries left are a number fixed by the graph that each delivery lowers by one |
| EventFlow.DeliveredOncePerPath | flowgen/app/src/flow.rs:307-373 | when nothing is in flight each task received the event exactly once per dependency path, after a number of deliveries fixed by the graph |
| Erasure.ErasingKeepsParents | flowgen/app/src/flow.rs:119-150 | without a registration-only task nobody names, resolution succeeds as before and every other task has the same parents, renumbered |
| Erasure.ErasingKeepsLeaves | flowgen/app/src/flow.rs:375-397 | every other task keeps its leaves, renumbered, and their number |
| Erasure.ErasingKeepsTheRegistry | flowgen/app/src/flow.rs:303-397 | in wired registries the task has no channel and every other task expects as many leaves as before |
| FanOut.Retain | flowgen/app/src/flow.rs:960 | exactly the open branches stay |
| FanOut.Dispatch | flowgen/app/src/flow.rs:958-968 | each branch gets every event, in order, up to where it is found closed, whatever the others do; the dispatcher stops only once all closed |
| Leadership.Drain | flowgen/app/src/flow.rs:774-779 | the drain hears every message up to and including the first that is not `Leader`, or until the channel is empty, then spawns; what spawning means is `Grants.GrantsStartTheTasks` |
| Leadership.AwaitLeadership | flowgen/app/src/flow.rs:767-804 | the wait ends with a grant and a spawn, or with the channel closed |
| Leadership.StopTenure | flowgen/app/src/flow.rs:857-863 | the token is cancelled and every handle aborted |
| Leadership.AwaitTasks | flowgen/app/src/flow.rs:851-890 | the select ends with the tenure stopped after `NotLeader`, or with all tasks complete |
| Leadership.MonitorTasks | flowgen/app/src/flow.rs:740-952 | the nested loops do, signal by signal, what the step function does, whose grants, losses and ends `Grants` and `Tenures` characterise |
| Tenures.RespawnsFollowAFullStop | flowgen/app/src/flow.rs:851-941 | between two spawns the earlier tenure was cancelled, all its handles were aborted, and a `Leader` or `NoElection` was heard after that |
| Tenures.AtMostOneTenureRuns | flowgen/app/src/flow.rs:765-941 | at no moment of any run are two tenures uncancelled |
| Tenures.RunsWithoutLeadershipExactlyWhenSwallowed | flowgen/app/src/flow.rs:774-779 | tasks run after a last `NotLeader` if and only if that message ended a drain, its tenure could be spawned with a task, and the tasks are not done since |
| Tenures.SwallowedLossStartsTasks | flowgen/app/src/flow.rs:774-849 | a `NotLeader` that ends a drain, no message following, leaves tasks running until they are done, or the monitor gone when its tenure could not start |
| Tenures.LossBehindAGrantStartsTasks | flowgen/app/src/flow.rs:774-779 | a `NotLeader` waiting behind a `Leader` does start the tasks |
| Tenures.HeardIsTheFeed | flowgen/app/src/flow.rs:765-941 | the monitor hears every message in order until it leaves |
| Grants.GrantsStartTheTasks | flowgen/app/src/flow.rs:765-835 | a `Leader` heard while waiting, any duplicates and then any other signal, an empty channel included, or a `NoElection`, spawns the tenure: all tasks, times `parallel_instances` in the first one, or the monitor fails because they cannot be spawned |
| Grants.WaitsWithoutAGrant | flowgen/app/src/flow.rs:795-804 | without a grant a waiting monitor goes on waiting |
| Grants.RunningUntilLostOrDone | flowgen/app/src/flow.rs:851-890 | running tasks go on until `NotLeader`, which cancels the token and aborts every handle in order, or until all are done, which ends the monitor |
| Grants.PauseLeavesNoDrain | flowgen/app/src/flow.rs:774-779 | once the channel was found empty, a monitor last granted leadership runs its tasks or has left |
| Grants.LeadershipDecides | flowgen/app/src/flow.rs:765-941 | of tasks that can be spawned and do not complete, once the channel was found empty: they run if and only if leadership was last granted or its loss was swallowed, and otherwise the monitor waits |
| Grants.EveryTenureEnds | flowgen/app/src/flow.rs:851-952 | when the channel closes the monitor leaves, and every tenure ever spawned was cancelled or completed |
| Grants.FailsOnlyToSpawn | flowgen/app/src/flow.rs:820-849 | the monitor fails only when a tenure cannot be spawned, and every earlier one was |
| Grants.ClosingEndsADrain | flowgen/app/src/flow.rs:774-849 | a grant whose drain ends with the channel still spawns its tasks, and they are waited for |
| ClientRegistry.Registry.GetOrInit | flowgen/core/src/client_registry.rs:145-203 | undisturbed: a stored client is returned exactly when it has the type asked for, with a mismatch otherwise, and nothing changes; a failed init stores nothing and keeps its guard; a success is stored, returned and drops its guard |
| ClientRegistry.Registry.Remove | flowgen/core/src/client_registry.rs:214-224 | client and guard are both gone, and whether there was a client is reported |
| ClientRegistry.RunKeepsInv | flowgen/core/src/client_registry.rs:145-203 | without `remove`, until a client is stored everyone with a guard for its key has the current one, in every interleaving |
| ClientRegistry.OneInitAtATime | flowgen/core/src/client_registry.rs:166-199 | for each key at most one caller runs its closure or holds an unstored client, and none once one is stored |
| ClientRegistry.EveryoneGetsTheStoredClient | flowgen/core/src/client_registry.rs:145-203 | every caller that succeeds got the client stored for its key |
| ClientRegistry.GotTheTypeAskedFor | flowgen/core/src/client_registry.rs:158-187 | in every run, `remove` included, whoever succeeds got a client of the type it asked for |
| ClientRegistry.FinishedCallersAreServed | flowgen/core/src/client_registry.rs:158-187 | without `remove`, whoever finishes without its own closure failing got the stored client exactly when the types agree, and a mismatch exactly when they do not |
| ClientRegistry.StoredKeysAreServed | flowgen/core/src/client_registry.rs:155-182 | a caller that starts while its key has a client never runs its closure and finishes with that client, or with a mismatch exactly when the types differ, whatever the others do |
| ClientRegistry.DroppedCallersLetGo | flowgen/core/src/client_registry.rs:166-203 | a dropped caller leaves no guard locked and changes nothing else |
| ClientRegistry.StoredClientStays | flowgen/core/src/client_registry.rs:184-187 | without `remove` a stored client stays in every continuation |
| ClientRegistry.NoOrphanedGuard | flowgen/core/src/client_registry.rs:166-199 | whoever waits on a held guard waits for another caller that can take a step |
| ClientRegistry.InitSucceedsOnce | flowgen/core/src/client_registry.rs:145-203 | per key init succeeds at most once more than callers were dropped between their closure and the store |
| ClientRegistry.UndisturbedCallIsGetOrInit | flowgen/core/src/client_registry.rs:145-203 | a caller nobody disturbs ends, and leaves clients and guards, as the object's `GetOrInit` promises |
| ClientRegistry.DroppedClientIsOpenedAgain | flowgen/core/src/client_registry.rs:180-187 | one dropped caller is enough for a second success |
| ClientRegistry.RemoveAllowsTwoInitsAtATime | flowgen/core/src/client_registry.rs:214-224 | with `remove` two callers can run init for one key at once |
| ClientKeys.KeyBuilder.Build | flowgen/core/src/client_registry.rs:87-97 | the hashed image has the fields sorted by name |
| ClientKeys.SameKeyMeansSameFields | flowgen/core/src/client_registry.rs:80-97 | two builders hash the same image exactly when each name has the same values in the same order |
| ClientKeys.OrderOfFieldsDoesNotMatter | flowgen/core/src/client_registry.rs:52-97 | with unique names the order of `field` calls does not matter |
| Toolsets.CheckCurrent | flowgen/ai-agent/src/completion.rs:613-633 | current exactly when every connection carries the header it would get now: the user's token, what its OAuth credentials give, or its static one |
| Toolsets.CurrentExactly | flowgen/ai-agent/src/completion.rs:613-644 | a rotated OAuth header or another token makes a toolset stale; the first stale connection decides whether the check fails, because nobody signed in or credentials failed, or says no |
| Toolsets.FreshExactlyWhenUpToDate | flowgen/ai-agent/src/completion.rs:1052-1061 | a slot gives the toolset it holds exactly when each connection of it is up to date |
| Toolsets.NeverCurrentForAnotherToken | flowgen/ai-agent/src/completion.rs:613-644 | a toolset acting for a user is never current for a token it was not opened with |
| Toolsets.CurrentForExactlyItsToken | flowgen/ai-agent/src/completion.rs:613-644 | with no other rotating header it is current for exactly its own token, and the check cannot fail |
| Toolsets.ToolsetSlot.Fresh | flowgen/ai-agent/src/completion.rs:1052-1061 | the slot's toolset is given exactly when all its connections are up to date |
| Toolsets.ToolsetSlot.Reopen | flowgen/ai-agent/src/completion.rs:1030-1050 | a current toolset is kept, otherwise a new one replaces it only when the connect succeeds |
| Toolsets.UserToolsets.SlotOf | flowgen/ai-agent/src/completion.rs:1107-1116 | a user keeps one slot, made on first use, and is marked used now |
| Toolsets.UserToolsets.CloseIdle | flowgen/ai-agent/src/completion.rs:1121-1126 | exactly the users seen within half an hour stay, each with its slot |
| Toolsets.SeenLatelyStays | flowgen/ai-agent/src/completion.rs:1121-1126 | a sweep keeps exactly the users seen within half an hour, as they were |
| ToolsetSharing.NextKeepsInv | flowgen/ai-agent/src/completion.rs:1030-1126 | every step keeps each caller in a slot of its own user and each slot's lock with the one caller inside it |
| ToolsetSharing.TokensComeFromEvents | flowgen/ai-agent/src/completion.rs:1095-1106 | every caller and every token brought to a slot goes back to an event of that user |
| ToolsetSharing.UsersNeverShareToolsets | flowgen/ai-agent/src/completion.rs:1084-1127 | a served caller's toolset carries its own token, and a user's slot only holds toolsets opened with tokens of that user's events, sweeps included |
| ToolsetSharing.OneTokenOpensOnce | flowgen/ai-agent/src/completion.rs:1030-1062 | in a slot asked with one token, the successful connects are exactly the one whose toolset is held or about to be stored, if any, and those dropped before storing; everybody served got the one stored toolset |
| ToolsetSharing.DroppedConnectIsOpenedAgain | flowgen/ai-agent/src/completion.rs:1047-1049 | a caller dropped between connect and store leaves the next one to open again |
| ToolsetCalls.UndisturbedCallerIsServed | flowgen/ai-agent/src/completion.rs:1030-1118 | a caller nobody disturbs is marked as its user's latest, gets the slot's toolset while that is up to date and otherwise what its connect opens, which the slot then holds; it fails when a header or the connect fails, and leaves no lock |
| ToolsetCalls.WaitingCallerIsServed | flowgen/ai-agent/src/completion.rs:1041-1044 | a caller that waited for the lock gets what was stored meanwhile, while it is up to date, without connecting |
| ToolsetCalls.DroppedCallersLetGo | flowgen/ai-agent/src/completion.rs:1030-1050 | a dropped caller leaves no lock and changes nothing else |
| ToolsetCalls.SweptUsersStartAnew | flowgen/ai-agent/src/completion.rs:1121-1126 | a sweep forgets exactly the users not seen for half an hour, whose next caller gets a new slot; slots, callers and locks stay |
| CookieKey.DecodesToItself | flowgen/app/src/login.rs:92-106 | a generated key, stored and read back, is that key |
| CookieKey.DecodeTakesTheFirst | flowgen/app/src/login.rs:114-128 | reading a stored key takes its first 64 bytes and refuses fewer, saying how many there were |
| CookieKey.KeyCache.SharedCookieKey | flowgen/app/src/login.rs:85-112 | alone, a pod returns what the store then holds, and never replaces a stored key |
| CookieKey.Setup | flowgen/app/src/login.rs:61-83 | a secret of 32 bytes or more wins and leaves the cache alone; otherwise the shared key, otherwise one of this process |
| CookieKey.PodsAgreeOnTheStoredKey | flowgen/app/src/login.rs:85-128 | in every interleaving without a delete, every pod that got a key got the stored one, none found it vanished, and only a key too short from the start is refused |
| CookieKey.BootOnStoredKey | flowgen/app/src/login.rs:85-90 | a pod that starts on a stored key takes it as it is and leaves it alone |
| CookieKey.RacingPodsAgree | flowgen/app/src/login.rs:91-112 | of two pods that found no key the first create wins and the other reads that key back |
| CookieKey.FailuresOfOnePod | flowgen/app/src/login.rs:85-112 | a failing cache, missing randomness and a vanished key are told apart, and a create whose answer is lost still stores its key |
| CookieKey.DeletingSplitsPods | flowgen/app/src/login.rs:85-128 | with a delete two pods can end with different keys |
| Reconciler.KeyOfFlow | flowgen/app/src/reconciler.rs:520-535 | a cache key names a flow exactly when it is the prefix, a dot and that flow's name |
| Reconciler.LastPerKeyIsTheLast | flowgen/app/src/reconciler.rs:238-246 | what a batch keeps for a key is its last event of that key |
| Reconciler.Reconciler.ReconcilePut | flowgen/app/src/reconciler.rs:262-438 | an unchanged or refused source leaves the running flow; otherwise it is stopped, and replaced if the new one starts |
| Reconciler.Reconciler.ReconcileDelete | flowgen/app/src/reconciler.rs:451-468 | the flow is stopped and removed, unless the filesystem owns it |
| Reconciler.Reconciler.ReconcileBatch | flowgen/app/src/reconciler.rs:238-254 | the batch is reduced to one event per key and applied in some order |
| Reconciler.Reconciler.CollectBatch | flowgen/app/src/reconciler.rs:203-231 | the loop collects the first batch of the specification, which `BatchCollection.FirstBatchIsTheFirstRun` gives by positions in the feed |
| Reconciler.Reconciler.Run | flowgen/app/src/reconciler.rs:132-147 | the loop applies the feed's batches one after the other, each in an order of its own |
| ReconcileBatches.FlowsAreIndependent | flowgen/app/src/reconciler.rs:262-513 | a flow sees only the events of its own key |
| ReconcileBatches.OrderMeetsTheLast | flowgen/app/src/reconciler.rs:238-254 | in whatever order a batch is applied, each flow sees the last of its events and no other |
| ReconcileBatches.BatchAgreesExactlyWhenHarmless | flowgen/app/src/reconciler.rs:238-306 | from every registry of started flows a batch leaves the flows that its events one by one leave, if and only if for each flow the last event is not refused, or all are, or the flow can never run; otherwise a registry reached by at most one put differs |
| ReconcileBatches.EventsKeepOnlyStarted | flowgen/app/src/reconciler.rs:262-438 | outside the filesystem no event ever leaves a flow registered whose source does not run |
| ReconcileBatches.BatchingIsInvisible | flowgen/app/src/reconciler.rs:203-306 | when every put runs, any batching in any order leaves the flows that one event at a time leaves |
| ReconcileBatches.BatchesAgree | flowgen/app/src/reconciler.rs:203-306 | any number of harmless batches from started flows, or batches whose last events decide from any registry, leave what one event at a time leaves |
| ReconcileBatches.BrokenPutHidesAGoodOne | flowgen/app/src/reconciler.rs:262-343 | a refused put behind a good one in a batch keeps the good one from starting |
| ReconcileBatches.OneEventOnItsFlow | flowgen/app/src/reconciler.rs:262-468 | on a flow outside the filesystem a delete takes the flow down; an unchanged source that still runs or a refused one changes nothing; one that fails to start takes the old flow down; any other replaces it, cancelling the old handle |
| ReconcileBatches.OtherEventsDoNothing | flowgen/app/src/reconciler.rs:262-299 | an event of a filesystem flow, or of a key that names no flow, changes nothing |
| ReconcileBatches.LastEventDecides | flowgen/app/src/reconciler.rs:262-468 | whatever came before, a flow whose last event is a delete is gone, and one whose last event puts a source that runs, runs it |
| BatchCollection.FirstBatchIsTheFirstRun | flowgen/app/src/reconciler.rs:203-231 | the first batch is the events arriving in a row, up to the first timer after them or the closed channel; timers before the first event end nothing, and a shutdown drops what was collected |
| BatchCollection.TimerEndsTheBatch | flowgen/app/src/reconciler.rs:213-231 | events and then a timer are a batch, whatever follows |
| BatchCollection.BatchesAreRuns | flowgen/app/src/reconciler.rs:132-231 | every batch is a run of events between timers, before any shutdown |
| BatchCollection.RunsAreBatches | flowgen/app/src/reconciler.rs:132-231 | every run of events between timers, before any shutdown, is a batch |
| BatchCollection.BatchesAreWhatWasHeard | flowgen/app/src/reconciler.rs:132-231 | the batches together are, in order, exactly the events up to the last timer before a shutdown, and all events when nothing shuts down |
| BatchCollection.EventsBeforeATimerAreApplied | flowgen/app/src/reconciler.rs:203-231 | an event with a timer behind it and no shutdown up to there is in a batch |
| BatchCollection.TheLoopAppliesWhatItHears | flowgen/app/src/reconciler.rs:132-254 | the whole loop over any feed, when every put runs or every batch is harmless, leaves what the events it flushed leave one by one |
| ReconcileBatches.FilesystemHandlesStay | flowgen/app/src/reconciler.rs:292-299 | flows loaded from the filesystem are never started, stopped or replaced, in batches or not |
| ReconcileBatches.BatchesConserveHandles | flowgen/app/src/reconciler.rs:308-513 | every started flow is registered under one name or was cancelled once, and not both |

## Left out

- YAML, JSON and Rhai parsing, flow validation, diff text, commit authors: validation is the uninterpreted function `Rules`, the others do not reach the properties.
- HTTP routing, OIDC login, sessions and cookies, SSE, static assets, provider enums, task configuration structs: plumbing around unmodelled libraries.
- NATS, the lease executor, the peer registry and the task manager: only the cache contract and an arbitrary stream of leadership messages are modelled.
- `SingleFlight` for session refreshes has the shape of the once-only protocols above; `cleanup_stale_cache_entries` and `TaskRegistry::partition` would only add easy members.
- Flows without leader election in `monitor_tasks`: the monitor only waits for their tasks.
- Backpressure and channel capacity: a delivery in `EventFlow` may always happen, in any order.
- Wall-clock time, 64-bit overflow of timestamps and revisions: clocks are arbitrary integers.
- Poisoned registry locks, and what servers a stopped flow was registered with.
- The wait for a stopped flow: it times out, so nothing says the old flow ended before the new one starts.
- Strings are sequences of characters; byte lengths of non-ASCII text are not modelled.
- A corrupt or unreadable stored record, and ids that are not well formed, answered before the handlers start.
- Setup: the derivation of a key from a configured secret is a parameter.
- ReconcilePut: a flow's own end is part of the registry it starts from; flows that finish between two events of one batch are not interleaved.
