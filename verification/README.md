# Workduck protocol models

Dafny models of the small protocols in Workduck's Rust backend that carry real state, with proofs of what
they promise. `dafny verify dfyconfig.toml` checks the whole project.

| file | what it models |
|---|---|
| `ScaffoldModel.dfy`, `ScaffoldCrash.dfy`, `ScaffoldTransaction.dfy`, `ScaffoldPlanning.dfy` | the repository scaffold: planning, journal, exclusive creation, manifest commit, rollback and crash recovery |
| `InspectionCoalescing.dfy` | concurrent inspections of one repository that share a result |
| `RemoteUrlCache.dfy` | the cache of remote URLs under concurrent edits of the configuration |
| `TaskRuns.dfy`, `TaskRunRecordCache.dfy`, `TaskRunHistory.dfy`, `TaskRunSummary.dfy` | task run records: the newest of each repository, the directory cache, reading by id, the budgeted summary |
| `ProcessTree.dfy` | the walk over process parents |
| `QueueLimits.dfy` | provider and global permits |
| `QueueConfirmation.dfy` | previews, limits, estimate and the confirmation token |
| `QueueExecutions.dfy`, `QueueExecutionLoop.dfy` | the registry of running executions, and one execution |
| `Timestamps.dfy`, `StateStores.dfy` | settings and project registries |
| `ChildOutput.dfy` | waiting for a child process with bounded output |
| `RunPublication.dfy` | the script that runs tracked commands and publishes records |
| `Prelude.dfy`, `Texts.dfy`, `TextOrder.dfy` | shared datatypes, trimming and lower case, text order |

Code that changes things step by step is a method over fields or loop variables, proved against a function
or a predicate whose properties are lemmas. Other programs and threads appear as an `Interfere` or
`OthersAct` step between any two steps of a method, or as actions of a state machine whose runs are
quantified over. Constants such as `quiet`, `alone` and `reliable` switch interference and failing system
calls off, so that one program text carries the results for each situation: what holds whatever others do, what holds
undisturbed, and that a call succeeds when nothing stands in its way.

SHA-256 is a function that tells texts apart, JSON printing is read back by JSON reading, and file stamps
that could be read do not come back once the file has changed. Each SQLite transaction is one step.

Where the code does less than one might expect, a lemma shows the case and another says exactly when all is
well: `RemoteUrlCache.AbsenceComesBack` with `HitIsExactIff`, `TaskRunSummary.TwentyLongRunsNeverComplete`
with `CompleteSoonOrNever`, `TaskRunRecordCache.RewrittenOlderRun` with `FastPathIsRightIff`. That batches
commute, and that a first manifest passes its own check, holds on exact conditions too:
`StateStores.CommuteIff` and `ScaffoldModel.FreshManifestCompatibleIff`.

Objects of the environment (pipes, a child, a clock, the runs of an execution, the disk) remember what the
program did with them or saw of them, and contracts speak about that memory.

## Model

| member | source | states |
|---|---|---|
| `ScaffoldCrash.RecoverySettles` | src-tauri/src/project_folder_scaffold.rs:753-793 | Every disk a transaction may leave when it stops is turned by recovery into one that is exactly as before or fully applied, without a journal. |
| `ScaffoldCrash.MarkerIsRight` | src-tauri/src/project_folder_scaffold.rs:764-778 | The manifest checksum in the journal can be trusted as commit marker: seen committed, every file is there; seen uncommitted, the manifest is the old one. |
| `ScaffoldCrash.RecoveryRestarts` | src-tauri/src/project_folder_scaffold.rs:753-793 | After any single write of recovery, running it again from there leads to the same disk. |
| `ScaffoldCrash.RecoveryKeepsMidway` | src-tauri/src/project_folder_scaffold.rs:753-793 | A crash inside recovery leaves a disk the transaction itself could have left. |
| `ScaffoldCrash.InterruptedRecoveriesSettle` | src-tauri/src/project_folder_scaffold.rs:753-793 | Any number of interrupted recoveries: each disk on the way is recoverable to the same result, each write brings the end one file nearer, and a disk with nothing left to do is settled. |
| `ScaffoldCrash.MidwayRemovable` | src-tauri/src/project_folder_scaffold.rs:780-817 | On a disk of an interrupted transaction the journal entries that may be removed are exactly the files that transaction created. |
| `ScaffoldCrash.SameManifestWouldBreakRecovery` | src-tauri/src/project_folder_scaffold.rs:171-178 | Were a transaction to create files and publish the manifest it found, a crash halfway would be settled neither way: the rule that managed, deleted files are conflicts is needed. |
| `ScaffoldTransaction.ManifestChanges` | src-tauri/src/project_folder_scaffold.rs:171-178 | A transaction that creates at least one file always publishes a manifest different from the one it found. |
| `ScaffoldTransaction.TransactionIsSound` | src-tauri/src/project_folder_scaffold.rs:225-285 | The planning and rechecking steps establish all that crash recovery relies on: usable, distinct, absent targets, clear parents, no journal, a new manifest. |
| `ScaffoldTransaction.HarmlessMeansOwnContent` | src-tauri/src/project_folder_scaffold.rs:795-817 | A file that a write of this program removed or changed held exactly the scaffold's content for that path. |
| `ScaffoldTransaction.RecoveredIsOwn` | src-tauri/src/project_folder_scaffold.rs:753-817 | When the journal on disk is the one of a transaction and others leave it alone, all that recovery removes held the transaction's own content. |
| `ScaffoldTransaction.CallIsAChain` | src-tauri/src/project_folder_scaffold.rs:268-338 | Undisturbed, the recorded writes of a call lead from the disk it found to the disk it leaves, each from where the one before it stopped, so a crash at any point leaves a recorded disk. |
| `ScaffoldTransaction.Repository.WriteExclusively` | src-tauri/src/atomic_file_write.rs:29-39 | One write creates a file where nothing was; an entry that exists in that moment is never replaced; alone and with working system calls it succeeds on a free path. |
| `ScaffoldTransaction.Repository.WriteAtomically` | src-tauri/src/atomic_file_write.rs:41-53 | One write gives the file its whole new text; links and directories are refused; alone and with working system calls it succeeds on everything else. |
| `ScaffoldTransaction.Repository.CreateParents` | src-tauri/src/project_folder_scaffold.rs:407-445 | Adds nothing but missing directories above the path; every directory it reports it made, and undisturbed it reports every one it made; alone and with working system calls it succeeds where only directories are above. |
| `ScaffoldTransaction.Repository.ReadManifest` | src-tauri/src/project_folder_scaffold.rs:641-658 | The manifest text, its absence, or a conflict when something else stands in its place. |
| `ScaffoldTransaction.Repository.WriteManifest` | src-tauri/src/project_folder_scaffold.rs:604-639 | Undisturbed: the manifest becomes the content, if it was the expected one; with others around no other file is touched and an unexpected manifest is kept. |
| `ScaffoldTransaction.Repository.RemoveUnmodified` | src-tauri/src/project_folder_scaffold.rs:795-817 | Removes a file only if it has the journalled checksum in that moment, at a path a scaffold may use above which only directories were seen during the call; undisturbed, no match is left after success. |
| `ScaffoldTransaction.Repository.UndoDirectory` | src-tauri/src/project_folder_scaffold.rs:832-857 | Asked only for directories this program made, it removes one only if it is empty and nothing but directories is above it. |
| `ScaffoldTransaction.Repository.Rollback` | src-tauri/src/project_folder_scaffold.rs:819-857 | With others around only unmodified files of the created prefix and empty directories this program made go; undisturbed every write leaves a recoverable disk, and success leaves none of the created files. |
| `ScaffoldTransaction.Repository.Recover` | src-tauri/src/project_folder_scaffold.rs:753-793 | Undisturbed it ends on the recovered disk, every write on the way leads there too; with others around it removes only unmodified files listed by a journal that was on disk during the call, and if others leave the journal of a transaction alone, only files that hold that transaction's content; with no failing system call it succeeds on every recoverable disk. |
| `ScaffoldTransaction.Repository.WriteJournal` | src-tauri/src/project_folder_scaffold.rs:728-751 | After it the disk differs from the start by the journal alone, which announces the manifest and files of the transaction. |
| `ScaffoldTransaction.Repository.CreateFiles` | src-tauri/src/project_folder_scaffold.rs:286-312 | Creates the files in order, each with a write of its own; it stops at the first failure with exactly the created prefix on disk, and alone, with working system calls and no failure asked for, it creates them all. |
| `ScaffoldTransaction.Repository.Commit` | src-tauri/src/project_folder_scaffold.rs:268-338 | From the journal on: every write leaves a recoverable disk, success commits, failure with working system calls leaves no trace, whatever others do only files this run created are removed; alone and with working system calls it succeeds. |
| `ScaffoldTransaction.Repository.SelectMissing` | src-tauri/src/project_folder_scaffold.rs:245-254 | Exactly the scaffold files whose path is planned as missing, in order. |
| `ScaffoldTransaction.Repository.RecheckMissing` | src-tauri/src/project_folder_scaffold.rs:268-274 | Success means every file to be created was seen missing during the call, whatever others do, and undisturbed is still missing; with working system calls it succeeds if all are. |
| `ScaffoldTransaction.Repository.Apply` | src-tauri/src/project_folder_scaffold.rs:225-338 | The whole apply: never overwrites or deletes foreign content, removes only files it created and empty directories it made; undisturbed it satisfies the crash, commit and rollback promises of `Applied`; alone, with working system calls and no failure asked for, every plan that is ready is applied. |
| `ScaffoldTransaction.Repository.PlanFiles` | src-tauri/src/project_folder_scaffold.rs:162-192 | One status for each scaffold file, in order: unchanged exactly if a file with the scaffold's content stands there, missing exactly if nothing stands there or in its way and no record manages it, otherwise a conflict; the counters equal the number of files of each status. |
| `ScaffoldModel.ParseCompatible` | src-tauri/src/project_folder_scaffold.rs:660-700 | Accepts a manifest exactly if its header is the scaffold's and its records have usable, case-distinct paths and checksums. |
| `ScaffoldModel.InspectMeans` | src-tauri/src/project_folder_scaffold.rs:340-370 | A look at a file says unchanged exactly if a file with the scaffold's content is there and missing exactly if nothing is there and nothing but directories above. |
| `ScaffoldModel.ManifestAtMeans` | src-tauri/src/project_folder_scaffold.rs:641-658 | Reading the manifest gives its text exactly if a file with that text is there, its absence exactly if nothing is there or in its way, and a conflict otherwise. |
| `ScaffoldModel.MergeManifest` | src-tauri/src/project_folder_scaffold.rs:499-577 | Fails exactly on an incompatible manifest; otherwise gives the manifest text the apply publishes. |
| `ScaffoldModel.NewRecords` | src-tauri/src/project_folder_scaffold.rs:512-530 | The records pushed through the growing path set are those of the added files without a record, each once. |
| `ScaffoldModel.MergedManifestIsCompatible` | src-tauri/src/project_folder_scaffold.rs:504-534 | A manifest that gained the records of newly added files still passes the compatibility check. |
| `ScaffoldModel.RecordsDistinctIff` | src-tauri/src/project_folder_scaffold.rs:536-541 | Records of a plan collide, ignoring case, exactly when two recorded files do. |
| `ScaffoldModel.FreshManifestCompatibleIff` | src-tauri/src/project_folder_scaffold.rs:536-577 | A first manifest passes its own check exactly if the recorded paths are usable and distinct ignoring case, which the archive loader does not check. |
| `ScaffoldPlanning.CreatePlan` | src-tauri/src/project_folder_scaffold.rs:148-223 | Planning writes nothing and says of every file what is on disk; an unusable manifest stops everything before the first write; applying recovers first, and at every crash point recovery settles the repository; whatever else others do, while they leave a journal of this scaffold alone only files with the scaffold's content are removed; alone and with working system calls it succeeds wherever the manifest is usable and the journal can be recovered; after a successful apply another call, successful or not, changes no file. |
| `ScaffoldPlanning.PlanIsReady` | src-tauri/src/project_folder_scaffold.rs:160-192 | Recovery keeps the manifest, and the plan made on the recovered disk can be applied as a transaction. |
| `ScaffoldPlanning.PlanOnMeans` | src-tauri/src/project_folder_scaffold.rs:160-223 | The plan of a disk: each scaffold file in order with its checksum, unchanged, missing or in conflict by what stands on the disk and what the manifest there manages; after an apply the missing ones are added. |
| `ScaffoldPlanning.CreatedExactlyIf` | src-tauri/src/project_folder_scaffold.rs:171-178 | A file is created exactly if nothing stands in its place or in its way and no record of the manifest on disk manages it; a managed file the user deleted is never recreated. |
| `ScaffoldPlanning.ManifestGainsTheCreated` | src-tauri/src/project_folder_scaffold.rs:504-534 | Old records stay in place, every created file gains one record with its path, kind, checksum, ownership and presence, nothing else gains one, and the result is compatible. |
| `ScaffoldPlanning.FirstManifestRecords` | src-tauri/src/project_folder_scaffold.rs:536-577 | The first manifest records a scaffold file exactly if it was created or stood on the disk with the scaffold's content, and lists it as a conflict otherwise. |
| `ScaffoldPlanning.SecondApplyChangesNothing` | src-tauri/src/project_folder_scaffold.rs:148-223 | After a successful apply a second one, whatever its outcome and whichever system calls fail, changes no file and no byte of the manifest, even if the first left its journal behind. |
| `ScaffoldPlanning.CrashedDiskCanStart` | src-tauri/src/project_folder_scaffold.rs:156-170 | The manifest check before recovery never stands in the way of recovering an interrupted apply, nor does anything on such a disk stand in the way of recovery. |
| `InspectionCoalescing.StepKeepsInv` | src-tauri/src/project_repository_inspection.rs:91-176 | Every critical section keeps the protocol's invariant: flights, registry, leaders and results agree. |
| `InspectionCoalescing.OneInspectionPerPath` | src-tauri/src/project_repository_inspection.rs:112-130 | In every run at most one inspection of a repository path goes on at a time. |
| `InspectionCoalescing.IdentityCheckHolds` | src-tauri/src/project_repository_inspection.rs:167-175 | When a leader unregisters, the registered flight is always its own. |
| `InspectionCoalescing.ResultsStay` | src-tauri/src/project_repository_inspection.rs:157-165 | A stored result is never replaced in any continuation of a run. |
| `InspectionCoalescing.FollowersReturnTheLeadersResult` | src-tauri/src/project_repository_inspection.rs:97-109 | Any two calls that shared a flight return the same value, whenever they return. |
| `InspectionCoalescing.ReturnedIsTheLeadersResult` | src-tauri/src/project_repository_inspection.rs:97-109 | What a call returns is the value of the one thread that inspected for its flight. |
| `InspectionCoalescing.NobodyIsStuck` | src-tauri/src/project_repository_inspection.rs:132-150 | In every reachable state a waiting call can move, or the leader it waits for can: no wake-up is lost. |
| `InspectionCoalescing.ProductiveStepsGetNearer` | src-tauri/src/project_repository_inspection.rs:91-176 | Each step lowers the distance to the end; a wake-up for no reason raises it by one. |
| `InspectionCoalescing.EveryCallReturns` | src-tauri/src/project_repository_inspection.rs:91-176 | Without new calls a run is bounded by the work at hand plus two steps for each spurious wake-up, and a run that cannot go on has answered every call. |
| `InspectionCoalescing.Inspections.TakeOrCreate` | src-tauri/src/project_repository_inspection.rs:112-130 | The caller leads exactly if its path had no registered flight; the new state is that of the protocol step. |
| `InspectionCoalescing.Inspections.Inspect` | src-tauri/src/project_repository_inspection.rs:103-106 | A panic of the inspection counts as a failed command. |
| `InspectionCoalescing.Inspections.StoreResult` | src-tauri/src/project_repository_inspection.rs:152-165 | Stores the first and only result and leaves no follower of the flight asleep. |
| `InspectionCoalescing.Inspections.Unregister` | src-tauri/src/project_repository_inspection.rs:167-175 | Always removes the caller's own flight, and the value it returns is the stored result. |
| `InspectionCoalescing.Inspections.LookOrWait` | src-tauri/src/project_repository_inspection.rs:132-150 | Returns exactly if the result is there. |
| `RemoteUrlCache.HitIsOfThisCall` | src-tauri/src/project_repository_inspection.rs:420-443 | Whatever was edited and whoever filled the entry, a hit's common file, and its worktree file if the fingerprint names one, were current during the lookup. |
| `RemoteUrlCache.HitIsExact` | src-tauri/src/project_repository_inspection.rs:420-443 | The same for one entry: what git read equals what the lookup finds. |
| `RemoteUrlCache.HitIsExactIff` | src-tauri/src/project_repository_inspection.rs:420-443 | For a lookup whose fingerprint equals an earlier one: every entry that may have been left under it equals what the lookup finds on disk if and only if a worktree file is named or none existed at any moment between the two fingerprints. |
| `RemoteUrlCache.AbsenceComesBack` | src-tauri/src/project_repository_inspection.rs:515-519 | The excluded case exists: a worktree file that comes and goes makes an entry that answers with a file that is gone. |
| `RemoteUrlCache.ReadingFirstWouldBeWrong` | src-tauri/src/project_repository_inspection.rs:423-446 | The order matters: with the fingerprint taken after the read, an edit in between makes a wrong entry even for files that stay. |
| `RemoteUrlCache.RemoteUrls.ReadFingerprint` | src-tauri/src/project_repository_inspection.rs:502-526 | Both stamps are of this call, the common file's first. |
| `RemoteUrlCache.RemoteUrls.Lookup` | src-tauri/src/project_repository_inspection.rs:425-443 | A hit needs an equal fingerprint and an entry younger than thirty seconds. |
| `RemoteUrlCache.RemoteUrls.Insert` | src-tauri/src/project_repository_inspection.rs:449-462 | The cache never exceeds 512 entries: a new path in a full cache clears it. |
| `RemoteUrlCache.RemoteUrls.ReadRemoteUrls` | src-tauri/src/project_repository_inspection.rs:420-465 | Every answer is one git gave, and of this call up to the absent worktree file; a call without hit remembers its answer under its fingerprint at its time; calls that do not overlap answer a hit exactly unless a worktree file came and went since the entry's fingerprint; there is no answer exactly if git could not be run and no fingerprint exactly if a file could not be inspected; alone, a call is a hit exactly if an entry for these versions is younger than thirty seconds, and it repeats the entry. |
| `RemoteUrlCache.LookUpTwice` | src-tauri/src/project_repository_inspection.rs:420-465 | Of two calls with nothing but time in between, the second repeats the first one's answer from the cache if less than thirty seconds have passed, and asks git again otherwise. |
| `TaskRuns.LatestByRepository` | src-tauri/src/project_repository_task.rs:465-486 | The newest run of each repository that occurs, newest first. |
| `TaskRuns.NewerIff` | src-tauri/src/project_repository_task.rs:488-504 | The first character in which the starts differ decides, and with equal starts the first in which the ids differ. |
| `TaskRuns.LatestIsUnique` | src-tauri/src/project_repository_task.rs:465-504 | The answer does not depend on the order in which the records come. |
| `TaskRuns.NewerTransitive` | src-tauri/src/project_repository_task.rs:488-494 | Later start, then greater id, is a transitive order. |
| `TaskRuns.DescendingIsUnique` | src-tauri/src/project_repository_task.rs:496-504 | Records with distinct ids have only one descending list. |
| `TaskRunRecordCache.FastPathReturnsTheStored` | src-tauri/src/project_repository_task.rs:382-424 | On the fast path an answer is the record on disk, except that one still called running is shown as stopped. |
| `TaskRunRecordCache.FastPathIsRightIff` | src-tauri/src/project_repository_task.rs:382-424 | The fast path names the newest runs of the directory as it is now if and only if no older readable file now holds a run newer than the answer for its repository. |
| `TaskRunRecordCache.RewrittenOlderRun` | src-tauri/src/project_repository_task.rs:382-424 | The excluded case exists: an older record rewritten in place with a later start leaves the cache fresh and the answer wrong. |
| `TaskRunRecordCache.RescanNamesNewest` | src-tauri/src/project_repository_task.rs:295-351 | An undisturbed rescan names the newest run of every repository in the directory, whatever liveness makes of runs that go on. |
| `TaskRunRecordCache.NewestKeysAreUnique` | src-tauri/src/project_repository_task.rs:465-504 | Two answers that name the newest runs of one directory have the same ids, repositories and starts, place by place. |
| `TaskRunRecordCache.FastPathIsRight` | src-tauri/src/project_repository_task.rs:382-424 | It does so whenever older records keep their repository, start and id. |
| `TaskRunRecordCache.SameKeysAsRescan` | src-tauri/src/project_repository_task.rs:299-351 | The fast path answers, place by place, with the keys of an undisturbed rescan of the same directory if and only if no older readable file now holds a newer run. |
| `TaskRunRecordCache.WorkspaceTaskRunRecords.IsFresh` | src-tauri/src/project_repository_task.rs:382-424 | Says yes only on equal stamps of the directory, of every latest file and of every unreadable one, with no latest run going on; alone it says yes exactly then. |
| `TaskRunRecordCache.WorkspaceTaskRunRecords.ScanFiles` | src-tauri/src/project_repository_task.rs:296-338 | Afterwards every cached record was on disk at a moment of the scan, and a listed file without entry had disappeared during it. |
| `TaskRunRecordCache.WorkspaceTaskRunRecords.ProjectLiveness` | src-tauri/src/project_repository_task.rs:916-969 | Only runs still called running are read again or shown as stopped; ids and repositories stay. |
| `TaskRunRecordCache.WorkspaceTaskRunRecords.Rescan` | src-tauri/src/project_repository_task.rs:295-351 | The answer holds the newest of what the scan found; the cache is true to the directory again; a failure changes nothing; undisturbed, it names the newest run of every repository. |
| `TaskRunRecordCache.WorkspaceTaskRunRecords.ReadLatest` | src-tauri/src/project_repository_task.rs:271-351 | Keeps the cache true under any interference, uses the fast path only when fresh, forgets everything when the directory is gone; undisturbed, a scan names the newest runs, and the fast path does so exactly if no older file now holds a newer one. |
| `TaskRunHistory.ReadBounded` | src-tauri/src/project_repository_task_history.rs:76-102 | A record comes exactly from a regular file within one mebibyte and the rest of the budget, which is debited by its size. |
| `TaskRunHistory.ReadSelected` | src-tauri/src/project_repository_task_history.rs:22-74 | Succeeds exactly if there are at most 200 acceptable ids, every requested file that exists is readable and bound to its id, and together they fit the budget; then each run comes once, newest first. |
| `TaskRunHistory.FoundIs` | src-tauri/src/project_repository_task_history.rs:41-66 | The found records are exactly those of the requested files, each once. |
| `ProcessTree.IsDescendant` | src-tauri/src/project_repository_task.rs:826-847 | Ends on every parent map, cycles included, and is true exactly if climbing from the process meets the ancestor before process 0 and before the chain ends. |
| `ProcessTree.FindLiveDescendant` | src-tauri/src/project_repository_task.rs:809-824 | True exactly if some process that is neither the ancestor nor a terminal descends from it. |
| `ProcessTree.ParentMapIs` | src-tauri/src/project_repository_task.rs:810-817 | The collected map holds for each process the last parent that is listed. |
| `TaskRunSummary.TaskRunSummaries.Summarize` | src-tauri/src/agent_api_snapshot.rs:723-841 | With ok the answer, before liveness, is the first twenty of all records, however many came from the cache; otherwise it is the first twenty of those found; it says exactly when it is incomplete; the cache goes on holding what files of its stamps hold. |
| `TaskRunSummary.TopIsUnique` | src-tauri/src/agent_api_snapshot.rs:818-824 | There is only one list of the first twenty. |
| `TaskRunSummary.ScanFindsAll` | src-tauri/src/agent_api_snapshot.rs:771-816 | A scan that is not incomplete found every record and every JSON file was readable; the cache stays true. |
| `TaskRunSummary.EveryCacheIsTrue` | src-tauri/src/agent_api_snapshot.rs:771-817 | Over any history of listings in which a path and a stamp determine the content, the cache that began empty is true of the next listing. |
| `TaskRunSummary.StepKeepsCaps` | src-tauri/src/agent_api_snapshot/task_run_cache.rs:53-93 | Entries, retained bytes and the byte counter stay within their caps, and the counter is the sum of what is retained. |
| `TaskRunSummary.TaskRunSummaries.Retain` | src-tauri/src/agent_api_snapshot/task_run_cache.rs:95-103 | Dropping entries of vanished files takes exactly their bytes off the counter. |
| `TaskRunSummary.CompleteIffItFits` | src-tauri/src/agent_api_snapshot.rs:771-816 | On completed runs a call is complete if and only if the files without a cache hit fit into the budget. |
| `TaskRunSummary.EachCallGetsOn` | src-tauri/src/agent_api_snapshot.rs:771-817 | If the directory's summaries fit into the cache, every call leaves fewer files to read. |
| `TaskRunSummary.AsManyCallsAsFiles` | src-tauri/src/agent_api_snapshot.rs:723-841 | Then as many calls as there are files suffice for a complete answer. |
| `TaskRunSummary.CompleteSoonOrNever` | src-tauri/src/agent_api_snapshot.rs:723-841 | For every directory of completed runs: the calls arrive at a cache that stays; if what it misses fits the budget, one of the first calls, no more than there were files to read, is complete, and otherwise no call ever is. |
| `TaskRunSummary.OneCallCleans` | src-tauri/src/agent_api_snapshot.rs:771-817 | One call on such a directory leaves only entries of listed files that hit, whatever true cache it began with. |
| `TaskRunSummary.TwentyLongRunsNeverComplete` | src-tauri/src/agent_api_snapshot/task_run_cache.rs:65-93 | The case exists: twenty runs with long tasks, each readable on its own, and from an empty cache no call is ever complete, because the cache has room for eight. |
| `TaskRunSummary.FullCacheNeverGetsOn` | src-tauri/src/agent_api_snapshot/task_run_cache.rs:59-93 | Without that room it may never happen: with the cache full and the rest over the budget, no repetition of the call completes. |
| `QueueLimits.StepKeepsInv` | src-tauri/src/queue_limits.rs:46-82 | Every acquire, release and cancellation conserves the permits of each semaphore, keeps each line equal to those who wait, and lets nobody wait beside a free permit. |
| `QueueLimits.AtMostTheLimits` | src-tauri/src/queue_limits.rs:8-82 | In every run at most four queue runs hold permits, at most two of one normalised provider, and free plus held permits make the limits. |
| `QueueLimits.AtMostTwoOfAName` | src-tauri/src/queue_limits.rs:8-82 | In every run at most two requests hold a provider permit whose requested names are equal once surrounding spaces are cut and ASCII case is ignored. |
| `QueueLimits.NormalizeIff` | src-tauri/src/queue_limits.rs:46-60 | Two names share a semaphore if and only if, without the spaces around them, they agree character by character up to ASCII case. |
| `QueueLimits.NoDeadlock` | src-tauri/src/queue_limits.rs:62-82 | Provider first, global second: while a request has not ended, some request can move. |
| `QueueLimits.EveryRequestIsServed` | src-tauri/src/queue_limits.rs:62-82 | With no more requests every run is finite, and where it cannot go on every request that was not cancelled has held both permits. |
| `QueueLimits.NobodyOvertakes` | src-tauri/src/queue_limits.rs:46-72 | Whoever is ahead of a waiting request in a provider's line was ahead of it before the step. |
| `QueueLimits.NobodyOvertakesGlobally` | src-tauri/src/queue_limits.rs:62-77 | The same for the line of the global semaphore. |
| `QueueLimits.NormalizeTwice` | src-tauri/src/queue_limits.rs:50-50 | A normalised provider name is its own normal form. |
| `QueueLimits.QueueExecutionLimiter.AcquireProvider` | src-tauri/src/queue_limits.rs:46-71 | Granted exactly if a permit is free and nobody waits; the new state is that of the protocol step. |
| `QueueLimits.QueueExecutionLimiter.AcquireGlobal` | src-tauri/src/queue_limits.rs:72-77 | The same for the global semaphore. |
| `QueueLimits.QueueExecutionLimiter.DropGlobal` | src-tauri/src/queue_limits.rs:24-28 | Dropping a permit pair returns the global permit first, to the head of the line if anyone waits. |
| `QueueLimits.QueueExecutionLimiter.DropProvider` | src-tauri/src/queue_limits.rs:24-28 | Then the provider's permit. |
| `QueueConfirmation.HashedBytesAreInjective` | src-tauri/src/queue_execution_planning.rs:272-288 | Equal hashed bytes mean equal ids, task ids, agent ids and prompts, place by place, for lists of any lengths. |
| `QueueConfirmation.ListIsReadBack` | src-tauri/src/queue_execution_planning.rs:273-285 | Although no count stands in front, a list before trailers of one length cannot be mistaken for another. |
| `QueueConfirmation.FieldIsReadBack` | src-tauri/src/queue_execution_planning.rs:282-283 | A length-prefixed text is read back from the front of whatever follows. |
| `QueueConfirmation.NumberIsReadBack` | src-tauri/src/queue_execution_planning.rs:282-288 | A length is read back from its eight bytes, the lowest first. |
| `QueueConfirmation.Utf8IsInjective` | src-tauri/src/queue_execution_planning.rs:282-283 | Texts are told apart by their UTF-8 bytes. |
| `QueueConfirmation.CharIsReadBack` | src-tauri/src/queue_execution_planning.rs:282-283 | Each character is read back from its UTF-8 bytes by the table of RFC 3629. |
| `QueueConfirmation.HexIsInjective` | src-tauri/src/queue_execution_planning.rs:294-297 | The hex text tells digests apart. |
| `QueueConfirmation.HexMeans` | src-tauri/src/queue_execution_planning.rs:294-297 | Each byte gives two lower-case hexadecimal digits, the higher one first. |
| `QueueConfirmation.TokenMeansPlan` | src-tauri/src/queue_execution_planning.rs:254-298 | Two plans have one token exactly if they send the same texts to the same agents for the same tasks. |
| `QueueConfirmation.CreateEstimate` | src-tauri/src/queue_execution_planning.rs:254-298 | The token is that of the previews; request count and attempts are what the plan costs, saturated; the input tokens are the sum over the previews, which wraps as the source's plain sum does. |
| `QueueConfirmation.PromptTokensAre` | src-tauri/src/queue_execution_planning.rs:300-313 | A prompt counts the fewest groups of four that hold its ascii characters plus one for each other character. |
| `QueueConfirmation.TotalOfLists` | src-tauri/src/queue_execution_planning.rs:254-263 | The total of two lists is the wrapped sum of their totals. |
| `QueueConfirmation.ValidateLimits` | src-tauri/src/queue_execution_planning.rs:315-358 | Passes exactly up to 64 tasks, 8 agents a task and 128 runs; the error names a limit that is broken. |
| `QueueConfirmation.CreatePreviews` | src-tauri/src/queue_execution_planning.rs:130-201 | Succeeds exactly on a non-empty order within the limits whose tasks name known agents; then there is one preview for each agent of each task, at its place. |
| `QueueConfirmation.ValidateConfirmation` | src-tauri/src/queue_execution_planning.rs:234-252 | Passes exactly if the order is within the limits, its agents are known and the token is that of its previews as they are now. |
| `QueueConfirmation.PreviewsAreUnique` | src-tauri/src/queue_execution_planning.rs:130-201 | A work order has one list of previews, so one token. |
| `QueueConfirmation.ConfirmedMeansSeen` | src-tauri/src/queue_execution_planning.rs:234-252 | An accepted token means that the shown list has, for every task and agent of the order, exactly the prompts that are sent. |
| `QueueExecutions.StepKeepsInv` | src-tauri/src/queue_execution_registry.rs:27-108 | No two live executions work on one order of one workspace, every entry has exactly one live guard, and handles of a cancelled execution are aborted. |
| `QueueExecutions.CancelSticks` | src-tauri/src/queue_execution_registry.rs:75-108 | Once cancelled, every handle registered before or after is aborted for as long as the guard lives. |
| `QueueExecutions.NobodyElseGetsIt` | src-tauri/src/queue_execution_registry.rs:35-72 | While a guard lives, an acquire of the same id or the same work changes nothing. |
| `QueueExecutions.Registry.AcquireExecution` | src-tauri/src/queue_execution_registry.rs:35-73 | Passes exactly with an id of the right shape that is not running, for a work order that does not run in the workspace; it then adds one entry with its guard, and otherwise changes nothing; bad ids come before bad orders, running ids before running orders. |
| `QueueExecutions.ExecutionIdIff` | src-tauri/src/queue_execution_registry.rs:136-153 | An id has the right shape exactly if it is five groups of 8, 4, 4, 4 and 12 hexadecimal digits with hyphens between them. |
| `QueueExecutions.Registry.RegisterHandle` | src-tauri/src/queue_execution_registry.rs:75-91 | Passes exactly for a running id; adds the handle, aborted at once if the execution is cancelled. |
| `QueueExecutions.Registry.CancelExecution` | src-tauri/src/queue_execution_registry.rs:93-108 | Passes exactly for a running id; marks the execution and aborts all its handles. |
| `QueueExecutions.Registry.DropGuard` | src-tauri/src/queue_execution_registry.rs:27-33 | Dropping the guard removes exactly its entry. |
| `QueueExecutions.Registry.RunningWorkOrders` | src-tauri/src/queue_execution_registry.rs:110-134 | Exactly the requested orders that run in the workspace, each once. |
| `QueueExecutionLoop.OthersKeepMine` | src-tauri/src/queue_execution_registry.rs:27-108 | Any step of others leaves this execution's entry, handles and cancellation in place and aborts its runs only through a cancellation. |
| `QueueExecutionLoop.StartRuns` | src-tauri/src/queue_execution.rs:571-606 | All planned runs are started, in order, each after its handle was registered; while the guard lives no registration is refused. |
| `QueueExecutionLoop.Runs.AwaitRun` | src-tauri/src/queue_execution.rs:587-619 | Records what waiting for the run gave; a run ends as stopped only if the execution was cancelled. |
| `QueueExecutionLoop.Runs.Spawn` | src-tauri/src/queue_execution.rs:578-606 | A run is started only with a registered handle. |
| `QueueExecutionLoop.AwaitRuns` | src-tauri/src/queue_execution.rs:608-633 | The outcomes in the order of the runs, all of them and none stopped; the first stopped or broken run ends it with its error. |
| `QueueExecutionLoop.ExecuteInner` | src-tauri/src/queue_execution.rs:541-636 | It starts runs exactly if there is a task, an open vault, a plan and a client, the first of these that is missing being its error; a report needs every planned run awaited, holds exactly their outcomes in order and none stopped; it is the cancelled error exactly if an awaited run was stopped; on every way out every started run's handle is aborted. |
| `QueueExecutionLoop.DropLocalHandles` | src-tauri/src/queue_execution.rs:760-766 | Aborts the handle of every started run. |
| `QueueExecutionLoop.ExecuteWorkOrder` | src-tauri/src/queue_execution.rs:494-539 | On every way out the guard is gone and every started run's handle is aborted; the order stays queued exactly if the execution was refused or could not begin it; it is archived with the report, marked as failed with the error, or stays begun exactly if that could not be noted. |
| `Timestamps.TextOrderIsTimeOrder` | src-tauri/src/app_state_store.rs:313-327 | For accepted timestamps text order is the order of year, month, day, hour, minute, second and millisecond. |
| `Timestamps.SortableIff` | src-tauri/src/app_state_store.rs:313-335 | The shape check accepts exactly seven groups of digits with the separators of a UTC timestamp with milliseconds. |
| `StateStores.ReplayChangesNothing` | src-tauri/src/app_state_store.rs:240-286 | Writing a batch again changes nothing. |
| `StateStores.GoesThroughIff` | src-tauri/src/project_registry_store.rs:251-313 | A call on registries goes through exactly if every entry is one and finds the text it expects, left by the entries before it or stored; then each registry it names has the trimmed text and timestamp of the last entry that names it, and the others stay. |
| `StateStores.CommuteIff` | src-tauri/src/app_state_store.rs:247-263 | Two batches commute on every table if and only if on each shared key the timestamps differ or the records are equal; with equal timestamps the last write wins. |
| `StateStores.AnyOrder` | src-tauri/src/app_state_store.rs:240-286 | Pairwise compatible batches give the same table in every order. |
| `StateStores.RunAdvances` | src-tauri/src/app_state_store.rs:143-286 | Over any run of the three writers no key disappears and no stored timestamp decreases. |
| `StateStores.OnlyOneComparerWins` | src-tauri/src/app_state_store.rs:160-183 | Of two comparing writers that expect the same value, after the first changed it the second succeeds only if a commit brought the value back. |
| `StateStores.GuardedCallNeedsRestore` | src-tauri/src/app_state_store.rs:143-183 | The same for comparing and syncing calls in any mixture: once one stored a value the other does not accept, the other succeeds only if a commit in between brought an acceptable one back. |
| `StateStores.SecondSyncIsRefused` | src-tauri/src/project_registry_store.rs:269-294 | After a sync changed a registry, another that expects the old text is refused. |
| `StateStores.ChangedRegistryNeedsRestore` | src-tauri/src/project_registry_store.rs:251-313 | Over any run of calls: a call does not get past a registry that differs from what it expects unless a call in between that went through wrote the expected text back. |
| `StateStores.RegistriesKept` | src-tauri/src/project_registry_store.rs:251-313 | A committed call loses no registry and touches only those it names. |
| `StateStores.ValidateRecords` | src-tauri/src/app_state_store.rs:288-311 | Succeeds exactly if every record is acceptable; of two records for one trimmed key the later one counts. |
| `StateStores.Stores.WriteRecords` | src-tauri/src/app_state_store.rs:188-286 | All or nothing, failing exactly if a record is unacceptable, a statement fails or a superseding value is no longer valid; reports the stored value of every superseded key and notifies exactly the keys it wrote. |
| `StateStores.Stores.CompareAndWrite` | src-tauri/src/app_state_store.rs:143-186 | Writes exactly if the record is acceptable, the stored value is the expected one and not newer, and no statement fails; notifies the key; a failure leaves both tables and stays silent. |
| `StateStores.Stores.SyncWorkspaceRegistry` | src-tauri/src/project_registry_store.rs:322-367 | The workspace registry is replaced exactly over the expected text, by one that is not older, if no statement fails. |
| `StateStores.Stores.WriteProjectRegistries` | src-tauri/src/project_registry_store.rs:215-320 | Registries and workspace registry are written together or not at all, exactly if all of them can be and no statement fails, and exactly the written ones are notified. |
| `ChildOutput.ChunksDoNotMatter` | src-tauri/src/git_path.rs:404-450 | For every way of cutting a stream, what is kept is its first 64 KiB and the last 64 KiB of the rest. |
| `ChildOutput.KeptIsBounded` | src-tauri/src/git_path.rs:35-37 | At most 128 KiB are kept, and streams up to that are kept whole. |
| `ChildOutput.BoundedOutputBuffer.Append` | src-tauri/src/git_path.rs:417-442 | Head and tail stay those of the whole stream. |
| `ChildOutput.PollPipe` | src-tauri/src/git_path.rs:302-329 | The pipe is closed exactly when the end of its stream is read, the buffer grows by exactly the bytes read, and a failed read is an error; a closed pipe is left alone. |
| `ChildOutput.PollBoth` | src-tauri/src/git_path.rs:269-287 | Every open pipe is read exactly once more, standard output first; only a failed read of it keeps standard error from being read. |
| `ChildOutput.WaitForChild` | src-tauri/src/git_path.rs:248-300 | Success only after exit and both ends of stream, with the status the child was seen with and the closed form of all bytes read from both pipes; a timeout only past its deadline, every captured pipe not at its end having been read in every round and the child looked at in every round until it exited, ending the child exactly if it had not; an error exactly if a pipe was refused, a read failed or the child could not be looked at; the number of rounds is bounded by the two deadlines. |
| `RunPublication.CutIsWellFormed` | src-tauri/src/project_repository_task_powershell.rs:226-231 | Cutting a well-formed text, one unit later before a low surrogate, leaves a well-formed text. |
| `RunPublication.WellFormedIff` | src-tauri/src/project_repository_task_powershell.rs:226-231 | The well-formed texts are exactly the UTF-16 encodings of characters. |
| `RunPublication.OutputTailIsKept` | src-tauri/src/project_repository_task_powershell.rs:225-243 | The output tail is a well-formed end of at most 16384 units, or nothing when it is blank. |
| `RunPublication.OutputTailIsLongest` | src-tauri/src/project_repository_task_powershell.rs:225-243 | No longer end of the output that breaks no character and has at most 16384 units exists, and nothing is left out but what is blank. |
| `RunPublication.ShorterIsKept` | src-tauri/src/project_repository_task_powershell.rs:266-270 | Dropping a quarter keeps a well-formed end of at most three quarters. |
| `RunPublication.ShorterIsLongest` | src-tauri/src/project_repository_task_powershell.rs:266-270 | There is no longer end of at most three quarters that breaks no character. |
| `RunPublication.FitRecord` | src-tauri/src/project_repository_task_powershell.rs:262-273 | Gives the first of the record and its cuts that is within the byte limit, with only the tail changed, and fails exactly if none is, not even without a tail. |
| `RunPublication.RunsEndOnce` | src-tauri/src/project_repository_task_powershell.rs:145-206 | Running states, then at most one terminal state and nothing after it; succeeded only if every command ended without throwing and with exit code 0 or, without one, successfully; nothing after a failed publication. |
| `RunPublication.NoCommandAfterFailure` | src-tauri/src/project_repository_task_powershell.rs:197-205 | No command starts after one that threw, exited with anything but 0, or failed without an exit code. |
| `RunPublication.WhichStart` | src-tauri/src/project_repository_task_powershell.rs:131-206 | In a run whose publications all succeed exactly those commands start before which every command ended well. |
| `RunPublication.HowTheyStart` | src-tauri/src/project_repository_task_powershell.rs:145-206 | Before each start a running record is published, behind it the command ends and a record of its exit code is published; commands start in their order. |
| `RunPublication.RecordsAreHonest` | src-tauri/src/project_repository_task_powershell.rs:105-206 | Of the published records all but the last say running, and one says succeeded only if every command ended well. |
| `RunPublication.TrackedRun.Publish` | src-tauri/src/project_repository_task_powershell.rs:288-303 | The record is in place exactly if a move succeeded; at least one and at most eight attempts, all but the last failed with a conflict, and giving up earlier needs another error. |
| `RunPublication.TrackedRun.RunCommand` | src-tauri/src/project_repository_task_powershell.rs:161-174 | The exit code is 1 for a command that threw, else that of its last program, else 0 or 1 by its success; it is 0 exactly if the command ended well. |
| `RunPublication.TrackedRun.WriteRecord` | src-tauri/src/project_repository_task_powershell.rs:209-305 | A published record is the first cut within the limit of the one with this state, exit code and end of the output; a failure replaces nothing and has a cause: a record that never fits, a failing system call or a failing last move; the records say what the log says. |
| `RunPublication.TrackedRun.Run` | src-tauri/src/project_repository_task_powershell.rs:105-206 | For any commands, endings and failures, what happens is the full sequence of states and commands, or, only with a cause, that sequence up to a publication that failed; the published records are those of the log, in order. |

## Left out

- ScaffoldTransaction.Repository.WriteManifest: with others around it does not promise that a manifest edited between the last check and the replacement survives, because the source replaces it without a further check when it expected one.
- ScaffoldTransaction.Repository.Recover: a manifest edited by another tool after the commit, while the journal is still there, is seen as not committed; the crash results assume the manifest unchanged since the crash.
- ScaffoldTransaction.Repository.RemoveUnmodified: checking a file and removing it is one step.
- TaskRunSummary.TaskRunSummaries.Summarize: inspecting a file and reading it is one step, and the created time is part of the stamp.
- TaskRunHistory.ReadSelected: files do not change while they are read; a later look at running runs may.
- QueueConfirmation.CreateEstimate: a build with overflow checks would panic where the sum of the input tokens wraps.
- ChildOutput.WaitForChild: overflow of the clock, and what becomes of the process tree when the loop fails, are not modelled.
- RunPublication.TrackedRun.RunCommand: reading the last 64 KiB and forty lines of the log file is not modelled; the output is any text.
- QueueExecutionLoop.ExecuteWorkOrder: the work order's file, its lock and the report's content are not modelled; recording them succeeds or fails.
- Staging files, the staging directory, the lock file and which empty directories a failed apply leaves behind; what lies behind links; the initial scaffold of a new folder.
- Path validators are a function; so are the checks whether a text is a JSON object and the set of settings keys.
- The scaffold's files satisfy `GoodScaffold`, as the bundled archives do.
- Lossy file names, transient metadata failures and unreadable directory entries in the record cache; the eviction of whole workspaces from the summary cache.
- Byte budgets of liveness projection, process enumeration and the thirty-second start window: whether a run is read again or shown as stopped is left open.
- Resolving the git directory: the fingerprint names the two configuration files and their stamps.
- Prompt building is a function of task and agent; skills, references, personas, providers, models and secrets are not modelled.
- Parsing and classifying Git status, the cache diagnostics, HTTP, key derivation and encryption, process launching and signals, the user interface and tables of messages.
- Mutex poisoning, full disks and the accuracy of clocks.
