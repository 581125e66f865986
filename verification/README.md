# Firebuild, verified

Firebuild runs a build under a supervisor: an interceptor library reports what the build's processes
do, the supervisor records for every exec'ed process what it read and wrote, stores the record in a
cache, and in a later build replays the record instead of running the process ("shortcutting").

This project models the supervisor's bookkeeping in Dafny and proves what shortcutting relies on.
`dafny verify dfyconfig.toml` checks all of it.

| file | models |
|---|---|
| `FileUsage.dfy`, `Facts.dfy`, `MergeRuns.dfy` | what is known about one path, and the merge of a new observation into it |
| `ProcTree.dfy`, `Bubbling.dfy`, `Registration.dfy`, `Writers.dfy`, `Bookkeeping.dfy` | the tree of exec'ed processes on values: disabling of shortcutting, common ancestors, registration of file usages that bubbles up, writers of a file; whole runs of all of that, and the log of what was observed in them |
| `ExecTree.dfy`, `Runs.dfy` | the same on the objects, with compressed pointers, the pointer quick path and the early exit, proved equal to the values |
| `Recording.dfy`, `Replay.dfy`, `ReplayLimits.dfy` | a deterministic process and its recording; the cache entry, the look-up and the replay; where replaying goes wrong |
| `ProcessNodes.dfy`, `Acknowledgements.dfy`, `Promptness.dfy`, `Orphans.dfy`, `Lifecycle.dfy` | terminating, waiting, orphans, finalizing, storing, and deferred acknowledgements; which processes each step makes ready to be finalized |
| `Rendezvous.dfy` | the two messages that announce a new process, in any order |
| `LinearBuffer.dfy`, `Recorder.dfy`, `Pipe.dfy`, `PipeRuns.dfy` | the pipes between processes, with buffer, modes and recorders, under every schedule |
| `HashCache.dfy` | the in-memory cache of stat information and checksums |
| `Gc.dfy` | garbage collection of the object and the blob cache |
| `Canonical.dfy`, `Locations.dfy`, `Base64.dfy` | path canonicalisation, the search in sorted location lists, subkeys |
| `Options.dfy`, `FileNames.dfy` | shared datatypes |

## Main results

* **Replay soundness, exactly** (`ReplayLimits.ReplayIsSoundIff`, `ReplayLimits.EveryReplayIsSoundIff`). A
  recorded run is repeated in *every* file system that its stored inputs match if and only if each of its steps
  is recorded well enough. Repeated means: it makes the same observations and writes the same paths, and
  replaying the stored outputs succeeds and gives the same types and contents as running it. "Well enough" is a
  condition on the steps and the final record (`Replay.WellRecorded`). It is stated for ENOENT and ENOTDIR told
  apart, and for programs that do not care.
* **Merging is an exact meet** (`MergeRuns.MergedRunIsExactConjunction`, `FileUsages.MergeIsMeetIff`).
* **No observation is lost or made up by bubbling up** (`Bookkeeping.RecordIsExact`,
  `Bookkeeping.ModeRecordIsExact`): in every run, what a process records that can still be shortcut is satisfied
  by exactly the entries that satisfy everything observed at or below it before its first write. The methods of
  `ExecTree.ProcessForest` compute exactly these runs (`SupervisorRuns.Run`), in spite of the pointer quick path,
  the early exit and the skipped levels.
* **All or none of a file's writers** are below any process that can be shortcut
  (`Writers.AllOrNoneOverEveryRun`; the methods of `ExecTree.ProcessForest` refine that state machine).
* **Path compression** returns what the naive walk returns, and a bubble-up that returns early has
  disabled exactly its chain; the two-set walk finds the lowest common ancestor.
* **Store safety and acknowledgements** (`Lifecycle.StoredMeansSettled`, `Orphans.StoredMeansAllWaitedFor`,
  `Acknowledgements.AcksInOrder`, kept by every event of every run): what is stored was waited for, and so was
  everything forked below it; its subtree is finalized and holds no orphan; every wait is acknowledged at most
  once and is never forgotten, and only when all below is done but for orphans, except for the root's own fork
  point, of which only the end is demanded, and for a child whose announced exec never signed in, which is
  acknowledged at once.
* **Nothing is left behind** (`Lifecycle.Run`, `Promptness.AllIsFinalized`, `Lifecycle.AllIsAnswered`).
  `maybe_finalize()` is called only for a few processes at each exit and wait, but after every step nothing
  that could be finalized is still waiting for it. So once everything has terminated and nothing is pending,
  every process outside the root's exec chain is finalized and every wait for one is acknowledged. The one
  exception is stated exactly in `Lifecycle.Supervisor.Wait`.
* **Confluence of the rendezvous** (`Rendezvous.Confluence`, `Rendezvous.CompleteRunsSettle`): all complete
  schedules end in the same state, in which every child exists once with the right descriptor table, every
  question has one answer, and nothing is queued.
* **Pipes** (`PipeRuns.Run`): for every sequence of readable and writable descriptors, exec children, replays,
  closings and disablings, with short reads, short writes and blocking, each event does exactly its step; at any
  time what reached the reader and then the buffer is all that was taken, in order; and a recorder in use holds
  exactly what was written below its exec point if and only if no compressed data was replayed there.
* **Hash cache agreement** over any run of changes and look-ups, **garbage collection** that keeps all
  references, evicts only a least recently used suffix and ends after at most 16 rounds, **canonicalisation**
  equal to parse-drop-print, the exact inputs on which the early exit of the **location search** skips a match,
  and **subkeys** ordered by time.

## Where the code does not do what one might expect

Each of these is a lemma with a concrete input, or a contract that states exactly when it happens.

* A usage known only as EXIST forgets that when an update that knows nothing arrives, and an unwritten
  NOTEXIST_OR_ISREG ignores later facts (`src/firebuild/file_usage.cc:118`). `FileUsages.MergeIsMeetIff` has the
  exact condition. `ReplayLimits.ForgottenCheckIsUnsound` is a process whose cache entry then matches too much;
  this happens exactly if nothing else in the record tells that the path exists (`ReplayLimits.SureExistsIff`).
* A failed `unlink()` is registered only when the path does not exist (`ReplayLimits.FailedUnlinkIsUnsound`). The
  failure on a directory is repeated everywhere exactly if the record says that it is one, or that something
  below it exists (`ReplayLimits.SureDirectoryIff`).
* A missing path is recorded without its errno (`ReplayLimits.ErrnoIsNotRecorded`). ENOTDIR is repeated exactly if
  a file on the way is recorded or was written, and ENOENT exactly if the last directory on the way is, and the
  component after it is the last one, or recorded or left missing.
* When a process execs a program that never signs in, and is waited for, the children it forked before and did
  not wait for are not tried again; those that had already exited stay unfinalized
  (`src/firebuild/process.cc:2059-2070`). `Lifecycle.Supervisor.Wait` has the exact condition, and
  `Lifecycle.StaticExecLeavesChildBehind` a run that ends so.
* Pipe output that is replayed from a compressed blob is not passed on to the recorders of the processes above
  (`src/firebuild/execed_process_cacher.cc:1668-1688`); `Pipes.Pipe.RecorderIsExactIff` says a recorder is complete
  exactly if no such data was written below it.
* When growing a recorder's memory buffer fails, what it held is freed before it is written to the file
  (`Recorders.PipeRecorder.PrepareForAppend`).
* A `chmod` that leaves the modification time alone is not noticed by the hash cache (`HashCaches.ChmodIsMissed`,
  exact condition in `HashCaches.UpdateDescribesIff`). Sockets, fifos and devices count as not existing there.
* Garbage collection keeps `shortcut_tries` objects of a directory as the only ones that can be tried, but the
  look-up tries one more (`CacheGc.CollectionLosesHitIff`).
* A blob that was found for an object which turned out unusable survives the pass, although no object left refers
  to it (`CacheGc.PassLeavesUnreferencedBlob`; exactly which ones survive is in `CacheGc.SurvivesIff`).
* The location search fails if a location inside an entry with several slashes at its end sorts before that entry
  and stops the search (`Locations.TwoSlashesSkipAMatch`, exactly then by `Locations.AnswerIsRightIff` and
  `Locations.AlwaysRightIff`), and
  subkeys are ordered by time only for less than 2^34 seconds (`Subkeys.WrappedTimeSortsAsOld`).

## Model

| member | source | states |
|---|---|---|
| `FileUsages.MergeInitialKeepsValid` | src/firebuild/file_usage.cc:75-197 | a merge keeps size, checksum and mode bits well-formed for the type |
| `FileUsages.MergeIsMeet` | src/firebuild/file_usage.cc:75-197 | given one true initial state, the merged record is satisfied by exactly the entries that satisfy both the old record and the new fact |
| `FileUsages.MergeIsMeetIff` | src/firebuild/file_usage.cc:75-197 | the merge is that meet for all entries if and only if it is none of the two irregular cases (EXIST with a DONTKNOW update, unwritten NOTEXIST_OR_ISREG) |
| `MergeRuns.RunKeepsSound` | src/firebuild/file_usage.cc:56-235 | folding merge keeps the record equal to the facts learnt |
| `MergeRuns.TrueRunSucceeds` | src/firebuild/file_usage.cc:56-235 | a run of updates that are all true of one initial state never fails to merge |
| `MergeRuns.MergedRunIsExactConjunction` | src/firebuild/file_usage.cc:56-235 | such a run records exactly the conjunction of the facts up to and including the first write |
| `MergeRuns.WrittenIsFrozen` | src/firebuild/file_usage.cc:75-197 | after the first write type, size and checksum never change, and mode bits not after the first mode change |
| `MergeRuns.MergeFailsIff` | src/firebuild/file_usage.cc:75-197 | a merge fails exactly on a look-up error or when no entry has both types |
| `MergeRuns.AccessThenBlindOverwriteForgets` | src/firebuild/file_usage.cc:103-125 | the counterexample: an existence check is dropped by an update that knows nothing |
| `FactSets.StepKeepsSound` | src/firebuild/file_usage.cc:56-235 | one level of a registration keeps usage and facts equal |
| `FactSets.UnchangedLevelSuffices` | src/firebuild/execed_process.cc:301-373 | if a level's usage does not change, its ancestors already record the new fact |
| `FactSets.SetModeBitsMeet` | src/firebuild/file_info.h:90-94 | setting masked mode bits is the meet of what is known about them |
| `ProcTree.DisableChainExact` | src/firebuild/execed_process.cc:418-452 | the processes a bubble-up disables are exactly those from the start up to, not including, the stop |
| `ProcTree.LowestCommonIsLowest` | src/firebuild/execed_process.cc:90-118 | the common ancestor by definition is above both and below every other common one |
| `ProcTree.LowestCommonExists` | src/firebuild/execed_process.cc:90-118 | two processes in one tree have one |
| `ExecTree.ProcessForest.Create` | src/firebuild/execed_process.cc:43-89 | a new process starts shortcutable, points to the closest shortcutable ancestor, and keeps every invariant |
| `ExecTree.ProcessForest.NextShortcutableAncestor` | src/firebuild/execed_process.h:330-341 | with path compression it returns exactly the nearest proper ancestor that can be shortcut, and only rewrites its own pointer |
| `ExecTree.ProcessForest.ClosestShortcutPoint` | src/firebuild/execed_process.h:342-344 | the process itself or that ancestor |
| `ExecTree.ProcessForest.CommonExecAncestor` | src/firebuild/execed_process.cc:90-118 | the lock-step walk with two sets terminates with the lowest common ancestor |
| `ExecTree.ProcessForest.DisableShortcuttingOnlyThis` | src/firebuild/execed_process.cc:501-522 | disables one process and keeps all compressed pointers right |
| `ExecTree.ProcessForest.DisableShortcuttingBubbleUpToExcl` | src/firebuild/execed_process.cc:418-466 | disables exactly the chain, although it may return early, and keeps the pointers right |
| `ExecTree.ProcessForest.BubbleUp` | src/firebuild/execed_process.cc:418-452 | the recursive part, with the shortcutable ancestor handed down |
| `ExecTree.ProcessForest.RegisterFileUsageUpdate` | src/firebuild/execed_process.cc:265-375 | usages, flags, pointers and answer are exactly those of the registration on values, `Registration.Register` |
| `Registration.RegisterFinishes` | src/firebuild/execed_process.cc:265-375 | that one tells every shortcutable process at or above, keeps their books right, touches only the path and its directory, and disables only processes that missed a change or, when it fails, from a contradicting level up |
| `ExecTree.ProcessForest.RegisterParentDirectory` | src/firebuild/execed_process.cc:377-393 | the same for what is implied about the parent directory; without one it fails |
| `ExecTree.ProcessForest.MergeLevel` | src/firebuild/execed_process.cc:305-361 | the pointer quick path gives the result of the merge it skips, with its propagation bit |
| `ExecTree.ProcessForest.OneLevel` | src/firebuild/execed_process.cc:304-373 | one round of the loop: what is left to do afterwards leads where all of it led before |
| `ExecTree.ProcessForest.BubbleUpdate` | src/firebuild/execed_process.cc:304-373 | the loop gives what bubbling up on values gives |
| `ExecTree.ProcessForest.SkipLevel` | src/firebuild/execed_process.cc:324-345 | a level that missed a parallel change is disabled, and the registration starts over above it |
| `ExecTree.ProcessForest.OpenForWriting` | src/firebuild/file_name.cc:55-102 | is the step of the state machine of the bookkeeping, with the registration of a new generation |
| `ExecTree.ProcessForest.JoinWriters` | src/firebuild/file_name.cc:67-89 | two writers: both are disabled up to their lowest common ancestor, which becomes the owner |
| `ExecTree.ProcessForest.NewGeneration` | src/firebuild/file_name.cc:90-101 | the first writer starts a generation, which is registered if the file had one before |
| `ExecTree.ProcessForest.CloseForWriting` | src/firebuild/file_name.cc:104-118 | refines the state machine of writers |
| `Bubbling.EarlyExitIsGood` | src/firebuild/execed_process.cc:301-373 | the early exit leaves all books as right as merging on would have |
| `Bubbling.AllMergedIsGood` | src/firebuild/execed_process.cc:304-373 | merging every level that can still be shortcut leaves the books right |
| `Writers.StepKeepsInv` | src/firebuild/file_name.cc:55-118 | creation, disabling, opening and closing keep: writers reach their owner only through disabled processes |
| `Writers.AllOrNoneOverEveryRun` | src/firebuild/file_name.cc:55-118 | after every run, the subtree of a shortcutable process holds all writers of a file generation or none |
| `Bookkeeping.StepKeepsInv` | src/firebuild/execed_process.cc:265-452 | every event keeps right books and owners that are reached from writers only through disabled processes |
| `Bookkeeping.FlagsAfterRegistration` | src/firebuild/execed_process.cc:301-375 | which processes a registration disables and why, and that what can still be shortcut agrees with the update |
| `Bookkeeping.RunKeepsLedger` | src/firebuild/execed_process.cc:265-375 | in every run each process knows exactly the logged observations at or below it |
| `Bookkeeping.RunIsInOrder` | src/firebuild/execed_process.cc:265-375 | in every run a shortcutable process has recorded a write, or a change of permission bits, exactly if one was registered at or below it |
| `Bookkeeping.RecordIsExact` | src/firebuild/execed_process.cc:265-375 | after every run the record of a shortcutable process is satisfied by exactly the entries that satisfy all observations registered at or below it before the first write registered there |
| `Bookkeeping.ModeRecordIsExact` | src/firebuild/execed_process.cc:265-375 | the same for permission bits before the first registered change |
| `SupervisorRuns.Run` | src/firebuild/execed_process.cc:265-452 | for every sequence of creations, disablings, queries, registrations and writers the objects end in exactly the world of the run on values |
| `Recording.UpdateIsTrue` | src/firebuild/file_usage_update.cc:179-347 | the update made from a call is true of what the call found |
| `Recording.OpenIsDetermined` | src/firebuild/file_usage_update.cc:179-347 | cases A to F: where the registered facts hold, an open shows the same thing, but for the errno of a missing path, and leaves the same file |
| `Recording.ActionIsDetermined` | src/firebuild/process.cc:214-292 | the same for every operation |
| `Recording.RegisteredMeets` | src/firebuild/process.cc:199-292 | what matches the record after a step is exactly what matches it before, but for what a new generation forgets, and satisfies the update and what it says about the directory |
| `Recording.FailedIsNotMerged` | src/firebuild/file_usage_update.cc:179-214 | an error that is not understood never goes into the record |
| `Replay.ErrnoIsSame` | src/firebuild/process.cc:718-813 | where the reason is recorded, a missing path gives the same errno in both worlds |
| `Replay.StepStaysAlike` | src/firebuild/process.cc:199-292 | one step that is recorded well enough keeps two runs side by side and shows both the same |
| `Replay.RunMeets` | src/firebuild/execed_process_cacher.cc:749-931 | what matches the final record matches the record at every step |
| `Replay.RunStaysAlike` | src/firebuild/execed_process_cacher.cc:749-931 | a whole run keeps the two side by side |
| `Replay.Store` | src/firebuild/execed_process_cacher.cc:749-931 | collects the inputs and outputs of a finished process |
| `Replay.StoreOutputs` | src/firebuild/execed_process_cacher.cc:825-931 | the outputs: contents of written files, and written paths that are missing now but may have existed |
| `Replay.PioMatchesFs` | src/firebuild/execed_process_cacher.cc:1164-1236 | true exactly if every stored input is true of the file system |
| `Replay.ApplyShortcut` | src/firebuild/execed_process_cacher.cc:1449-1632 | writes the files and removes the paths; fails exactly if a file can not be put in place |
| `Replay.ReplayIsSound` | src/firebuild/execed_process_cacher.cc:749-931 | for every deterministic process, pair of file systems and number of steps: if the run is recorded well enough and the stored inputs match, it is repeated, and replaying leaves what running leaves |
| `ReplayLimits.StepDiffers` | src/firebuild/process.cc:199-292 | for every step that is not recorded well enough there is a file system that matches the final record and shows something else |
| `ReplayLimits.ReplayIsSoundIff` | src/firebuild/execed_process_cacher.cc:749-931 | a run is repeated in every file system that its inputs match, if and only if each step is recorded well enough |
| `ReplayLimits.EveryReplayIsSoundIff` | src/firebuild/execed_process_cacher.cc:749-931 | with ENOENT and ENOTDIR told apart this holds for every program |
| `ReplayLimits.SureExistsIff` | src/firebuild/file_name.cc:90-98 | what matches the record has the path, if and only if the record tells its existence or that of something below it |
| `ReplayLimits.SureDirectoryIff` | src/firebuild/process.cc:549-588 | what matches the record has a directory there, if and only if the record says so or tells the existence of something below it |
| `ReplayLimits.DirectoryDiffers` | src/firebuild/process.cc:549-588 | otherwise a failed unlink of a directory is not repeated everywhere |
| `ReplayLimits.UnlinkBelowFileDiffers` | src/firebuild/process.cc:549-588 | nor is one below a file, unless something on the way is recorded to be no directory |
| `ReplayLimits.NotDirectoryDiffers` | src/firebuild/process.cc:718-813 | ENOTDIR that is not sure becomes ENOENT somewhere |
| `ReplayLimits.NoEntryDiffers` | src/firebuild/process.cc:718-813 | ENOENT that is not sure becomes ENOTDIR somewhere |
| `ReplayLimits.ForgottenCheckIsUnsound` | src/firebuild/file_name.cc:90-98 | a check of a file that was written before is forgotten by the process's own overwrite |
| `ReplayLimits.FailedUnlinkIsUnsound` | src/firebuild/process.cc:549-588 | a failed removal of a directory leaves no record |
| `ReplayLimits.ErrnoIsNotRecorded` | src/firebuild/process.cc:718-813 | a missing path matches whatever the reason it is missing |
| `ProcessNodes.SubtreeIsFinalized` | src/firebuild/process.cc:2004-2057 | a finalized process outside the root's exec chain has a finalized subtree |
| `Lifecycle.StoredMeansSettled` | src/firebuild/execed_process.cc:238-263 | what was handed to the cache outside the root's exec chain was waited for and has a finalized subtree |
| `Lifecycle.Supervisor.AnyChildNotFinalized` | src/firebuild/process.cc:1914-1931 | false exactly if nothing is pending and all exec and fork children are finalized |
| `Lifecycle.Supervisor.LastExecDescendant` | src/firebuild/process.cc:80-94 | the end of the exec chain |
| `Lifecycle.Supervisor.TryFinalize` | src/firebuild/process.cc:2004-2050 | finalizes exactly if the process is terminated, nothing below is unfinished, and its parent has waited or can not any more |
| `Lifecycle.Supervisor.MaybeFinalize` | src/firebuild/process.cc:2004-2057 | the same, bubbling up; only terminated processes at or above the given one change, to finalized; if nothing but the given process and some others was ready, then nothing but those others is ready afterwards |
| `Lifecycle.Supervisor.DoFinalize` | src/firebuild/execed_process.cc:238-263 | stores only a process that can be shortcut; a finalized fork point has no unsent acknowledgement |
| `Lifecycle.Supervisor.MarkOrphan` | src/firebuild/process.cc:2030-2040 | an orphan and all exec points above it can not be shortcut |
| `Lifecycle.Supervisor.OrphansOfChain` | src/firebuild/process.cc:2093-2112 | every fork child of the exec chain was waited for or is an orphan, whatever became ready is finalized, nothing is stored, and what is above the orphans can not be shortcut |
| `Orphans.StoredMeansAllWaitedFor` | src/firebuild/process.cc:2028-2050 | outside the root's exec chain, everything at or below a stored process is finalized, is no orphan, and was waited for if it was forked |
| `Orphans.TriedIsKept` | src/firebuild/process.cc:2004-2050 | an attempt to finalize keeps that, and stores nothing whose exec path is or will be disabled |
| `Orphans.OrphanIsLate` | src/firebuild/process.cc:2096-2104 | a fork child that becomes an orphan is not below anything stored |
| `Orphans.ChildrenMayBeOrphans` | src/firebuild/process.cc:2093-2112 | disabling the exec path of a process accounts for all its orphaned fork children |
| `Orphans.NewIsBlameless` | src/firebuild/execed_process.cc:66-86 | forks and execs keep stored processes free of orphans |
| `Lifecycle.Supervisor.Finish` | src/firebuild/process.cc:2072-2115 | apart from the process itself only terminated ones change, to finalized; when an exec chain has ended, each fork child of it was waited for or is an orphan; if nothing was ready to be finalized before, nothing is afterwards |
| `Lifecycle.Supervisor.SetBeenWaitedFor` | src/firebuild/forked_process.cc:44-49 | marks the fork point, and the end of its exec chain is not left ready to be finalized |
| `Lifecycle.Supervisor.SetHasOrphanDescendantBubbleUp` | src/firebuild/forked_process.cc:51-66 | marks every fork point above; sends only pending acknowledgements, each where only orphans are left below |
| `Lifecycle.Supervisor.MaybeSendOnFinalizedAck` | src/firebuild/forked_process.cc:68-75 | sends a pending acknowledgement once |
| `Lifecycle.Supervisor.AckOrDefer` | src/firebuild/forked_process.h:66-80 | acknowledges at once exactly if the fork point is finalized or terminated with only orphans left |
| `Lifecycle.Supervisor.Wait` | src/firebuild/message_processor.cc:1054-1090 | the wait is acknowledged with its reason or pending; nothing is left ready to be finalized if and only if the child has no pending exec that alone kept an exited process from being finalized, and all that were kept so are left ready |
| `Lifecycle.Supervisor.MaybeFinalizeWithMissedStaticExecChild` | src/firebuild/process.cc:2059-2070 | clears the pending exec and tries to finalize from the child upwards, keeping every invariant |
| `Lifecycle.Supervisor.DisableShortcuttingBubbleUp` | src/firebuild/execed_process.cc:467-499 | disables exactly the exec points from the given one to the top |
| `Lifecycle.Supervisor.NewProcess` | src/firebuild/forked_process.cc:30-42 | a fork or exec below a process that is not finalized keeps every invariant; a child known only by its coming exec has a pending exec |
| `Lifecycle.Run` | src/firebuild/message_processor.cc:801-1090 | every run of forks, execs, exits and waits takes exactly the enabled events, in order, and keeps all invariants, among them that nothing stored has an orphan below it; if every exec was announced and none given up that kept others, nothing is ready but not finalized, and at the end everything is finalized and acknowledged |
| `Lifecycle.AllIsAnswered` | src/firebuild/forked_process.cc:77-88 | once nothing runs or is pending, every wait outside the root's exec chain was acknowledged |
| `Lifecycle.StaticExecLeavesChildBehind` | src/firebuild/process.cc:2059-2070 | a run after which an exited child could be finalized but is not |
| `Promptness.AllIsFinalized` | src/firebuild/process.cc:2004-2057 | if nothing is ready, nothing runs and nothing is pending, every process outside the root's exec chain is finalized |
| `Promptness.FinalizingReadiesParent` | src/firebuild/process.cc:2053-2056 | finalizing a process can make only its parent ready |
| `Promptness.EndingReadiesLasts` | src/firebuild/process.cc:2088-2113 | the end of a process can make ready only itself and the ends of the chains of its exec chain's fork children that were not waited for |
| `Promptness.WaitingReadiesLast` | src/firebuild/forked_process.cc:44-49 | a wait can make ready only the end of the exec chain that was waited for |
| `Promptness.GivingUpReadies` | src/firebuild/process.cc:2059-2070 | giving up a pending exec makes another process ready exactly if that exec alone held it |
| `Promptness.NewReadiesNothing` | src/firebuild/execed_process.cc:66-86 | forks and announced execs make nothing ready |
| `Promptness.TidiedUpwards` | src/firebuild/process.cc:2004-2057 | finalizing a process and then trying its parent leaves nothing new ready |
| `Acknowledgements.OnlyOrphansAreLeft` | src/firebuild/forked_process.cc:77-88 | where a wait may be acknowledged for a fork point that is not finalized, everything below it is finalized or at or below an orphan |
| `Acknowledgements.AckSent` | src/firebuild/forked_process.cc:68-75 | sending a pending acknowledgement that is justified keeps: once each, with a reason that held and still holds, none lost |
| `Acknowledgements.AckDeferred` | src/firebuild/forked_process.h:66-72 | deferring one keeps that, too |
| `Rendezvous.StepKeepsInv` | src/firebuild/message_processor.cc:287-432 | every message keeps: one record per process, right tables, one answer per question |
| `Rendezvous.MeetAtFork` | src/firebuild/message_processor.cc:809-823 | "fork_parent" and "fork_child" give the same state in both orders |
| `Rendezvous.MeetAtPopen` | src/firebuild/message_processor.cc:904-921 | "popen_parent" and "scproc_query" give the same state in both orders |
| `Rendezvous.Diamond` | src/firebuild/message_processor.cc:592-613 | any two messages that can be handled can be handled in both orders, with the same result |
| `Rendezvous.Confluence` | src/firebuild/message_processor.cc:592-613 | all complete schedules end in the same state |
| `Rendezvous.SomeoneCanGoOn` | src/firebuild/message_processor.cc:801-921 | as long as something is queued or unanswered, some message can be handled |
| `Rendezvous.CompleteRunsSettle` | src/firebuild/message_processor.cc:809-823 | at the end every child exists exactly once, starts from its parent's table at that point, all is answered once and nothing is queued |
| `Rendezvous.ForkCopiesTable` | src/firebuild/message_processor.cc:420-432 | at the answer the child has the table of the blocked parent |
| `LinearBuffers.LinearBuffer.EnsureSpace` | src/firebuild/linear_buffer.h:136-151 | makes room without changing the contents, moving or growing as needed |
| `LinearBuffers.LinearBuffer.Add` | src/firebuild/linear_buffer.h:109-116 | appends |
| `LinearBuffers.LinearBuffer.ReadAll` | src/firebuild/linear_buffer.h:57-106 | appends a prefix of what arrives, all of the first part unless the second read fails |
| `LinearBuffers.LinearBuffer.Discard` | src/firebuild/linear_buffer.h:118-129 | drops from the front |
| `Recorders.PipeRecorder.PrepareForAppend` | src/firebuild/pipe_recorder.cc:63-110 | moves between memory and file without loss, exactly unless a reallocation fails with data in memory |
| `Recorders.PipeRecorder.AddData` | src/firebuild/pipe_recorder.cc:112-164 | appends, in memory up to the inline limit, else to the file |
| `Recorders.PipeRecorder.AddDataFromRegularFd` | src/firebuild/pipe_recorder.cc:166-193 | appends a range of another file |
| `Recorders.PipeRecorder.Store` | src/firebuild/pipe_recorder.cc:195-232 | returns nothing, the inline data or a blob, equal to what was recorded |
| `Recorders.RecordDataFromBuffer` | src/firebuild/pipe_recorder.cc:284-297 | every active recorder appends the data |
| `Recorders.RecordDataFromUnixPipe` | src/firebuild/pipe_recorder.cc:299-333 | the same, although only the first active one takes it from the pipe and the others copy from that one |
| `Recorders.HasActiveRecorder` | src/firebuild/pipe_recorder.cc:274-282 | finds an active recorder if there is one |
| `PipeLogs.ToldIsBelowIff` | src/firebuild/execed_process_cacher.cc:1644-1700 | what recorders were told equals what was written below exactly if no replayed data was kept from them |
| `Pipes.Pipe.SetSendOnlyMode` | src/firebuild/pipe.cc:326-367 | epoll then watches fd0 in send-only mode and the fd1 ends otherwise |
| `Pipes.Pipe.SendBuf` | src/firebuild/pipe.cc:369-412 | sends in order; success means an empty buffer and normal mode, blocking means send-only mode |
| `Pipes.Pipe.PassOn` | src/firebuild/pipe.cc:439-470 | tee or splice deliver what is taken, and the recorders get the same bytes |
| `Pipes.Pipe.Forward` | src/firebuild/pipe.cc:414-504 | takes a prefix of what is incoming, all of it when draining; delivered bytes and buffer are all that was taken, in order |
| `Pipes.Pipe.CloseOneFd1` | src/firebuild/pipe.cc:197-229 | removes the end; the pipe finishes only without ends and without data |
| `Pipes.Pipe.Finish` | src/firebuild/pipe.cc:257-291 | afterwards nothing is watched, and what was not delivered is what is left in the buffer |
| `Pipes.Pipe.Fd1ReadCb` | src/firebuild/pipe.cc:293-324 | the assertions on the mode hold; what was taken is a part of what came in, from the process of that end, and not nothing unless there was nothing; at the end of it the end is closed |
| `Pipes.Pipe.DrainFd1End` | src/firebuild/pipe.cc:506-534 | the same, and all of it unless the reader is gone |
| `Pipes.Pipe.ReleaseFd1` | src/firebuild/pipe.cc:51-86 | without ends the pipe is then finished if it has no data, else it sends the rest; with ends nothing happens |
| `Pipes.Pipe.Fd0WriteCb` | src/firebuild/pipe.cc:154-195 | the assertion on the mode holds, the invariants are kept |
| `Pipes.Pipe.AddFd1AndProc` | src/firebuild/pipe.cc:131-152 | a new end is watched exactly in normal mode |
| `Pipes.Pipe.AcceptExecChild` | src/firebuild/message_processor.cc:183-243 | a new process's end records for all exec points above it and, if it can be shortcut, for itself |
| `Pipes.Pipe.ReplayOutput` | src/firebuild/execed_process_cacher.cc:1644-1700 | replayed data joins the stream and is recorded above, except when it was compressed |
| `Pipes.Pipe.RecorderIsExactIff` | src/firebuild/pipe_recorder.cc:274-333 | an active recorder holds exactly what its subtree wrote, if and only if all of that was told |
| `PipeRuns.Run` | src/firebuild/pipe.cc:154-534 | after every sequence of events the pipe is where the steps of these events lead: an event that does not apply changes nothing, a ready end loses a part of what came in, all of it when it is closed, to the log under its process, an exec child adds its process, end and recorder, a replay exactly its chunk; delivered bytes and buffer are always all that was taken; and which recorders are exact |
| `PipeRuns.InUseIff` | src/firebuild/message_processor.cc:228-236 | the recorders in use are those of the processes that could be shortcut when the pipe was reopened for them and have not been disabled since |
| `PipeRuns.NotToldIff` | src/firebuild/execed_process_cacher.cc:1668-1688 | what the recorders were not told is exactly what was replayed from compressed data |
| `HashCaches.UpdateDescribesIff` | src/firebuild/hash_cache.cc:37-97 | after an update an old entry describes the file exactly if no change escaped type, size, mtime and inode |
| `HashCaches.RefreshHash` | src/firebuild/hash_cache.cc:100-175 | the entry still describes the file and has its checksum, unless the file can not be read or stored |
| `HashCaches.HashCache.GetEntryWithStatinfo` | src/firebuild/hash_cache.cc:177-205 | the entry returned describes the current file; missing files are kept for read-only locations only |
| `HashCaches.HashCache.GetEntryWithStatinfoAndHash` | src/firebuild/hash_cache.cc:207-245 | the same with checksum; unknown exactly if there are too many writers |
| `HashCaches.HashCache.FileInfoMatches` | src/firebuild/hash_cache.cc:402-479 | true only if the current file satisfies the query, and exactly then if its checksum can be had |
| `HashCaches.Run` | src/firebuild/hash_cache.cc:402-479 | over any run of changes and look-ups every answer is right |
| `HashCaches.ChmodIsMissed` | src/firebuild/hash_cache.cc:69-78 | the counterexample for permission bits |
| `CacheGc.IsEntryUsable` | src/firebuild/execed_process_cacher.cc:1834-1887 | usable exactly if the inputs are and all blobs are present; collects exactly the present blobs before the first missing one |
| `CacheGc.GcObjDir` | src/firebuild/obj_cache.cc:580-634 | keeps the first usable objects of a directory, collects exactly the blobs found for the objects it looked at, accounts for every byte |
| `CacheGc.SurvivesIff` | src/firebuild/execed_process_cacher.cc:2074-2077 | a blob survives a pass exactly if an object that was looked at refers to it, with all blobs before it present |
| `CacheGc.PassLeavesUnreferencedBlob` | src/firebuild/execed_process_cacher.cc:1834-1887 | a pass can leave a blob that no object left refers to; the next one removes it |
| `CacheGc.Caches.GcBlobs` | src/firebuild/blob_cache.cc:538-633 | keeps exactly the referenced blobs, accounts for every byte |
| `CacheGc.Caches.GcPass` | src/firebuild/execed_process_cacher.cc:2074-2077 | after an object and a blob pass every object left has all its blobs; the blobs left are exactly those collected; a pass over consistent caches keeps the objects and exactly the blobs they refer to |
| `CacheGc.SortedByTime` | src/firebuild/obj_cache.cc:482-493 | lists all objects, most recently used first |
| `CacheGc.Caches.Evict` | src/firebuild/execed_process_cacher.cc:2111-2120 | removes exactly the end of the list and accounts for it |
| `CacheGc.Caches.KeepCount` | src/firebuild/execed_process_cacher.cc:2100-2108 | never asks to keep more objects than there are; stops exactly at the sixteenth ratio |
| `CacheGc.Caches.ShrinkToLimit` | src/firebuild/execed_process_cacher.cc:2091-2131 | at most 16 rounds, references kept, only a least recently used suffix evicted, and below the target unless all rounds were used |
| `CacheGc.Caches.Gc` | src/firebuild/execed_process_cacher.cc:2067-2133 | the same for the whole collection |
| `CacheGc.FindShortcut` | src/firebuild/execed_process_cacher.cc:1238-1325 | finds the first match among the candidates tried |
| `CacheGc.CollectionLosesHitIff` | src/firebuild/obj_cache.cc:580-600 | the pass loses a hit exactly if there is one and none of the first `shortcut_tries` usable objects matches |
| `CacheGc.UsableCollectionLosesHitIff` | src/firebuild/obj_cache.cc:580-600 | if all objects are usable: exactly if the only match is the candidate after the first `shortcut_tries` |
| `Canonical.MakeCanonical` | src/common/firebuild_common.c:255-324 | the in-place rewriting equals parse, drop and print, for every NUL-free path |
| `Canonical.CanonIsIdempotent` | src/common/firebuild_common.c:255-324 | keeps all components (so every ".."), keeps absoluteness, is idempotent |
| `Canonical.CanonIsNotLonger` | src/common/firebuild_common.c:255-324 | never grows |
| `Canonical.IsCanonicalIffUnchanged` | src/common/firebuild_common.c:243-253 | the check accepts exactly the paths that do not change |
| `Locations.MatchComesBefore` | src/common/firebuild_common.c:214-219 | a match by an entry with at most one slash at the end sorts before every entry that is greater than the path |
| `Locations.AnswerIsRightIff` | src/common/firebuild_common.c:186-230 | for a sorted list the answer is right exactly if no entry with several slashes at the end matches behind a location inside of it that stops the search |
| `Locations.AlwaysRightIff` | src/common/firebuild_common.c:186-230 | for a sorted list the answer is right for every path, exactly if no entry with several slashes at the end, which nothing earlier covers, follows a location inside of it |
| `Locations.NothingIsHidden` | src/common/firebuild_common.c:186-230 | right for every path without such a pair, whatever the characters |
| `Locations.EveryPairHidesSome` | src/common/firebuild_common.c:186-230 | each such pair of a list hides some path |
| `Locations.IsPathAtLocations` | src/common/firebuild_common.c:186-230 | computes the search, for every list |
| `Locations.TwoSlashesSkipAMatch` | src/common/firebuild_common.c:191-218 | a sorted list with a match for which the search answers no |
| `Base64.Encode` | src/firebuild/base64.cc:53-97 | writes the encoding of 16 or 8 bytes block by block, and a terminator |
| `Base64.EncodingPreservesOrder` | src/firebuild/base64.cc:53-97 | the encoding preserves and reflects lexicographic order and is injective, for every length |
| `Base64.SpelledIsValidAscii` | src/firebuild/base64.cc:25-45 | every encoding is accepted as an ASCII representation |
| `Subkeys.SubkeyOrder` | src/firebuild/subkey.h:43-61 | comparing subkeys compares the 64-bit keys |
| `Subkeys.SubkeyOrderIsTimeOrder` | src/firebuild/obj_cache.cc:203-207 | and the times, for nanoseconds below 10^9 and seconds below 2^34 |
| `Subkeys.DescendingIsNewestFirst` | src/firebuild/obj_cache.cc:386-405 | subkeys in reverse order are newest first |
| `Subkeys.WrappedTimeSortsAsOld` | src/firebuild/obj_cache.cc:203-207 | every time from 2^34 seconds on sorts behind some earlier one |

## Assumptions

* Checksums are injective. Strings are compared as sequences of unsigned characters. Integers are unbounded,
  except for the 64-bit subkeys; the 32-bit generation counter does not wrap.
* Processes are their creation numbers, so a parent has a smaller number; the maps keyed by pointers in the
  source are keyed by these numbers or by values.
* What the kernel does is a parameter or an arbitrary choice: sizes of reads and writes, blocking, whether a file
  can be read, the order of messages. Sorting is a function with the promises of `std::sort`.
* Ratios in garbage collection are real numbers instead of doubles.

## Left out

- The interceptor library, the message encoding, configuration, statistics and reports, debugging output.
- Fingerprints of command line, environment and inherited descriptors, which select the cache directory of a process.
- Directory listings, mkdir, rmdir, rename, chmod, symbolic links, temporary files and read-only opens with O_CREAT or O_TRUNC in the replay model; reading a directory ends its recording.
- Replay.ReplayIsSound: in a file system without permission bits and symbolic links.
- Replay.Store: the check that no input was changed by others meanwhile, directories as outputs, modes and temporary files are not in this model.
- Replay.StoreOutputs: directories and modes as outputs are not in this model.
- Replay.PioMatchesFs: the check that outputs can be written is not in this model.
- Replay.ApplyShortcut: the restored directories, the modes of files and the data appended to inherited descriptors are not in this model; the latter is in `Pipes`.
- Bookkeeping.RecordIsExact: for observations that can be true together, since a change made by a process outside the build, one generation away, is accepted by the code; and where no irregular merge occurred at or below the process.
- Locations.AlwaysRightIff: for entries without the character of value 1.
- Locations.EveryPairHidesSome: the same.
- posix_spawn children and exec children that appear before their parent's connection is closed; they are modelled as created when the source accepts them.
- The emulator case, where a process that has not terminated has an exec child.
- Lifecycle.Run: the exec chain of the root, which may be finalized before its orphans are, is not covered by what is said of the end of a run, and neither is a popen child that signs in only after its parent has terminated.
- Lifecycle.Supervisor.TryFinalize: killing the orphans of the root process is a signal sent to the outside.
- Lifecycle.Supervisor.DoFinalize: exit status, CPU time and earlier shortcutting, which also decide whether a process is stored, are an arbitrary choice.
- The timer that finishes a pipe whose last end was not reopened; the pipe may be finished at any time instead.
- Several FileFDs on one fd1 end, draining all ends at exec and exit, remapping of descriptors in epoll, and a pipe that one process inherits as two different files.
- Pipes.Pipe.AcceptExecChild: requires that a pipe reaches a process through its exec parent; in `PipeRuns.Run` other events of this kind are ignored.
- Pipes.Pipe.ReplayOutput: the same.
- Recorders.PipeRecorder.AddData: a failing reallocation is covered by `PrepareForAppend` only.
- Recorders.PipeRecorder.AddDataFromRegularFd: the same.
- Rendezvous.Diamond: a popening process sends nothing else between "popen" and "popen_parent".
- Debug files, unexpected file names, failing unlinks and the removal of empty directories in garbage collection.
- Compression of cache entries, and the storing of blobs.
