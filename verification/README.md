# File transfer agent: a verified model

The agent watches a directory in which video recorders write files, copies each file to a network
destination while it may still be growing, checks the copy and removes the source. This project models
its three hardest parts in Dafny and proves what they keep and where they fall short.
`dafny verify dfyconfig.toml` checks all of it.

**The growing-file copy** (`CopyModel`, `CopySafety`, `CopyLiveness`, `FileCopy`, `CopyPauses`, `CopyContract`,
`CopyFailures`, `CopyStrategy`, `TempFileCopy`, `Progress`, `ConflictFreeNaming`). Everything the copier cannot control is a `World`: one
`Moment` per await, holding the content of the source, the answer of a size query, how many bytes a read
hands over, and every failure. A theorem about all worlds is a theorem about all interleavings of the
recorder with the copier. `CopyModel` gives the protocol as functions, and the classes of `CopyStrategy`
and `TempFileCopy` are the program's loops, proved to compute those functions. The central result is that
comparing sizes is enough: unless the recorder rewrites a byte in place, a completed copy holds exactly
what the source held at the integrity check.

**The tracked-file state machine** (`TrackedFiles`, `OrderedDict`, `Selection`, `SelectionOrder`,
`CurrentFiles`, `Registries`, `Cleanups`, `StateManagement`, `NetworkRecovery`, `GrowthDetection`, `SpaceRetry`,
`SpaceCooldown`, `Services`,
`Lifecycle`, `LifecycleSanity`, `LifecycleSafety`, `LifecycleExact`, `LifecycleHistory`, `LifecycleRetries`,
`LifecycleEffects`, `LifecycleRecording`, `LifecycleTakeover`). `Registries` gives each
lock-protected operation of the state manager as a transition on values; the classes of
`StateManagement` and `Services` are the objects, proved to make those transitions. `Lifecycle` puts the
registry, the queue and the workers together, with one step per handler or loop iteration.
`LifecycleSanity` proves what every run keeps. One thing the program does not prevent can spoil the rest:
the cleanup by age may forget an entry whose job is queued, and the job's copy then takes over whatever
entry of the path it finds. `LifecycleTakeover` has three runs of this kind: one revives a failed entry,
one leaves two active entries on a path, one copies an entry that is still queued. `LifecycleExact` says for
every run, step by step, exactly when each of these happens; `LifecycleSafety` shows that none does while
the cleanup spares the entries of jobs.

**Directory browsing** (`DirectoryScan`, `DirectoryReach`, `DirectoryRoundTrip`, `DirectoryService`). A depth-bounded scan
flattens a file system into a list and the scan result rebuilds a tree from parent paths. Together they
give the file system, pruned, exactly when no entry below the root ran into the metadata timeout.

What each main operation does is also stated apart from the functions that define it, in terms of its inputs
alone: `CopyContract` and `CopyFailures` in terms of the settings and the world, `DirectoryReach` in terms of
names and nodes, `SelectionOrder` by the order in which statuses count, `Cleanups` and `SpaceCooldown` by the
entries' own fields, and the lemmas about the growth check by sizes and times.

Files are byte sequences, the clock is an integer, identifiers come from a counter instead of being
random, and the outcome of every foreign call is an input.

## Where the code falls short of its documentation

The model follows the code. Each of these but the last is a theorem in the
table below.

- `app/models.py:13-18` documents ReadyToStartGrowing as leading into the queue. No step of the program
  does that: only READY is announced (`app/services/scanner/file_scanner.py:343-348`) and only READY is
  queued (`app/services/job_queue.py:92-97`), so a recording that has grown to the minimum size is never
  queued (`RecordingIsNeverQueued`). One that has grown but stays below the minimum is queued, and its copy
  then waits for the minimum forever (`GrownSmallFileIsNeverDelivered`).
- The repository's own `README.md:12` promises temporary files and verification before the transfer is final. The copy
  strategy in use writes straight to the destination (`app/services/copy_strategies.py:263-277`); what
  protects the source is the size check alone (`CompletedMeansIdentical`, `RewriteDefeatsTheSizeCheck`).
- The stability timer measures time without growth, but the scanner's change check overwrites the recorded
  size without resetting it. Growth is hidden from the next check exactly if an overwrite has left more on
  record than the last sample saw (`GrowthIsSeenIff`); otherwise READY means no growth
  (`ReadyMeansNoGrowth`).
- A retry delay is meant to keep a file waiting for space. The detector's loop does not pass such files
  over, and every sample of one ends its wait, whatever is seen (`SamplePreemptsRetry`); exactly when the
  retry still finds its entry waiting is `RetryFindsItsEntryIff`.
- Finished entries are history, yet a copy whose own entry was forgotten by age can revive one
  (`ForgottenJobRevivesAFailedEntry`). Which steps revive an entry is exact (`RestsAlongIff`), and none does
  while the cleanup spares the entries of jobs (`SparingRunIsOrderly`, `TerminalEntriesStayTerminal`).
- A growing file is copied until it stops growing, but a pause counts as stopping. A copy is completed, and
  the source removed, with what was written before a pause if and only if nothing is appended until the idle
  polls are over and the sizes have been compared (`PauseCutsIff`); a recorder that never pauses that long has
  its file delivered whole (`GrowingFileIsDeliveredWhole`).
- A permanent space error has a cooldown, after which nothing happens: the entry stays in it until its
  file disappears (`SpaceErrorIsPermanent`), and terminal history of the same path hides it from the
  lookup that observes the cooldown (`CurrentIsActiveIff`, `ShouldSkipFileProcessing`).
- A copy that ends unsuccessfully without an exception leaves its entry in the copying status for good
  (`RefusedCopyIsStuck`).
- An item's relative path is documented as relative to the scan root; below the root it is only the entry's
  name (`app/domains/directory_browsing/service.py:348-355`).

## Model

| member | source | states |
|---|---|---|
| `FileCopy.CompletedMeansIdentical` | app/services/copy_strategies.py:65-221 | for every recorder that never rewrites a byte, every interleaving, read split, failure and file history: a completed copy equals the whole source at the integrity check, though only sizes are compared |
| `FileCopy.RewriteDefeatsTheSizeCheck` | app/services/copy_strategies.py:21-34 | the assumption is needed: a recorder that rewrites its first byte passes the size check with different content, and the source goes |
| `FileCopy.RestingFileCompletes` | app/services/copy_strategies.py:65-221 | a file at rest and long enough for its mode is copied whole and completed within the timeout's number of polls |
| `FileCopy.GrowingFileCompletesIffLongEnough` | app/services/copy_strategies.py:82-118 | a resting file judged to be growing can complete if and only if it has the minimum size |
| `FileCopy.EventuallyRestingCopyEnds` | app/services/copy_strategies.py:65-221 | whenever the recorder stops, the copy ends with what its last poll saw, completed exactly when nothing was appended between that poll and the check |
| `FileCopy.GrowingFileIsDeliveredWhole` | app/services/copy_strategies.py:65-221 | a file that grows during the copy is completed with its final content, if until then it never pauses for the number of awaits the loop takes idle polls to call it finished |
| `CopyContract.ReportsKeepMargin` | app/services/copy_strategies.py:223-257 | whatever happens to an append-only source: every report of the growing phase has no bytes or stays the margin of the settings behind its size, and in static mode there are none |
| `CopyContract.GrowingCopyIsMarginBehind` | app/services/copy_strategies.py:361-431 | between two fault-free polls a growing copy is exactly that margin behind the size its last poll saw, or empty, and its last report says so |
| `CopyContract.StaticCopyTakesAll` | app/services/copy_strategies.py:237-257 | in static mode the copy takes all its only poll sees, whatever the margin |
| `CopyFailures.ChecksComeEveryTenChunks` | app/services/copy_strategies.py:259-261 | at least ten and fewer than eleven chunks of the settings lie before each connectivity check that is answered; none is late in any case |
| `CopyFailures.DueCheckDecides` | app/services/copy/network_error_detector.py:97-136 | a due check raises the network error exactly if the connection is lost, and only success moves the mark |
| `CopyFailures.LostConnectionIsNoticedIff` | app/services/copy_strategies.py:458-483 | a static copy over a lost connection ends with the network error if and only if the file has ten chunks or more, and is completed otherwise |
| `CopyFailures.ExecutorNoticesLostConnectionIff` | app/services/copy/file_copy_executor.py:274-310 | the executor's loop notices one if and only if it copies at least a megabyte |
| `CopyFailures.RoundOutcome` | app/services/copy_strategies.py:458-483 | what one round reads, writes and raises, for every failure in it |
| `CopyFailures.PollOutcome` | app/services/copy_strategies.py:334-431 | when a poll exits, raises or copies, and when the file is called finished |
| `CopyFailures.CheckOutcome` | app/services/copy_strategies.py:151-177 | the check passes if and only if both sizes can be read and agree |
| `CopyFailures.EarlyFailures` | app/services/copy_strategies.py:65-149 | which outcome each failure before the loop has, and that nothing is written then |
| `CopyFailures.SizeWaitIff` | app/services/copy_strategies.py:99-118 | the size wait ends well if and only if a query sees the minimum before one fails |
| `CopyPauses.PauseCutsIff` | app/services/copy_strategies.py:65-221 | a growing copy that finds nothing appended since its last poll is completed with exactly what the source holds if and only if nothing is appended up to the comparison of sizes after the idle polls still missing |
| `CopyPauses.PauseEndsLoopIff` | app/services/copy_strategies.py:351-366 | from such a loop head exactly the idle polls still missing end the loop, with the present size, if and only if the source keeps it until the last of them; otherwise the loop goes on |
| `CopyPauses.LoopGoesOn` | app/services/copy_strategies.py:351-366 | fewer polls than idle ones are missing, or one that sees growth, do not end the loop |
| `CopyModel.EveryByteIsTraced` | app/services/copy_strategies.py:331-431 | for every recorder, at every loop head each destination byte stood at the same offset of the source earlier |
| `CopyModel.ChunkRangeTraced` | app/services/copy_strategies.py:455-526 | the same through one chunk range, which only appends and never goes past its end |
| `CopyModel.SizeMatchIsContentMatch` | app/services/copy_strategies.py:21-34 | if no byte is rewritten, equal length at any await means equal content |
| `CopyModel.DestinationIsPrefix` | app/services/copy_strategies.py:455-483 | the destination is the first `bytes_copied` bytes of the source wherever the source reaches that far |
| `CopySafety.LoopKeepsMarginAndPhase` | app/services/copy_strategies.py:331-431 | over any number of polls: while growing the copy stays the margin behind the size seen, reports never go backwards, the finished phase is never left |
| `CopySafety.PollKeepsLoopOk` | app/services/copy_strategies.py:331-431 | one poll keeps that invariant and takes time |
| `CopySafety.AdvanceReports` | app/services/copy_strategies.py:361-431 | the copying part of a poll keeps the reports in order and within the limit of its phase |
| `CopySafety.LoopChecksAreWellSpaced` | app/services/copy/network_error_detector.py:97-136 | through the whole loop fewer than interval + chunk bytes lie between successive attempted checks, and fewer than the interval after the last |
| `CopySafety.ChecksAreWellSpaced` | app/services/copy_strategies.py:458-483 | the same through one chunk range |
| `CopyLiveness.ChunkRangeIsExact` | app/services/copy_strategies.py:452-526 | without a fault the chunk loop ends exactly at the requested offset of an append-only source, however reads are split |
| `CopyLiveness.CopyLoopTerminates` | app/services/copy_strategies.py:331-431 | if the source stands still after k polls, the loop ends within k + max_no_growth_cycles + 1, whatever faults occur |
| `CopyLiveness.IdleLoopEnds` | app/services/copy_strategies.py:351-366 | a resting source ends the loop after the idle polls still missing |
| `CopyLiveness.CalmExitIsComplete` | app/services/copy_strategies.py:331-431 | without faults an ended loop has copied exactly the size its last poll saw |
| `CopyLiveness.FinishedPollIsLast` | app/services/copy_strategies.py:361-431 | a poll in the finished phase is the last: it copies to the end or raises |
| `CopyLiveness.LoopDeliversWhole` | app/services/copy_strategies.py:331-431 | without faults the loop ends with the final content of a source that does not pause for so long |
| `CopyLiveness.FinishedIsFinal` | app/services/copy_strategies.py:351-366 | when the loop takes such a source to be finished, it is |
| `CopyStrategy.NetworkErrorDetector.CheckDestinationConnectivity` | app/services/copy/network_error_detector.py:97-136 | probes when a check is due; only a successful probe moves the mark |
| `CopyStrategy.GrowingFileCopyStrategy.CopyOneRound` | app/services/copy_strategies.py:458-483 | one read, write, check and report makes the protocol's round |
| `CopyStrategy.GrowingFileCopyStrategy.CopyChunkRange` | app/services/copy_strategies.py:433-526 | the chunk loop computes the protocol's chunk range on the real destination and detector |
| `CopyStrategy.GrowingFileCopyStrategy.GrowingCopyLoop` | app/services/copy_strategies.py:310-431 | the two-phase loop computes the protocol's run |
| `CopyStrategy.GrowingFileCopyStrategy.AdvanceCopy` | app/services/copy_strategies.py:361-431 | the copying half of an iteration computes the protocol's advance |
| `CopyStrategy.GrowingFileCopyStrategy.CopyGrowingFile` | app/services/copy_strategies.py:223-308 | opens the destination, picks the mode and margin, and computes the protocol's copy |
| `CopyStrategy.GrowingFileCopyStrategy.CopyOneFile` | app/services/copy_strategies.py:65-221 | the whole method computes the modelled copy; its reports keep the margin of the settings, and the destination it wrote, when completed, is the whole source at the check |
| `CopyStrategy.GrowingFileCopyStrategy.WaitForMinimum` | app/services/copy_strategies.py:82-118 | the size wait computes the modelled wait |
| `CopyStrategy.GrowingFileCopyStrategy.FinishCopy` | app/services/copy_strategies.py:151-177 | completed exactly if both sizes can be read and agree |
| `TempFileCopy.FileCopyExecutor.CopyWithTempFile` | app/services/copy/file_copy_executor.py:121-197 | exactly when it succeeds; in every state the disk passes through the destination holds its old content or the whole static source; failure leaves it as it was; and exactly when the temporary file stays behind |
| `TempFileCopy.FileCopyExecutor.CopyDirect` | app/services/copy/file_copy_executor.py:199-256 | when it succeeds, and exactly when the destination ends up with its old content or the whole source, over every failing call and whether the destination existed |
| `TempFileCopy.DirectCopyLeavesAFragment` | app/services/copy/file_copy_executor.py:199-256 | with a read failing halfway the destination is all-or-nothing only if it held that very fragment before |
| `TempFileCopy.FileCopyExecutor.PerformCopy` | app/services/copy/file_copy_executor.py:258-364 | writes exactly what draining the source gives and reports exactly the due percents |
| `TempFileCopy.FileCopyExecutor.CopyOneChunk` | app/services/copy/file_copy_executor.py:281-330 | one chunk touches only the file being written |
| `TempFileCopy.FileCopyExecutor.ReportProgress` | app/services/copy/file_copy_executor.py:286-336 | adds the percent now reached exactly when it is due |
| `TempFileCopy.DrainCopiesAll` | app/services/copy/file_copy_executor.py:258-364 | every stop leaves a prefix of the source, a stop without a fault all of it |
| `TempFileCopy.CopiedPrefix` | app/services/copy/file_copy_executor.py:366-389 | a copied file that passes the size check is the source, and without faults it passes unless chunks are empty |
| `Progress.ReportsAreSparse` | app/utils/progress_utils.py:23-57 | reports of one copy increase strictly, end with 100 and number at most floor(99 / interval) + 1 |
| `Progress.BoundIsAttained` | app/utils/progress_utils.py:23-57 | a copy attains that bound for every interval below 100 |
| `Progress.ReportsSnoc` | app/services/copy/file_copy_executor.py:286-336 | remembering only the last reported percent is enough to decide the next report |
| `Progress.PercentIsMonotone` | app/utils/progress_utils.py:6-20 | more bytes never mean a smaller percent |
| `ConflictFreeNaming.GenerateConflictFreePath` | app/utils/file_operations.py:14-44 | the free name with the least number, put in as an underscore and the number in decimal before the first dot; an error exactly when all 10000 are taken, never with fewer than 10000 existing files |
| `ConflictFreeNaming.CandidateIsNumbered` | app/utils/file_operations.py:22-36 | candidate k is the path with number k put in there |
| `ConflictFreeNaming.DecimalIsDecimal` | app/utils/file_operations.py:29-31 | the digits written are read back as the number, without leading zeros |
| `ConflictFreeNaming.SomeCandidateIsFree` | app/utils/file_operations.py:14-44 | pigeonhole over 10000 distinct candidates |
| `ConflictFreeNaming.CandidatesAreDistinct` | app/utils/file_operations.py:22-36 | different suffixes give different names, whatever dots the name has |
| `ConflictFreeNaming.NoDestinationIsReused` | app/services/consumer/job_file_preparation_service.py:72-82 | over any run of one worker no job opens a destination that existed before or that an earlier job opened |
| `TrackedFiles.ActiveIsNotTerminal` | app/models.py:9-45 | statuses split into active and terminal ones |
| `OrderedDict.Dict.Put` | app/core/file_repository.py:34-41 | replacing keeps the place, adding goes to the end, keys stay distinct |
| `SelectionOrder.PickCountsFirst` | app/services/state_manager.py:62-132 | for each of the three tables: the entry picked has the first status of the source's own order that an eligible entry has, and among those that count alike was discovered last, or added first; one is picked whenever one is eligible |
| `SelectionOrder.CompletedIsShown` | app/services/state_manager.py:79-82 | a path with a completed entry and no active one shows, and is counted as, completed |
| `Selection.FirstBestIsUnique` | app/services/state_manager.py:265-287 | there is only one such entry |
| `Selection.TablesAgreeIff` | app/services/state_manager.py:265-287 | lookup and fold pick the same entry, except exactly when the fold picks a network wait beside a space wait of the path |
| `Selection.TablesAgree` | app/services/state_manager.py:62-89 | with one active entry per path they always agree |
| `Selection.ActiveEntryIsPicked` | app/services/state_manager.py:91-132 | the active lookup finds the path's active entry |
| `Selection.CurrentIsActiveIff` | app/services/state_manager.py:62-89 | the lookup by path shows the active entry, except exactly a permanent space error beside terminal history |
| `CurrentFiles.LatestIsPick` | app/services/state_manager.py:289-298 | the fold's table holds, for each path, what the path's own selection picks |
| `CurrentFiles.LatestCoversPaths` | app/services/state_manager.py:436-472 | the table has exactly the tracked paths |
| `CurrentFiles.CountsSumToPaths` | app/services/state_manager.py:436-472 | per-status counts add up to the number of distinct tracked paths |
| `CurrentFiles.TotalSizeAddsUp` | app/services/state_manager.py:436-472 | the total size is that of a single entry and adds up over parts of the list |
| `Registries.AddFileIsSound` | app/services/state_manager.py:134-177 | adding returns the path's active entry, or a new discovered one with exactly the fields given, changes no other and never makes a second active one |
| `Registries.UpdateKeepsOneActiveIff` | app/services/state_manager.py:377-434 | the unguarded update keeps one active entry per path if and only if it deactivates the entry or no other of its path is active |
| `Registries.UpdateIsSound` | app/services/state_manager.py:377-434 | an update that does not make an inactive entry active keeps all invariants and revives nothing |
| `Registries.CancelRetryIsSound` | app/services/state_manager.py:507-526 | cancelling keeps all invariants |
| `Registries.ScheduleRetryIsSound` | app/services/state_manager.py:474-501 | scheduling replaces: the entry has the new retry only, backed by its task, and other tasks stay |
| `Registries.FireOnlyWakesWaiting` | app/services/state_manager.py:528-549 | firing makes ready exactly an entry still waiting with its retry, touches no other status, and otherwise leaves its task in the table |
| `Registries.FireRetryIsSound` | app/services/state_manager.py:528-549 | firing keeps all invariants and revives nothing, even after a cleanup left the retry in place |
| `Registries.IncrementIsSound` | app/services/state_manager.py:582-595 | counting a retry changes the count alone |
| `Cleanups.MissingFileIsMarkedIff` | app/services/state_manager.py:300-334 | an entry is marked removed if and only if its path is missing, it counts first on it, and its status is one of the eight pending ones |
| `Registries.CleanupMissingIsSound` | app/services/state_manager.py:300-334 | at most one entry per path is changed, only into Removed, never a completed, queued or copying one |
| `Registries.CleanupMissingCounts` | app/services/state_manager.py:300-334 | the number of entries changed is the number that stop being present |
| `Registries.CleanupComesToRest` | app/services/state_manager.py:300-334 | repeated with the same paths it reaches a fixpoint within as many rounds as entries are present |
| `Registries.CleanupOldIsSound` | app/services/state_manager.py:336-365 | exactly the entries go that were completed, or else failed, or else discovered before the cutoff, whatever their status; their retry tasks stay |
| `Cleanups.FinishedEntryIsKeptIff` | app/services/state_manager.py:377-434 | an entry first completed or failed at time t is kept while the cutoff is not after t, whenever it was discovered and however often that status is written again |
| `Cleanups.UnfinishedEntryIsKeptIff` | app/services/state_manager.py:344-350 | one never finished is kept while the cutoff is not after its discovery |
| `NetworkRecovery.RecoveryLeavesNoneWaiting` | app/services/job_queue.py:133-172 | recovery sets every entry waiting for the network to discovered and changes no other, though the query lists one entry per path |
| `NetworkRecovery.RecoveryTouchesOnlyWaiting` | app/services/job_queue.py:133-172 | even with several active entries of a path it changes only entries that waited |
| `StateManagement.StateManager.PickForPath` | app/services/state_manager.py:62-132 | one pass over all entries computes the selection |
| `StateManagement.StateManager.AddFile` | app/services/state_manager.py:134-177 | makes the modelled transition and returns a tracked active entry of the path |
| `StateManagement.StateManager.GetFileByPath` | app/services/state_manager.py:179-184 | the entry that counts first, unless it is marked removed |
| `StateManagement.StateManager.ShouldSkipFileProcessing` | app/services/state_manager.py:186-217 | a path is skipped exactly if all its entries are space errors and the newest is in cooldown; with one active entry per path, exactly if it has a space error in cooldown and no terminal history |
| `StateManagement.StateManager.CancelExistingRetry` | app/services/state_manager.py:507-526 | takes the retry off table and entry, and says whether there was one |
| `StateManagement.StateManager.UpdateFileStatusById` | app/services/state_manager.py:377-434 | makes the modelled transition: status, retry dropped on a terminal status, attributes, stamps |
| `StateManagement.StateManager.ScheduleRetry` | app/services/state_manager.py:474-501 | makes the modelled transition |
| `StateManagement.StateManager.ExecuteRetryTask` | app/services/state_manager.py:528-565 | what a retry does once its sleep is over |
| `StateManagement.StateManager.IncrementRetryCount` | app/services/state_manager.py:582-595 | counts and returns the new count, 0 for an unknown entry |
| `StateManagement.StateManager.CurrentByPath` | app/services/state_manager.py:289-298 | the fold computes the table of current entries |
| `StateManagement.StateManager.GetFilesByStatus` | app/services/state_manager.py:289-298 | one entry per path with that status |
| `StateManagement.StateManager.CleanupMissingFiles` | app/services/state_manager.py:300-334 | makes the modelled transition and returns exactly the number of entries changed |
| `StateManagement.StateManager.CleanupOldFiles` | app/services/state_manager.py:336-365 | forgets exactly those entries, keeps the order of the rest and returns their number |
| `StateManagement.StateManager.GetStatistics` | app/services/state_manager.py:436-472 | counts and size over current entries; the counts sum to the number of distinct paths |
| `GrowthDetection.FollowKeepsTimer` | app/services/growing_file_detector.py:90-111 | over any trace a set stability time is the time of a sample after which no sample grew |
| `GrowthDetection.ReadyIsSound` | app/services/growing_file_detector.py:137-206 | READY is recommended only if for at least the timeout no sample saw more than was on record |
| `GrowthDetection.QuietMeansNoGrowth` | app/services/growing_file_detector.py:90-111 | if no sample met more on record than the one before had seen, that means the sizes did not grow |
| `GrowthDetection.LowOverwritesUnmask` | app/services/scanner/file_scanner.py:272-289 | overwrites that leave no more on record than the last sample saw keep the record such a one |
| `GrowthDetection.SamplingKeepsRecordLow` | app/services/growing_file_detector.py:228-258 | samples alone do |
| `GrowthDetection.ReadyMeansNoGrowth` | app/services/growing_file_detector.py:90-206 | together: for every trace whose overwrites do so, READY means that since a sample at least the timeout ago no sample was larger |
| `GrowthDetection.GrowthIsSeenIff` | app/services/scanner/file_scanner.py:272-289 | the next check resets the timer for every size larger than the last sample if and only if no overwrite has left more on record than that sample saw |
| `GrowthDetection.ConstantFileIsReleased` | app/services/growing_file_detector.py:137-206 | a file constant for the timeout is no longer recommended Discovered or Growing |
| `GrowthDetection.GrowthRecommendationIff` | app/services/growing_file_detector.py:137-206 | for each of ReadyToStartGrowing, Growing, Ready and Discovered, exactly when it is recommended, by growth at the sample, growth ever, rest for the timeout and the minimum size |
| `GrowthDetection.RecommendationIff` | app/services/growing_file_detector.py:57-85 | a missing file is removed, an unreadable one fails, one never sampled stays discovered |
| `GrowthDetection.CheckRecords` | app/services/growing_file_detector.py:67-125 | what a check stores, first and later |
| `GrowthDetection.RateIsGrowth` | app/services/growing_file_detector.py:78-88 | the rate times the time since the last check is the growth since the first, in megabytes |
| `GrowthDetection.NoteRecords` | app/services/growing_file_detector.py:214-258 | what the scanner's bookkeeping stores |
| `GrowthDetection.SampledFileIsCopiedGrowingIff` | app/services/copy_strategies.py:528-584 | a queued file is copied in growing mode if and only if it is longer than when first seen or changed since the check before |
| `GrowthDetection.GrownLargeFileIsNeverReady` | app/services/growing_file_detector.py:137-206 | a file grown to the minimum size is never recommended READY |
| `GrowthDetection.GrownSmallFileIsNeverDelivered` | app/services/copy_strategies.py:82-118 | a grown file recommended READY starts as a growing copy that, while it rests, never completes |
| `SpaceRetry.TemporaryIff` | app/models.py:381-398 | the shortage is temporary exactly when 5 x available > 4 x required |
| `SpaceRetry.HandleShortageEffect` | app/services/consumer/job_space_manager.py:55-131 | which of the four outcomes a shortage has, with exact status, count, delay and retry; no other entry changes |
| `SpaceRetry.HandleShortageIsSound` | app/services/space_retry_manager.py:19-124 | a shortage of an active entry keeps one active entry per path and revives nothing |
| `SpaceCooldown.GivenUpIsLeftAloneIff` | app/services/state_manager.py:186-217 | a path given up for want of space at time t is left alone exactly until the cooldown since t has passed, unless it has finished history |
| `Services.GrowingFileDetector.CheckFileGrowthStatus` | app/services/growing_file_detector.py:43-212 | recommends exactly the right status by sizes and times, and stores exactly the modelled growth fields |
| `Services.GrowingFileDetector.UpdateFileGrowthInfo` | app/services/growing_file_detector.py:214-258 | stores the scanner's bookkeeping, keeping the status |
| `Services.GrowingFileDetector.SampleFile` | app/services/growing_file_detector.py:283-300 | check and status change together make the modelled sample |
| `Services.GrowingFileDetector.MonitorOnce` | app/services/growing_file_detector.py:260-312 | one undisturbed iteration: the files chosen once at its start are sampled in turn, and no entry that a job has or had in hand moves |
| `Services.JobQueueService.HandleFileReady` | app/services/job_queue.py:80-110 | makes the modelled step: queue a ready file, or let it wait for the network |
| `Services.JobQueueService.GetNextJob` | app/services/job_queue.py:202-218 | first in, first out |
| `Services.JobQueueService.ProcessWaitingNetworkFiles` | app/services/job_queue.py:133-172 | the loop of updates makes the modelled recovery |
| `Services.JobSpaceManager.HandleSpaceShortage` | app/services/consumer/job_space_manager.py:55-131 | makes the modelled transition |
| `Services.JobSpaceManager.ScheduleSpaceRetry` | app/services/space_retry_manager.py:19-121 | the same for an accessible destination; a zero requirement raises |
| `LifecycleSanity.EveryReachableStateIsSane` | app/services/job_queue.py:80-110 | in every state reachable by any steps whatever: a task behind every retry, queued and running jobs for different entries, each marked as in hand, and waits and delays for space bounded |
| `LifecycleSanity.EveryRunIsSane` | app/services/consumer/job_processor.py:73-142 | every run from a sane state ends in one |
| `LifecycleSanity.StepKeepsSane` | app/services/consumer/job_processor.py:73-142 | every step keeps the agent sane, whatever entry a copy reports to |
| `LifecycleSanity.FreeStepEvolves` | app/services/growing_file_detector.py:260-312 | steps outside the queue and the workers make free moves only, keep one active entry per path, and only the cleanup by age forgets |
| `LifecycleEffects.ReadyEventEffect` | app/services/job_queue.py:80-131 | a ready event puts a ready file last in the queue with its path, or has it wait for the network; any other changes nothing |
| `LifecycleEffects.TakingEffect` | app/services/job_queue.py:202-218 | a worker takes the job queued first |
| `LifecycleEffects.WorkerEffect` | app/services/consumer/job_processor.py:73-142 | which status each step of a worker leaves in the entry it writes, and when the retries are forgotten |
| `LifecycleEffects.JobsMoveOn` | app/services/consumer/job_processor.py:73-142 | a worker lets go of its job exactly when the job is over |
| `LifecycleSanity.JobStepIsWorkerStep` | app/services/consumer/job_copy_executor.py:38-129 | a worker's step writes one entry, its own or the one its copy reports to, and gives no one a job |
| `LifecycleSanity.ShortageIsWorkerStep` | app/services/space_retry_manager.py:19-124 | a scheduled wait raises the wait count with the retry count, below the maximum |
| `LifecycleSanity.StaleSampleEvolvesIff` | app/services/growing_file_detector.py:264-300 | a sample chosen earlier and written now moves no busy or finished entry if and only if the entry would still be chosen, or the recommendation changes nothing or removes a failed one |
| `LifecycleExact.LateStatusIsHarmlessIff` | app/services/state_manager.py:56-60 | a status change applied late keeps the agent sane with one active entry per path if and only if a job's entry stays marked busy, an entry made active is alone on its path, and its waits are still covered |
| `LifecycleExact.EveryReachableStateIsSafeIff` | app/services/state_manager.py:91-177 | over every run from the start: each path has one active entry throughout if and only if no worker makes an entry active beside another, and queued entries are in the queue status throughout if and only if no copy reports to one |
| `LifecycleExact.OneActiveAlongIff` | app/services/state_manager.py:377-434 | the first half from any sane state |
| `LifecycleExact.StepKeepsOneActiveIff` | app/services/copy_strategies.py:458-526 | its step: starting a copy, reporting for one, and giving one up to wait are the writes that matter, and only beside another active entry |
| `LifecycleExact.RestsAlongIff` | app/services/state_manager.py:377-434 | over every run a finished entry stays finished, or is forgotten, if and only if no worker makes it active |
| `LifecycleExact.QueueMarkedAlongIff` | app/services/job_queue.py:174-200 | the second half from any sane state |
| `LifecycleSafety.EveryReachableStateIsSafe` | app/services/state_manager.py:336-365 | if the cleanup by age spares the entries of jobs, every reachable state has one active entry per path and queued entries in the queue status |
| `LifecycleSafety.StepIsSafe` | app/services/consumer/job_processor.py:73-142 | every step keeps the agent's invariant, if the copy it may locate reports to its own entry |
| `LifecycleSafety.SparingRunIsOrderly` | app/services/state_manager.py:336-365 | if no cleanup by age forgets an entry that has a job, every run meets that condition at every step |
| `LifecycleSafety.ReadyIsSafe` | app/services/job_queue.py:80-110 | a ready event queues exactly a ready file with the network up, and repeating it changes nothing |
| `LifecycleSanity.EnqueueKeepsDistinctIff` | app/services/job_queue.py:174-200 | queueing keeps jobs distinct if and only if the entry has none yet |
| `LifecycleSafety.EnqueueIsSafeIff` | app/services/job_queue.py:174-200 | the handler's second half, queueing at a later moment, keeps the invariant if and only if the entry has no job, no other of its path is active, and its waits are still covered |
| `LifecycleSanity.TakeIsSane` | app/services/job_queue.py:202-218 | in any run a job taken is never already running |
| `LifecycleSafety.CopyReportsToItsOwnEntry` | app/services/copy_strategies.py:132-141 | during a copy the lookup by path finds the job's own entry |
| `LifecycleSafety.CopyReportsToItsOwnEntryIff` | app/services/copy_strategies.py:132-141 | a copy reports to its own entry if and only if the entry is still tracked or the lookup by path shows nothing |
| `LifecycleSafety.WorkerStepIsSafe` | app/services/consumer/job_finalization_service.py:66-95 | starting, reporting, completing, finalising, failing and a shortage keep one active entry per path and every job with its entry |
| `LifecycleHistory.StepMoves` | app/services/growing_file_detector.py:264-282 | in any run nothing moves an entry into a queued or copying status, or out of one or a finished one except into Removed, but its own job, a ready event, or a copy that reports to it; and only a ready entry gets a job |
| `LifecycleHistory.NeverTriedAgain` | app/services/job_queue.py:80-110 | in any run a finished, failed, given-up or abandoned entry never gets a job again |
| `LifecycleHistory.TerminalEntriesStayTerminal` | app/services/state_manager.py:528-549 | in particular nothing revives one in a run whose copies look up their own entries: completed stays completed, removed removed, failed failed or removed |
| `LifecycleTakeover.ForgottenJobRevivesAFailedEntry` | app/services/copy_strategies.py:132-141 | a run from the start in which an entry is forgotten after an hour in the queue and its job's copy revives a failed entry |
| `LifecycleTakeover.ForgottenJobLeavesTwoActiveEntries` | app/services/copy_strategies.py:132-141 | one in which a path ends up with two active entries |
| `LifecycleTakeover.ForgottenJobCopiesAQueuedEntry` | app/services/copy_strategies.py:132-141 | one in which an entry still queued is being copied by another job |
| `LifecycleHistory.ForgottenForGood` | app/services/state_manager.py:336-365 | a forgotten entry is never tracked again |
| `LifecycleHistory.RefusedCopyIsStuck` | app/services/consumer/job_processor.py:107-113 | after a refused copy the entry stays in its copying status over every run whose copies look up their own entries |
| `LifecycleHistory.RefusedCopyIsNeverTriedAgain` | app/services/consumer/job_processor.py:107-113 | and in any run at all it never gets another job |
| `LifecycleHistory.SpaceErrorIsPermanent` | app/services/space_retry_manager.py:95-121 | in any run a permanent space error is never queued again, and unless another entry's copy takes it over it is left only into Removed |
| `LifecycleRetries.SamplePreemptsRetry` | app/services/growing_file_detector.py:264-300 | every sample of an entry waiting for space ends its wait, whatever is seen, while an unfinished entry's retry sleeps on |
| `LifecycleRetries.ShortageStartsWait` | app/services/space_retry_manager.py:37-93 | a scheduled wait leaves the entry waiting, with a task due after the short or the full delay |
| `LifecycleRetries.StepEndsWaitIff` | app/services/state_manager.py:474-565 | a step ends the wait if and only if it fires or cancels the retry, samples, marks or forgets the entry, or copies it for a forgotten one |
| `LifecycleRetries.RetryFindsItsEntryIff` | app/services/state_manager.py:528-549 | over any run the entry waits all along if and only if no step is one of those, and then its retry can fire and makes it ready |
| `LifecycleHistory.RacingHandlersQueueTwice` | app/services/job_queue.py:96-100 | two handlers of one ready file: in turn they queue it once and keep the invariant, both looking before either queues they queue it twice |
| `LifecycleRecording.RecordingIsNeverQueued` | app/services/scanner/file_scanner.py:314-358 | over any run in which it does not shrink, a recording grown to the minimum size never gets a job |
| `LifecycleRecording.RecordingStaysGrowing` | app/services/scanner/file_scanner.py:314-358 | and if copies look up their own entries it stays growing until it is gone |
| `DirectoryScan.ScanIsLayered` | app/domains/directory_browsing/models.py:91-103 | depth strictly grows from a directory to the items grouped under it, so rebuilding ends |
| `DirectoryScan.ScanGroupBelow` | app/domains/directory_browsing/service.py:221-291 | what the list groups under an entry's path is what scanning that entry groups there |
| `DirectoryReach.ScannedItemsIff` | app/domains/directory_browsing/service.py:212-291 | an item is listed if and only if it describes, field by field, a node with metadata reached from the target through at most the depth's number of listable directories whose names do not start with a dot |
| `DirectoryReach.SubdirItemsIff` | app/domains/directory_browsing/service.py:256-281 | what the recursive part adds is what is reached through one of the entries |
| `DirectoryScan.DirectoryIsPruned` | app/domains/directory_browsing/models.py:70-110 | the children rebuilt below a scanned directory are its pruned entries |
| `DirectoryRoundTrip.RebuildIsPruned` | app/domains/directory_browsing/models.py:70-110 | for every file system and every metadata outcome: the rebuilt tree is the pruned file system followed by the bare items of timed-out entries |
| `DirectoryRoundTrip.RoundTripIffPunctual` | app/domains/directory_browsing/service.py:221-291 | the round trip is exact if and only if no scanned entry below the root timed out |
| `DirectoryRoundTrip.EveryItemOnce` | app/domains/directory_browsing/models.py:70-110 | the tree holds every scanned item exactly once |
| `DirectoryService.PerformDirectoryScan` | app/domains/directory_browsing/service.py:153-304 | the recursive loop computes the modelled list, or reports an inaccessible target |
| `DirectoryService.ScanSubdirectories` | app/domains/directory_browsing/service.py:256-291 | visible directories in listing order, inaccessible ones skipped: exactly what is reached through one of the entries |
| `DirectoryService.ListLevel` | app/domains/directory_browsing/service.py:212-257 | one item per readable entry, in listing order |
| `DirectoryService.GroupByParent` | app/domains/directory_browsing/models.py:75-88 | dictionary and root list agree with the grouping of the list |
| `DirectoryService.AddChildrenTo` | app/domains/directory_browsing/models.py:91-103 | the recursive closure hangs exactly the grouped items below an item |
| `DirectoryService.BuildTreeStructure` | app/domains/directory_browsing/models.py:70-110 | the loops rebuild the modelled tree |
| `DirectoryService.ScanDirectory` | app/domains/directory_browsing/service.py:153-304 | scan and rebuild together, for every target, recursive or not: inaccessible and empty, or exactly the items reached, each once, in a tree that is exact exactly when punctual |

## Left out

- CompletedMeansIdentical: speaks of the moment of the integrity check; a byte appended between the check and the removal of the source is outside it.
- CopyFile: a failing write is taken to write nothing, and buffering between the program and the destination is not modelled.
- CopyChunk: throttling pauses, transfer speeds and progress events carry no state the copy depends on; a copy is observed for a bounded number of polls, and every theorem is for all bounds.
- IsCurrentlyGrowing: the growth rate is an exact rational, not a floating-point number.
- PercentInt: exact integer percent instead of a truncated floating-point one.
- CopyReportsToItsOwnEntry: jobs hold ids; that a job and the repository share one mutable object is not modelled, nor are fields such as error messages and progress.
- RacingHandlersQueueTwice: handlers are atomic steps of a run; the interleaving inside one handler between its status check and its update is stated by this lemma and by `EnqueueIsSafeIff` instead of being a run.
- MonitorOnce: the list of files is chosen once, but nothing else happens during the iteration, and in a run a sample is one step, enabled while the entry's status would still be chosen; the program awaits file operations in between, and `StaleSampleEvolvesIff` gives the exact condition for a sample whose choice is stale.
- EveryReachableStateIsSane: a status change announced on the event bus is applied in the same step; for one applied later `LateStatusIsHarmlessIff` gives the exact condition.
- RetryFired: a fired retry makes its entry ready without announcing it; since ready events may arrive at any time in the model, it does not show such an entry waiting for the announcement.
- NoDestinationIsReused: one worker, and no other writer to the destination; several workers may choose the same name, since nothing is reserved between the choice and the opening.
- Candidate: file systems that ignore case, and names of paths without a file name, are not modelled.
- ScanDirectory: the timeout of the whole scan, item times, and the totals computed beside the tree, which are plain counts of the list.
- CheckLink: the listing by which the destination is probed and the classification of error texts are the three outcomes of `Link` and the `Fault` of a call.
- ExecuteRetryTask: the sleep is the guard of the step `RetryFired`; cancellation of a sleeping task removes it before it wakes.
- NetworkRecovered: may happen at any time, as one step; which changes of the storage status trigger it, and what other steps do to a listed entry before its own update (`LateStatusIsHarmlessIff` says when that update is harmless), is not modelled.
- The output folder template engine: the destination of a job is an arbitrary path.
- Cancelling all retries at shutdown, starting and stopping of workers, the record of failed jobs, subscribers, the web interface, mounting of shares and storage monitoring.
