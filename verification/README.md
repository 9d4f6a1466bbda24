# Verified model of the launcher toolkit's core algorithms

A Dafny model of the parts of the toolkit where a mistake corrupts files or
hangs a launcher: the segmented downloader, the install manifest executor and
its file transactions, the instance updater, the byte buffer with its varints
and the packet streams over it, packed block states, and version resolution.

Code that works by changing things step by step is modelled as classes and
loops; each method is proved against a function on values, and the properties
are lemmas about those functions. Code that is an expression is a function.
`dafny verify dfyconfig.toml` checks everything.

## Files

| area | files |
|---|---|
| segmented download | `SegmentLoop`, `RetryCounts` (how often each URL is tried), `ControlledHandler`, `HandlerOutcomes` (one attempt), `SharedFile`, `SharedFileInvariant`, `SharedFileSafety` (all segments and the file), `RangedDownload` (results), `DownloadAttempts` (how many requests), `DownloadExact`, `StreamExact` (when a finished download is the source), `DownloadReach`, `DownloadGaps`, `DownloadWitnesses` (when it is not), `DownloadObjects` (objects with fields), `Tiling`, `RangePolicy` |
| admission control | `DispatcherState` (steps on values), `ConcurrencyDispatcher` (the class, with reentrant foreign code) |
| install manifest | `TaskGraph` (search), `TaskRun`, `TaskStarts` (every run of the event loop), `ManifestExecutor` (the object), `InstallFiles`, `InstallTransaction`, `InstallRuntime` (materialize) |
| instance update | `InstanceDelta` (classification), `InstanceSwap` (backup and rename), `InstanceUpdate` (both together) |
| bytes | `Varint`, `Varint64`, `Buffers`, `DebugText`, `DebugGrammar`, `DebugCodec`, `Channel`, `ChannelStreams` |
| block states | `Bits`, `Level`, `LevelDecoding` |
| versions | `VersionChain`, `VersionMerge`, `MergeRules`, `LibraryKeys`, `LibraryOrder`, `VersionResolve` (the objects), `Text`, `MavenName` |
| failing inputs | `FailingInputs` |

## What the proofs show about the code

Most results are unconditional. Where the code does not meet the property one
would expect, the project keeps the code as it is, proves when it does meet the
property, and gives an input for which it does not:

- A stalled attempt is abandoned while its last writes may not have landed, and
  the next attempt resumes behind them. Every byte of a split download is written
  once, so a download in which every segment has finished equals the source if
  and only if nothing but empty writes is in flight
  (`DownloadExact.RangedFinishedIff`). A download that never leaves an attempt
  with a write pending is safe (`DownloadExact.PatientDownloadIsSource`); leaving
  one with bytes in flight allows a run that finishes with a gap
  (`DownloadGaps.LeavingPendingAllowsGap`, `DownloadWitnesses.LateWriteLeavesGap`).
- The single-stream fallback never compares the start of a 206 with the offset
  it asked for. As long as every byte below that start is on disk or being
  written, finishing means the file is the source
  (`RangedDownload.WholeFileSafe`) once the split's leftovers have landed. A stream
  that never leaves an attempt with a write pending need not wait for them, if
  each 206 starts where it was asked to or past nothing missing from the disk
  (`StreamExact.PatientStreamIsSource`). A response from past a missing byte
  allows a run that finishes without it (`DownloadGaps.MisalignedAllowsGap`,
  `DownloadWitnesses.UnalignedResponseLeavesGap`).
- A 64-bit varint comes back as written if and only if it fits 32 signed bits
  or its bit 31 is clear; a zigzag one if and only if its code does
  (`Varint64.RoundTrip64`, `Varint64.RoundTripZigZag64`,
  `FailingInputs.Varint64Fails`, `FailingInputs.ZigZag64Fails`).
- The packet decoder moves a packet's payload out of its buffer but not the
  length header. Two packets in one chunk arrive as they are if and only if those
  stale bytes and the second header read as the second length, for which all of
  the stale bytes need the continuation bit (`Channel.TwoPacketsIff`,
  `Channel.IntactMeansContinued`, `Channel.TwoPacketsIntact`,
  `Channel.TwoPacketsMisread`); two empty packets in one chunk make its loop run
  for ever (`Channel.CoalescedEmptyPacketsLoop`).
- The straddling block-state reader shifts signed words arithmetically. For
  words as the NBT reader delivers them, an entry is read back if and only if it
  lies in one word, or its last bit in the first word is clear, or all its bits
  in the second word are set (`LevelDecoding.SignedStraddlingDecodesIff`,
  `FailingInputs.SignedStraddlingFails`).
- A failed rename stage restores the instance, whichever renames had finished, if
  and only if the update replaces no existing unmodified file alongside another
  file to rename (`InstanceUpdate.RollbackRestoresIff`,
  `InstanceUpdate.AtRiskIsLost`, `FailingInputs.RollbackFails`). Which files
  an update destroys is stated exactly (`InstanceUpdate.LostFiles`): among them a
  file only the old manifest names, if nothing is known about whether it was
  modified (`FailingInputs.DroppedIsLost`).
- A merge lists every library declared anywhere once, if and only if no two of one
  group share the text `artifact-classifier;` that the code tells them apart by
  (`LibraryKeys.AllListedIff`, `FailingInputs.ClashingLibraryIsLost`).
- A Maven path gives back its coordinate if and only if the file name does not
  start with the version string, which the code takes for a snapshot
  (`MavenName.PathRoundTripIff`, `FailingInputs.PathRoundTripFails`).
- Following `inheritsFrom` never ends if and only if the links run into a closed
  circle of parsed files, none of whose links leads to the id of a version
  already read (`VersionChain.NeverEndsIffLasso`,
  `VersionChain.ForeignIdNeverEnds`); where ids are directory names it always
  ends (`VersionChain.WalkEnds`).
- The debug notation is restored if and only if offset and limit lie within the
  buffer and the mark is -1 or within it (`DebugText.RoundTripIff`,
  `FailingInputs.DebugRoundTripFails`).

## Model

Paths are relative to the root of the modelled repository.

| member | source | states |
|---|---|---|
| SegmentLoop.TurnSpendsBudget | packages/file-transfer/download.ts:416-584 | every turn of the retry loop, whatever the attempt reports, either leaves the loop or strictly lowers a non-negative measure over URL index, resumes, commitment, restart and no-progress count |
| SegmentLoop.AttemptsBounded | packages/file-transfer/download.ts:392-416 | however the network behaves, a segment takes at most maxResumes + urls * (maxNoProgressRerolls + 2) + 1 turns, provided a committed attempt never reports `slow` |
| RetryCounts.LeavesIff | packages/file-transfer/download.ts:486-515 | the loop is left by a complete response, by cancellation and by a refused range, and by nothing else |
| RetryCounts.ResumesThenUrls | packages/file-transfer/download.ts:496-508 | over any run of short responses and failed requests, those that ask for another request get it until `maxResumes` are spent, and each of the others gives its URL up |
| RetryCounts.OutOfUrlsOnFailures | packages/file-transfer/download.ts:573-584 | out of URLs on such turns: exactly `maxResumes + urls` turns if every re-roll was wanted, `urls` if none was |
| RetryCounts.OutOfUrlsOnStalls | packages/file-transfer/download.ts:561-570 | out of URLs on stalled or silent connections: exactly `urls * (maxNoProgressRerolls + 1)` turns, and no resume spent |
| RetryCounts.SlownessCommits | packages/file-transfer/download.ts:542-560 | slow connections never use up the URLs: after exactly `urls + min(maxResumes, urls * maxSlowRerolls)` of them the last URL is committed to |
| RetryCounts.RestartsOncePerUrl | packages/file-transfer/download.ts:522-533 | a source that answers 416 is asked once more from zero and then given up |
| RetryCounts.TruncatesIff | packages/file-transfer/download.ts:517-533 | when the file is truncated, and where the next request starts after any turn |
| HandlerOutcomes.StartsUnsettled | packages/file-transfer/controlled_handler.ts:93-129 | a new handler has no report, no pending write and the size it was told |
| HandlerOutcomes.HeadersSettleIff | packages/file-transfer/file_handler.ts:51-125 | which headers end an attempt, and with what: statuses from 400, a 206 without Content-Range, a refused range |
| HandlerOutcomes.SizeLearned | packages/file-transfer/controlled_handler.ts:161-190 | a whole-file stream takes its size from accepted headers that give one, a segment never |
| HandlerOutcomes.DataTaken | packages/file-transfer/controlled_handler.ts:197-223 | which part of a chunk is written and where, and when it ends the response |
| HandlerOutcomes.AbortedIff | packages/file-transfer/controlled_handler.ts:135-346 | when silence, a stall, slowness or a skipped source end an attempt |
| HandlerOutcomes.OneReport | packages/file-transfer/file_handler.ts:129-189 | over any sequence of events and landed writes: the first report counts, and a response that is over with nothing pending has given one |
| SharedFileInvariant.DataOk | packages/file-transfer/controlled_handler.ts:197-223 | a data event issues at most one write, at the current position, holding the source's bytes and ending inside the segment |
| DownloadObjects.ControlledFileHandler.OnHeaders | packages/file-transfer/file_handler.ts:51-125 | the header callback leaves the fields as the specification of one response says: errors from 400, 206 without Content-Range rejected, position from Content-Range |
| DownloadObjects.ControlledFileHandler.OnHeaderParsed | packages/file-transfer/controlled_handler.ts:161-195 | a segment refuses a 200, and a 206 that does not start where it was asked to, before any byte is written |
| DownloadObjects.ControlledFileHandler.OnData | packages/file-transfer/controlled_handler.ts:197-223 | field updates and the issued write of a data event, including the early completion at the target |
| DownloadObjects.ControlledFileHandler.OnWritten | packages/file-transfer/file_handler.ts:158-173 | the write callback settles the promise once the response is over and nothing is pending |
| DownloadObjects.ControlledFileHandler.OnComplete | packages/file-transfer/file_handler.ts:181-184 | the end of the body settles the promise once nothing is pending |
| DownloadObjects.ControlledFileHandler.OnError | packages/file-transfer/file_handler.ts:186-189 | a transport error rejects the promise unless it is settled |
| DownloadObjects.ControlledFileHandler.Sample | packages/file-transfer/controlled_handler.ts:289-346 | a committed attempt is never abandoned as slow; a stall is reported in every mode |
| DownloadObjects.SegmentRunner.AfterWait | packages/file-transfer/download.ts:486-519 | the loop variables after an attempt: short completion resumes, cancellation and refused ranges are thrown, offsets only move forward |
| DownloadObjects.SegmentRunner.Recover | packages/file-transfer/download.ts:522-583 | the 416 restart, skip, slow, stall and transport branches and the counters each one spends |
| DownloadObjects.SegmentRunner.Run | packages/file-transfer/download.ts:416-588 | the loop goes through a sequence of turns, within the bound, until no URL is left, or until the last of them is a complete response or is thrown |
| SharedFileInvariant.EventOk | packages/file-transfer/controlled_handler.ts:161-223 | any event an honest network can raise keeps a response inside its segment, and whatever it writes is the source's bytes at their place |
| SharedFileInvariant.LandOk | packages/file-transfer/file_handler.ts:158-173 | a landed write keeps the handler's invariant: resolved only with everything written |
| SharedFileSafety.StartOk | packages/file-transfer/download.ts:417-463 | starting an attempt, or skipping a URL, keeps all bytes below the resume offset held |
| SharedFileSafety.DeliverOk | packages/file-transfer/controlled_handler.ts:161-223 | after any network event the bytes between the resume offset and the position are on disk or in an issued write |
| SharedFileSafety.ConcludeOk | packages/file-transfer/download.ts:486-583 | leaving an attempt keeps every byte below the new resume offset held, also across truncation |
| SharedFileSafety.StepKeepsInv | packages/file-transfer/download.ts:389-589 | every step of any segment, of the network or of the disk keeps the invariant of the whole download |
| SharedFileSafety.RunKeepsInv | packages/file-transfer/download.ts:389-589 | so does every run, for every interleaving |
| RangedDownload.SplitIntoChunks | packages/file-transfer/download.ts:313-317 | the chunk loop yields at most `concurrency` non-empty ranges end to end over the file, all of the smallest size that suffices but for a shorter last one |
| RangedDownload.RangedDownloadSafe | packages/file-transfer/download.ts:310-362 | for every interleaving and every honest network: only source bytes reach the disk, no segment writes outside its range, bytes below each resume offset are held, and if all segments finish and all writes land the file is the source |
| RangedDownload.FinishedHoldsEverything | packages/file-transfer/download.ts:486-509 | once all segments have finished, a byte not on disk can only be in a write of an abandoned attempt |
| RangedDownload.WholeFileSafe | packages/file-transfer/download.ts:266-300 | the fallback stream on the truncated file, with leftovers of the split still landing, ends with the source when the total is known and no 206 starts past a byte that is neither on disk nor being written |
| DownloadExact.EventExtent | packages/file-transfer/controlled_handler.ts:161-223 | a segment only ever writes where everything it has written before ends |
| DownloadExact.StepKeepsOnce | packages/file-transfer/download.ts:389-589 | in every step writes in flight stay apart from each other and from what is on disk |
| DownloadExact.FinishedIffAllLanded | packages/file-transfer/download.ts:486-509 | a finished split download equals the source if and only if nothing but empty writes is in flight |
| DownloadExact.RangedFinishedIff | packages/file-transfer/download.ts:310-362 | the same for every run of the split download from its start |
| DownloadExact.PatientDownloadIsSource | packages/file-transfer/download.ts:486-583 | if the loop only goes round again with no write pending, every finished download is the source |
| StreamExact.StepKeepsSolid | packages/file-transfer/download.ts:416-584 | in the single stream, left only with nothing pending: between attempts every byte below the resume offset is on disk, during one every byte below the position is on disk or in a write of that attempt |
| StreamExact.PatientStreamIsSource | packages/file-transfer/download.ts:266-300 | such a stream with a known total finishes with the source on disk, leftovers of the split still in flight or not, if each 206 it takes starts no later than asked or past nothing missing from the disk |
| DownloadGaps.LeavingPendingAllowsGap | packages/file-transfer/download.ts:517-583 | from every reachable state in which the loop goes round again with bytes of the attempt in flight, and can finish, a run finishes without the source on disk |
| DownloadGaps.MisalignedAllowsGap | packages/file-transfer/controlled_handler.ts:172-187 | from every state in which the whole-file stream takes a 206 from past a missing byte, a run finishes with everything landed and that byte missing |
| DownloadAttempts.StepKeepsAttempts | packages/file-transfer/download.ts:416-584 | no step of the whole system lets a segment's attempts and remaining budget exceed the bound |
| DownloadAttempts.RangedAttemptsBounded | packages/file-transfer/download.ts:399-584 | with reports coming from real handlers, no run dispatches more than maxResumes + urls * (maxNoProgressRerolls + 1) + 1 attempts for a segment |
| DownloadAttempts.WholeFileAttemptsBounded | packages/file-transfer/download.ts:399-584 | nor more than maxResumes + urls * (maxNoProgressRerolls + 2) + 1 for the whole-file stream, which a 416 restarts from zero |
| DownloadAttempts.AttemptAsks | packages/file-transfer/download.ts:427-463 | what a dispatched attempt is asked to do: the segment's bytes from the resume offset on, skippable exactly if another URL is left, not to be abandoned as slow once committed |
| DownloadAttempts.ConcludesAs | packages/file-transfer/download.ts:486-589 | a segment ends with a complete response, stops when cancelled or refused its range, and otherwise goes on |
| DownloadAttempts.CancelledStops | packages/file-transfer/download.ts:511 | in every run, once the download is cancelled no attempt that fails is followed by another |
| DownloadAttempts.ExhaustedIff | packages/file-transfer/download.ts:416-588 | a segment gives up exactly when no URL is left |
| DownloadWitnesses.LateWriteLeavesGap | packages/file-transfer/controlled_handler.ts:299-310 | four bytes in two chunks: a stalled attempt is left with its byte in flight, both segments finish, and the file is not the source |
| DownloadWitnesses.UnalignedResponseLeavesGap | packages/file-transfer/controlled_handler.ts:172-187 | three bytes in one stream: a request for bytes from 1 on is answered from 2 on, and the download finishes with nothing in flight and byte 1 missing |
| Tiling.TilesCover | packages/file-transfer/download.ts:313-317 | ranges that lie end to end hold every byte exactly once |
| RangePolicy.ComputeRangesInRange | packages/file-transfer/range_policy.ts:50-74 | the ranges lie end to end over [start, end]: one up to the threshold; above it parts of the threshold or one share of the total, whichever is larger, the last below two parts; at most 2c-1 of them, and at most c when the threshold is at least c |
| RangePolicy.CutIntoParts | packages/file-transfer/range_policy.ts:57-72 | the loop: whole parts, the remainder joined to the last |
| RangePolicy.ChildRanges | packages/file-transfer/range_handler.ts:48-72 | the children cover exactly what the parent's response does not, and there are none when it covers all or ranges are refused |
| RangePolicy.ParentAndChildrenCover | packages/file-transfer/range_handler.ts:48-97 | parent and children together fetch every byte from the parent's start to the total exactly once |
| ConcurrencyDispatcher.Dispatcher.Dispatch | packages/file-transfer/concurrency_dispatcher.ts:52-65 | throws and changes nothing when closed; with a free slot the request reaches the inner dispatcher, at the limit it is queued behind the others or refused and told so when already aborted; the invariant holds whatever foreign code does meanwhile |
| ConcurrencyDispatcher.Dispatcher.Enqueue | packages/file-transfer/concurrency_dispatcher.ts:103-126 | the request goes to the end of the queue with its abort listener, or its handler is told that it is aborted when its signal already is |
| ConcurrencyDispatcher.Dispatcher.OnAbort | packages/file-transfer/concurrency_dispatcher.ts:111-121 | a queued request whose signal aborts is taken out and its handler told, and order and accounts of the others are kept whatever that handler does; any other request is left alone |
| ConcurrencyDispatcher.Dispatcher.Admit | packages/file-transfer/concurrency_dispatcher.ts:128-175 | the request gets a slot and, with its handler wrapped, reaches the inner dispatcher; if that throws, the slot has been given back; the invariant holds whatever foreign code does meanwhile |
| ConcurrencyDispatcher.Dispatcher.InnerDispatch | packages/file-transfer/concurrency_dispatcher.ts:169-174 | the inner dispatcher receives a request that has a slot and a wrapped handler, once |
| ConcurrencyDispatcher.Dispatcher.Release | packages/file-transfer/concurrency_dispatcher.ts:137-145 | gives the slot back once: a second call changes nothing |
| ConcurrencyDispatcher.Dispatcher.Drain | packages/file-transfer/concurrency_dispatcher.ts:177-181 | the head of the queue is admitted, and afterwards the queue is empty or the limit reached |
| ConcurrencyDispatcher.Dispatcher.Finish | packages/file-transfer/concurrency_dispatcher.ts:146-168 | a terminal callback runs the request's own handler and then releases the slot, whatever that handler does |
| ConcurrencyDispatcher.Dispatcher.Close | packages/file-transfer/concurrency_dispatcher.ts:194-206 | closing marks the dispatcher once and waits for idleness |
| ConcurrencyDispatcher.Dispatcher.CloseUnderlying | packages/file-transfer/concurrency_dispatcher.ts:194-211 | the inner dispatcher is closed only with nothing active or queued |
| DispatcherState.AcceptOk | packages/file-transfer/concurrency_dispatcher.ts:52-60 | with a free slot the queue is empty, so a new request overtakes nobody |
| DispatcherState.AdmitOk | packages/file-transfer/concurrency_dispatcher.ts:128-136 | admitting keeps active within the limit and the order of admission |
| DispatcherState.AbortOk | packages/file-transfer/concurrency_dispatcher.ts:111-118 | taking a request out of the middle of the queue keeps order and accounts |
| DispatcherState.FreeOk | packages/file-transfer/concurrency_dispatcher.ts:138-143 | a released slot leaves room for exactly one admission |
| DispatcherState.OnePlace | packages/file-transfer/concurrency_dispatcher.ts:46-181 | every accepted request is in exactly one of active, queued, finished, aborted |
| DispatcherState.HandedOverOnce | packages/file-transfer/concurrency_dispatcher.ts:128-175 | with no dispatch under way, every admitted request has reached the inner dispatcher exactly once with its handler wrapped, and no queued or aborted one has |
| DispatcherState.ReleasedAfterEnd | packages/file-transfer/concurrency_dispatcher.ts:111-175 | a slot is given back only after the request's own handler was called back or the inner dispatcher threw; aborted requests are told once, queued ones not at all, and those with a signal have their listener |
| DispatcherState.FirstComeFirstServed | packages/file-transfer/concurrency_dispatcher.ts:103-181 | an admitted request had every earlier, not aborted one admitted before it |
| DispatcherState.AllReleasedMeansIdle | packages/file-transfer/concurrency_dispatcher.ts:194-211 | once every admitted request has released its slot nothing waits, and a pending close is due |
| DispatcherState.ClosedStaysIdle | packages/file-transfer/concurrency_dispatcher.ts:52-53 | after the inner dispatcher was closed nothing is ever accepted, admitted or queued |
| TaskGraph.ExecuteOk | packages/installer/installManifest.ts:311-358 | the memoised search creates one promise per task, waiting on older promises of exactly its dependencies or on a rejected one |
| TaskGraph.ExecuteUnbroken | packages/installer/installManifest.ts:311-330 | on a closed acyclic graph the search never meets a task it is visiting |
| TaskRun.TaskMapKeys | packages/installer/installManifest.ts:305-306 | the map of tasks is as large as the list if and only if ids are unique |
| TaskRun.RunsEnd | packages/installer/installManifest.ts:311-360 | every run of the promises has at most two moves per promise |
| TaskRun.PathSucceeded | packages/installer/installManifest.ts:325-345 | along any path from a started task all later tasks have succeeded, on ever older promises |
| TaskRun.RunSafe | packages/installer/installManifest.ts:305-360 | in every run, whatever fails: each task starts at most once, only after everything it reaches has succeeded, hence never when it reaches a cycle, a missing id or a failed task |
| TaskRun.ResolvesIffWellFormed | packages/installer/installManifest.ts:305-360 | with succeeding bodies, a complete run resolves if and only if every dependency exists and the graph is acyclic |
| TaskStarts.StartsIff | packages/installer/installManifest.ts:311-360 | whatever bodies fail: in a complete run a task has started if and only if all its dependencies are tasks that succeeded, which is so if and only if everything it reaches is |
| TaskStarts.EveryTaskSettles | packages/installer/installManifest.ts:311-360 | a complete run leaves no task waiting: its body has run, or it was rejected because a dependency has not succeeded |
| ManifestExecutor.Executor.Execute | packages/installer/installManifest.ts:311-358 | the function that updates `running` and `visiting` in place creates the promises of the search |
| ManifestExecutor.Plan | packages/installer/installManifest.ts:305-360 | a plan is refused if and only if two tasks share an id, and otherwise creates all its promises |
| InstallFiles.UpdatedAt | packages/installer/installManifest.ts:620-632 | the simultaneous update: each target holds its output computed from the files before, all else is untouched |
| InstallFiles.OutputAgrees | packages/installer/installManifest.ts:565-617 | an operation's output depends on its sources alone |
| InstallFiles.UpdateDelivers | packages/installer/installManifest.ts:565-617 | what each target holds after the update, by kind of operation: given content, the source's old bytes and mode, old bytes under the new mode, the named entry, the archives merged in order, the archive unpacked |
| InstallFiles.PossibleIff | packages/installer/installManifest.ts:550-618 | an operation can be carried out exactly if there is something for it to deliver |
| InstallTransaction.OutputIsOld | packages/installer/installManifest.ts:550-618 | while operations are prepared every source still reads as before the transaction |
| InstallTransaction.UndoRestores | packages/installer/installManifest.ts:535-549 | whatever stage a target has reached, rolling back its entry restores its path, temporary and backup |
| InstallTransaction.RollbackRestores | packages/installer/installManifest.ts:535-549 | rolling back all entries restores every file |
| InstallTransaction.DoneIsUpdate | packages/installer/installManifest.ts:620-632 | with every target swapped, all paths but the backups hold the simultaneous update |
| InstallRuntime.CheckTargets | packages/installer/installManifest.ts:523-527 | accepts exactly the operation lists without a repeated target |
| InstallRuntime.Runtime.Materialize | packages/installer/installManifest.ts:522-646 | for distinct targets it fails exactly if a call fails, and then leaves every file as it was; success leaves every target swapped |
| InstallRuntime.Runtime.Commit | packages/installer/installManifest.ts:638-643 | removes nothing but backups |
| InstallRuntime.Runtime.ExecuteMaterialize | packages/installer/installManifest.ts:278-290 | success delivers every operation from the files as they were and leaves all other paths alone, but for backups; it fails exactly if targets repeat, a call fails or an output is invalid, and then no file has changed |
| InstanceDelta.FileUpdatesOk | packages/instance/files_delta.ts:40-142 | at most one update per path, and exactly those the classification asks for |
| InstanceDelta.ChangedIff | packages/instance/files_delta.ts:66-78 | modified, unmodified or unknown, by the record that counts: install time, or else the old entry's sha1, crc or size |
| InstanceDelta.DiffersIff | packages/instance/files_delta.ts:83-105 | when a file matches a manifest entry |
| InstanceDelta.LastEntryCounts | packages/instance/files_delta.ts:38-42 | of several entries for a path the last one counts |
| InstanceDelta.ComputeFileUpdates | packages/instance/files_delta.ts:25-145 | the loops with their maps and cached hashes compute that list |
| InstanceDelta.IsFileDiffFromNew | packages/instance/files_delta.ts:83-105 | the comparison with the new manifest entry, reusing hashes already computed |
| InstanceSwap.Folders.MoveToBackup | packages/instance/files_handler.ts:205-235 | phase 2 moves exactly the queued files that exist; a failure restores instance and backup |
| InstanceSwap.Folders.MoveIntoInstance | packages/instance/files_handler.ts:254-268 | phase 3 moves workspace files in, in any order, until one fails: all of them are in, or only some and the rest are where they were |
| InstanceSwap.Folders.BackupAndRename | packages/instance/files_handler.ts:189-298 | the three possible endings and the exact contents of instance, backup and workspace in each; when the rename stage fails, some but never all of its files had been moved in; it ends well exactly if no rename fails |
| InstanceUpdate.FinalAt | packages/instance/files_handler.ts:189-298 | where each path ends up in instance and backup, in terms of manifests, matching and modification |
| InstanceUpdate.UpdateReachesManifest | packages/instance/files_delta.ts:47-142 | after a successful update resolvable wanted paths hold the new or already matching content, old-only paths are gone, other paths are untouched |
| InstanceUpdate.ModifiedFilesSurvive | packages/instance/files_delta.ts:66-122 | a file that its record says was modified, by install time, sha1, crc or size, survives byte for byte in instance or backup |
| InstanceUpdate.UnmodifiedIsNotBackedUp | packages/instance/files_delta.ts:123-142 | a file that its record says was not modified leaves nothing in the backup |
| InstanceUpdate.LostFiles | packages/instance/files_delta.ts:107-140 | exactly which files an update destroys |
| InstanceUpdate.RollbackExactIff | packages/instance/files_handler.ts:269-286 | after given renames, the rollback of phase 3 restores the instance if and only if none of them had overwritten an unmodified file |
| InstanceUpdate.RollbackRestoresIff | packages/instance/files_handler.ts:254-286 | it restores the instance after every set of renames phase 3 can fail with, if and only if no existing unmodified file is replaced alongside another path to rename |
| InstanceUpdate.AtRiskIsLost | packages/instance/files_handler.ts:254-286 | such a file is lost when its own rename finishes and the other one fails |
| InstanceUpdate.UpdateInstance | packages/instance/files_handler.ts:189-298 | classification and application composed: on success the workspace held all files to rename, every path reaches the manifest and modified files survive; both failures with the exact folders, the instance being as it was unless a file was at risk in the rename stage |
| Varint.Size32 | packages/bytebuffer/varint32.ts:29-43 | `calculateVarint32` is the length of the base-128 encoding of the unsigned value |
| Varint.Read32Decodes | packages/bytebuffer/varint32.ts:144-187 | the reader takes exactly the bytes of an encoding anywhere in a buffer and returns the signed value |
| Varint.Read32Ends | packages/bytebuffer/varint32.ts:144-187 | how any read ends: with a number, past the limit, or outside the buffer |
| Varint64.WritesStandardEncoding | packages/bytebuffer/varint64.ts:109-172 | for every value up to 2^53 in magnitude the writer emits the base-128 encoding of its 64-bit two's complement, in `calculateVarint64` bytes |
| Varint64.RoundTrip64 | packages/bytebuffer/varint64.ts:182-257 | the reader takes exactly those bytes; it returns the value if and only if it fits 32 signed bits or its bit 31 is clear |
| Varint64.ZigZagBijective | packages/bytebuffer/varint32.ts:51-63 | zigzag coding is a bijection between signed and unsigned numbers of any width |
| Varint64.RoundTripZigZag32 | packages/bytebuffer/varint32.ts:194-210 | 32-bit zigzag varints come back as written |
| Varint64.RoundTripZigZag64 | packages/bytebuffer/varint64.ts:87-107 | 64-bit zigzag varints come back if and only if the code's bit 31 is clear or it is below 2^31 |
| Buffers.StoredAt | packages/bytebuffer/index.ts:1077-1114 | a write is read back and no other byte held before changes, also when the buffer grows |
| Buffers.GrowthBound | packages/bytebuffer/index.ts:1362-1368 | for any initial capacity and any sequence of ends: bytes copied + initial capacity <= final capacity <= max(initial, 2 * largest end), and every end has room |
| Buffers.GrowableIff | packages/bytebuffer/index.ts:1621-1638 | when room can be made: unless the new capacity reaches 2^31 |
| Buffers.OldThenZeros | packages/bytebuffer/index.ts:1621-1638 | growing keeps the bytes and adds zeros |
| Buffers.BufferGrowthBound | packages/bytebuffer/index.ts:1621-1638 | the same of a buffer object after any number of writes |
| Buffers.WriteRead32 | packages/bytebuffer/varint32.ts:73-187 | writing a 32-bit varint at any offset and reading it there returns the signed value and its size |
| Buffers.ByteBuffer.Resize | packages/bytebuffer/index.ts:1621-1638 | growing keeps the contents and pads with zeros; a capacity beyond 32 signed bits is refused |
| Buffers.ByteBuffer.EnsureCapacity | packages/bytebuffer/index.ts:1362-1368 | doubles or jumps to the needed end, keeping the contents; the end joins the history of ends, and the bytes copied grow by the old capacity exactly if it had to change |
| Buffers.ByteBuffer.Append | packages/bytebuffer/index.ts:1077-1114 | stores the bytes at the offset, moves it behind them and adds that end to the history, or fails and changes nothing |
| Buffers.ByteBuffer.WriteVarint32At | packages/bytebuffer/varint32.ts:73-116 | the store loop leaves the encoding at the offset, after growing if needed |
| Buffers.ByteBuffer.ReadVarint32At | packages/bytebuffer/varint32.ts:144-187 | the read loop computes the specified reading or its error |
| Buffers.ByteBuffer.WriteVarint64At | packages/bytebuffer/varint64.ts:109-172 | the falling-through switch stores the specified bytes |
| Buffers.ByteBuffer.ReadVarint64At | packages/bytebuffer/varint64.ts:182-257 | the unrolled reads compute the specified reading or its error |
| Buffers.ByteBuffer.Flip | packages/bytebuffer/index.ts:1432-1436 | what was written becomes what can be read |
| Buffers.ByteBuffer.ReadBytes | packages/bytebuffer/index.ts:312-333 | returns a copy of the next bytes and moves the offset, or fails and changes nothing |
| DebugText.CapacityRecovered | packages/bytebuffer/debug.ts:104-105 | the length of a printed text determines the buffer's capacity |
| DebugText.ParsePrinted | packages/bytebuffer/debug.ts:99-226 | what any printed buffer parses to, including marks outside it |
| DebugText.RoundTripIff | packages/bytebuffer/debug.ts:22-226 | printing and parsing restores bytes, offset, limit and mark if and only if offset and limit are in range and the mark is -1 or in range |
| DebugGrammar.PrintedSymbol | packages/bytebuffer/debug.ts:6-68 | which symbol stands at a place, by the documented table |
| DebugGrammar.PrintedByte | packages/bytebuffer/debug.ts:30-36 | a byte is printed as its two digits in upper case |
| DebugGrammar.ParsesIff | packages/bytebuffer/debug.ts:99-226 | for any text: accepted if and only if it has one offset, one limit and at most one mark symbol, pairs apart, all bytes, and as many as its length stands for; the positions are the symbols', counted in bytes |
| DebugGrammar.PairValue | packages/bytebuffer/debug.ts:200-210 | what any two characters are read as |
| DebugGrammar.DigitIff | packages/bytebuffer/debug.ts:204 | digits are read in both cases |
| DebugCodec.ToDebug | packages/bytebuffer/debug.ts:22-68 | the printing loop computes the specified text |
| DebugCodec.FromDebug | packages/bytebuffer/debug.ts:99-226 | the parsing loop, for any text, builds the specified buffer or throws the specified error |
| DebugCodec.PrintAndParse | packages/bytebuffer/debug.ts:22-226 | a buffer object printed and parsed again is in the same state |
| Channel.PartialFrame | packages/client/channel.ts:216-220 | a chunk that leaves a frame incomplete is kept behind the bytes before it |
| Channel.CompleteFrame | packages/client/channel.ts:196-215 | a chunk that completes a frame yields the packet and leaves the decoder empty |
| Channel.FrameDecodes | packages/client/channel.ts:196-225 | a frame cut into chunks is put together again, from any point inside it |
| Channel.StreamDecodes | packages/client/channel.ts:191-366 | every sequence of packets comes out as it went in, the decoder empty after each, for every channel width that holds the length headers |
| Channel.FrameLeavesItsHeader | packages/client/channel.ts:203-217 | after a packet the loop goes on exactly when bytes follow it, with as many stale bytes in front of them as the header has |
| Channel.TwoPacketsIff | packages/client/channel.ts:196-225 | two packets in one chunk arrive as they are, leaving the decoder empty, if and only if the stale bytes of the first and the header of the second read as the second length |
| Channel.IntactMeansContinued | packages/bytebuffer/varint32.ts:144-187 | for that, every stale byte must have the continuation bit |
| Channel.TwoPacketsIntact | packages/client/channel.ts:196-225 | the chunk 01 80 00 arrives as the packets 80 and nothing |
| Channel.TwoPacketsMisread | packages/client/channel.ts:196-225 | the chunk 01 01 01 02 does not arrive as the packets 01 and 02 |
| Channel.CoalescedEmptyPacketsLoop | packages/client/channel.ts:203-223 | two empty packets in one chunk keep the loop going for ever |
| ChannelStreams.Relay | packages/client/channel.ts:191-366 | the two streams as objects: packets written to the encoder, its chunks piped into the decoder one per call, arrive as they were |
| ChannelStreams.Outbound | packages/client/channel.ts:349-365 | pushes the frame's bytes cut at the channel width |
| ChannelStreams.PacketInBound.Transform | packages/client/channel.ts:196-225 | for any chunk: pushes the packets and leaves the buffer as specified, throws, or never returns, exactly when the specified loop does |
| ChannelStreams.PacketInBound.Extract | packages/client/channel.ts:201-223 | the do-while loop over complete packets |
| Level.PaddedReaderRuns | packages/game-data/level.ts:7-15 | for a padded array the padded reader runs exactly when the bit length does not divide 64 |
| LevelDecoding.StraddlingDecodes | packages/game-data/level.ts:40-58 | with unsigned words every entry of a straddling array is read back, for bit lengths 1 to 32 |
| LevelDecoding.SignedStraddlingDecodesIff | packages/game-data/level.ts:40-58 | with signed words, exactly which entries are read back |
| LevelDecoding.PaddedReaderDecodes | packages/game-data/level.ts:82-94 | every entry of a padded array is read back, whatever the words' signs |
| LevelDecoding.LayoutsCoincide | packages/game-data/level.ts:7-94 | for bit lengths that divide 64 an array is in one layout if and only if it is in the other |
| LevelDecoding.PaddedDecodes | packages/game-data/level.ts:347-366 | every entry of a padded array is read back by whichever reader its length selects |
| LevelDecoding.GetSectionBlockIdArray | packages/game-data/level.ts:303-312 | the filling loops return all entries, or fail exactly when an entry lies outside the array |
| VersionChain.ResolvesToChain | packages/core/version.ts:703-756 | for any files, the walk succeeds with a chain if and only if it is the chain of that version: linked, not circular, ending without a parent |
| VersionChain.WalkEnds | packages/core/version.ts:703-756 | where ids are directory names the walk ends within one call more than there are files; on success ids are distinct, start with the version asked for and end with one without a parent |
| VersionChain.NeverEndsIffLasso | packages/core/version.ts:711-752 | for any folder, the recursion never ends if and only if the links from the version run into a closed circle of parsed files, none of whose links leads to the id of a version already read |
| VersionChain.ForeignIdNeverEnds | packages/core/version.ts:741-751 | one file under another name is read for ever |
| VersionChain.Resolver.WalkFrom | packages/core/version.ts:711-752 | the recursion over the stack, watched for any number of calls, is where the walk is |
| VersionChain.ResolveDependency | packages/core/version.ts:703-756 | for any folder: returns the version's chain, throws exactly when there is none, with an error explained by the files read so far, and never returns exactly when the walk never ends |
| VersionChain.FailureExplained | packages/core/version.ts:716-752 | which file or link each kind of error stands for |
| VersionResolve.Resolve | packages/core/version.ts:489-588 | the popping loop, on objects: the result describes the merge of the hierarchy, or no version has a main class, or the hierarchy was empty; the hierarchy ends up empty, the result's arguments are the lists of the most derived replacing version or lists of its own, and every version's lists end up as `Game` and `Jvm` say |
| VersionResolve.PopAll | packages/core/version.ts:516-556 | the do-while loop with the lists it shares and changes |
| VersionResolve.Push | packages/core/version.ts:522-524 | adding a version's arguments to lists that may belong to another version changes no other list |
| VersionResolve.GrownLists | packages/core/version.ts:522-528 | the lists of a version that replaces the arguments end up with its own followed by those of the versions below it, down to the next that replaces them; other versions' lists are unchanged |
| MergeRules.ArgumentsFromReplacer | packages/core/version.ts:522-528 | arguments are the root-to-leaf concatenation starting at the most derived replacing version |
| MergeRules.TextRule | packages/core/version.ts:530-537 | main class, assets, asset index, Java version, logging, release time, time and type are the most derived ones given; if none is, they are absent, and the Java version is 8 |
| MergeRules.LauncherVersionRule | packages/core/version.ts:519 | the launcher version needed is the largest any version needs |
| MergeRules.DownloadRule | packages/core/version.ts:551-555 | a download is the most derived version's that has its key |
| MergeRules.OneLibraryPerKey | packages/core/version.ts:538-577 | the result holds one library per key among plain ones and natives: the last one of the most derived version that declares the key, and nothing else |
| LibraryKeys.ToldApart | packages/core/version.ts:540-543 | libraries of one group and artifact are merged if and only if their classifiers are equal; those of different groups, or without classifiers and of different artifacts, never |
| LibraryKeys.AllListedIff | packages/core/version.ts:538-577 | every declared library has exactly one listed library of its own group, artifact, classifier and nativeness, if and only if no two declared ones share the text they are told apart by |
| LibraryKeys.PlainNamesDoNotClash | packages/core/version.ts:540-543 | which cannot happen with no semicolon in artifacts and no dash in classifiers |
| LibraryOrder.ListedInOrder | packages/core/version.ts:538-577 | plain libraries come before natives, each kind in the order in which its keys first appear from the root down |
| Text.SplitAt | packages/core/version.ts:227-228 | splitting at a separator joins what both sides split into |
| MavenName.NameResolves | packages/core/version.ts:225-247 | a coordinate's name resolves into the coordinate and its path |
| MavenName.PathRoundTripIff | packages/core/version.ts:179-248 | a resolved path gives back name, group, artifact, version, classifier and type if and only if the file name does not start with the version |
| MavenName.ClasspathRoundTrip | packages/installer/profile.ts:356-371 | a classpath entry under `libraries/` gives back the name of any jar |
| MavenName.PathInfoIs | packages/core/version.ts:179-219 | what a path of any length is read as, and when that throws |
| MavenName.ExtnameIs | packages/core/version.ts:186-187 | the extension is what follows the last dot, unless that is the first character |
| MavenName.NameOfFileIs | packages/installer/profile.ts:356-371 | what the classifier of any jar is, and when there is no coordinate |
| FailingInputs.Varint64Fails | packages/bytebuffer/varint64.ts:247 | 2^31 comes back as -2^31 |
| FailingInputs.ZigZag64Fails | packages/bytebuffer/varint64.ts:87-107 | 2^30 comes back as -2^30 |
| FailingInputs.SignedStraddlingFails | packages/game-data/level.ts:40-58 | a straddling array of signed words from which an entry is not read back |
| FailingInputs.RollbackFails | packages/instance/files_handler.ts:269-286 | of two files to rename the first replaces an unmodified file without a backup; when the second fails, the rollback loses that file |
| FailingInputs.DroppedIsLost | packages/instance/files_delta.ts:134-140 | a file only the old manifest names, without size or hash, is lost |
| FailingInputs.ClashingLibraryIsLost | packages/core/version.ts:540-543 | artifact `a-b` with classifier `c` and artifact `a` with `b-c` cannot both be listed |
| FailingInputs.PathRoundTripFails | packages/core/version.ts:179-219 | artifact `1-lib`, version `1` is not recovered from its path |
| FailingInputs.DebugRoundTripFails | packages/bytebuffer/debug.ts:22-226 | an empty buffer marked at 1 loses the mark; one with offset 1 is refused |

## Left out

- DownloadGaps.LeavingPendingAllowsGap: asks that a URL and bytes of the segment are left and that the other segments can finish, because otherwise the download does not finish, or the next request is for no bytes.
- Sockets, real timers, speed sampling, telemetry, progress trackers, circuit breaking: each is an arbitrary choice of the environment.
- Responses other than 200, and 206 with a Content-Range of the expected form, that carry a body.
- Failing disk writes, and truncation that fails before the whole-file fallback.
- A whole-file stream whose total stays unknown: finishing it promises nothing about the length.
- The choice between split and single stream by size; default values of the controller's options; the limits are arbitrary numbers.
- `ConcurrencyDispatcher` with a limit that changes while requests are active, an `onDispatch` hook that throws, and an `onError` of a queued request that throws.
- How often foreign code may call into the dispatcher is a number chosen at the start, arbitrary but finite.
- Bodies of manifest tasks: file downloads with their validation, Java processes and their strategies.
- File systems with nested targets, permissions, hard-link identity and parent directories; archive formats are functions of their bytes.
- A rollback whose own renames or removals fail, and names generated for temporaries or backups that are already taken.
- Backups that cannot be removed at commit stay behind; the model says so and promises nothing more.
- Case-insensitive instance updates, the queue mode of `backupAndRename` and the preparation of its workspace.
- A rename of phase 3 still outstanding while the rollback runs.
- Manifest paths that are names of properties every script object has, such as `constructor`.
- Failures of the removal of the workspace at the end of an update.
- Varint64.WritesStandardEncoding: values beyond 2^53 are left out, because the source's number type rounds them.
- Buffers larger than 2^31 bytes, `prepend`, `clone`, float and fixed-width accessors, and the assertion-free mode.
- Channel.StreamDecodes: excludes channel widths smaller than a length header, and frames above 2^30 bytes.
- Packet compression, encryption and the typed packet coders.
- `toDebug` with columns and `fromDebug` without assertions.
- Legacy chunk sections with `Blocks` and `Data`, palettes, and arrays of neither layout's length.
- Level.SeekBlockStateId: bit lengths above 32 are left out.
- Library rules and natives selection, and server versions.
- VersionResolve.Resolve: JSON parsing and normalisation are left out; each version enters already normalised, with argument lists of its own as the parser makes them. An object that is only handed on, such as the logging configuration, is a text.
- A failure to create the instance's own directory between phases 2 and 3 of an update.
- JSON, hashing, UTF-8 and NBT are arbitrary functions or absent.
- Loader-specific installers, CurseForge and Modrinth clients, launch arguments, user interface and build scripts.
