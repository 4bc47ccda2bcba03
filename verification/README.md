# Aegrail: agent and hub state machines, proved

Aegrail watches web sites. An agent on the host tails logs, hashes files, looks at pages and queues events; a hub
receives them and correlates them into findings. This project models the parts of both that keep state across steps,
and proves what they keep.

- **The log tailer** (`LogReader`, `LogBatches`, `LogLayouts`, `LogCollisions`, `LogCursor`, `LogTailer`, `LogStarts`,
  `LogWatcher`). A bounded line reader, a cursor with a 4 KiB checkpoint, rotation detection, and batches whose IDs
  are hashes of their lines. The main result is about all runs of a machine of writes, removals, scans, scans that
  crash before the cursor is saved, other enqueues and sends: no line read is lost, and a file that appears and then
  only grows is read whole. How scans are scheduled makes no difference while the backlog stays within the scan bound.
- **The durable queue** (`StringOrder`, `BatchQueue`, `QueueLaws`, `AgentRuntime`). Batches move between pending,
  delivered, failed and discarded under a cap. Nothing is lost or invented over any run, an overflow discards no more
  than it must, the hub's status code decides where a batch goes, and the drain loop ends.
- **The file watcher** (`WatchHash`, `WatchRuns`, `WatchScan`). Hashes are reused while metadata stays the same, all
  files are hashed again after an interval, and the state is not always saved. Under stated assumptions this finds
  exactly what hashing every file at every scan would.
- **The rendered page** (`RenderedNetwork`, `RenderedConfluence`, `RenderedWriters`, `RenderedShared`). Four streams
  of network events feed one state under a mutex. Every interleaving ends in the same scripts and requests when no URL
  is shared between requests; where requests without redirects share URLs, exactly when the streams meet a condition
  that can be read off them.
- **The string scanner** (`PhpStrings`, `PhpFound`, `Decimals`). It pulls the strings out of PHP-serialized values,
  and is inverse to serialization in that respect; on any other text it finds the leftmost strings.
- **Single-flight correlation** (`SingleFlight`, `SingleFlightMachine`). Threads that submit work for a scope share
  one runner. No submission is lost in any interleaving.
- **Correlation** (`ChainIds`, `AdminChains`, `AdminCoverage`, `AdminTaken`, `AdminSlots`, `AdminShown`,
  `AdminRequestRules`, `FilePathGroups`, `Correlation`, `CorrelationLaws`). Greedy passes share sets of covered
  events. Events are attributed once, each suspicious pair is reported, bursts are not missed, grouping is a
  partition, and pairs are not reported twice.
- **One-time passwords** (`Totp`). A counter is accepted once per user; the ninety seconds a counter is remembered
  match the three steps it is good for (sections 4.2 and 5.2 of RFC 6238).

Code that the repository writes as loops over mutable state is written as methods and classes here, each proved equal
to a function; what the code promises is proved about those functions. Bytes are characters of a `string`, times are
integers in nanoseconds, hashes are injective (the text itself stands for its hash), and disks, clocks, replies of the
hub and schedules of threads are parameters or steps of a machine.

`Basics`, `Decimals`, `GoText` and `StringOrder` hold what several modules need. `dafny verify dfyconfig.toml` checks
everything.

## What the proofs found

- The 8 MiB bound of a scan can cut an ordinary short line in two. `LogReader.CutIff` says exactly when;
  `LogReader.ShortLineCanBeCut` is a file that shows it.
- Two different log batches can have one ID, when a path holds a newline: `LogCollisions.NewlineInPathCollides` gives
  two file contents. `LogCollisions.PathsCollideIff` says for which pairs of paths that can happen.
- Two requests for one URL can end with either one's initiator, depending on the order of events
  (`RenderedConfluence.SharedUrlDiverges`). `RenderedShared.ConvergesIff` says exactly when the order matters, on
  pages where only requests without redirects share URLs.
- A covered admin request need not be shown: a second chain with the same ID is dropped after its requests were
  covered. `AdminCoverage.AllShownIff` says when nothing is hidden, in terms of the chains made;
  `AdminShown.SparseIsShown` and `AdminShown.TwoProbesHide` say it of the requests themselves, and
  `AdminCoverage.RepeatedProbeIsHidden` is an input that hides one.
- The rule against repeats in the window passes never takes effect on sorted input
  (`AdminCoverage.WindowPassCoversAll`).
- Not saving a map that brought no events can change later events, where status change times come and go
  (`WatchHash.MixedTimesMatter`); `WatchHash.SkippingSaveIff` says exactly when.
- The rule for a file change with some other sensitive follow-up never applies: whatever the search accepts is a
  database security or persistence event (`CorrelationLaws.OutputIsJustified`).
- Single use of one-time passwords holds from 1970 on and not before (`Totp.SingleUseIff`).
- The PHP scanner indexes out of range on a length next to the largest int (`PhpStrings.PanicsIff`).

## Model

| member | source | states |
|---|---|---|
| LogReader.ReadNewLogLines | agent/internal/agent/log_watch.go:658-710 | one scan of a file, as loops: the lines and the next offset are those of the pieces the bounds on lines (50 000), line bytes (64 KiB) and bytes per scan (8 MiB) allow |
| LogReader.TakePiece | agent/internal/agent/log_watch.go:670-700 | one read of the bounded reader: the next piece, or an unfinished record left for the next scan |
| LogReader.PiecesTile | agent/internal/agent/log_watch.go:670-701 | what a scan emits and skips tiles the bytes from its start to its new offset exactly, below the scan bound |
| LogReader.PiecesAreRecords | agent/internal/agent/log_watch.go:670-701 | every piece is one whole newline-terminated record, except that the last one may end on the scan bound |
| LogReader.CutIff | agent/internal/agent/log_watch.go:673-676 | a scan cuts a record in two if and only if bytes lie beyond the scan bound, the byte before the bound is no newline, and the complete records before it leave room under the line limit |
| LogReader.ShortLineCanBeCut | agent/internal/agent/log_watch.go:673-676 | a concrete file on which an ordinary short line is cut |
| LogReader.LinesOfExtension | agent/internal/agent/log_watch.go:658-710 | the lines read from a file are a prefix of those read from any extension of it from the same offset |
| LogReader.PiecesOfExtension | agent/internal/agent/log_watch.go:670-701 | the same for the pieces: a finished piece never changes when the file grows |
| LogReader.ScanUnderBound | agent/internal/agent/log_watch.go:670-701 | with a backlog within the scan bound a scan takes exactly newline-terminated records |
| LogReader.RunTiles | agent/internal/agent/log_watch.go:658-710 | over any run of appends and scans the pieces taken tile everything from the start to the cursor |
| LogReader.ScheduleIndependence | agent/internal/agent/log_watch.go:658-710 | while each backlog is within the bound, any schedule of appends and scans yields exactly the non-blank records from the start to the cursor, each once and in order, wherever the scans fall |
| LogReader.ScanTextsOneLine | agent/internal/agent/log_watch.go:690-700 | no line read has a newline in its text |
| LogReader.RecordYields | agent/internal/agent/log_watch.go:683-697 | the line of a record is its text without the line ending, cut at 65 536 bytes and then marked as truncated; a blank one yields none |
| LogBatches.BatchesAreGreedy | agent/internal/agent/log_watch.go:302-352 | batches concatenate back to the lines, are not empty, hold at most 100 events, and each but the last closes at the limit of events or at 256 KiB and not before |
| LogBatches.BatchLimits | agent/internal/agent/log_watch.go:340-350 | a batch has at most 100 lines and reaches 256 KiB with its last line at the earliest; every batch but the last reaches one of the two |
| LogBatches.SplitIsUnique | agent/internal/agent/log_watch.go:302-352 | there is only one such split of a list of lines |
| LogBatches.ClosedBatchesAreStable | agent/internal/agent/log_watch.go:296-352 | splitting a longer list of lines reproduces every batch that was closed |
| LogBatches.BatchPrefixOpen | agent/internal/agent/log_watch.go:320-350 | no proper prefix of a batch was already closed |
| LogBatches.RescanReproducesBatchIds | agent/internal/agent/log_watch.go:296-352 | a rescan of a file that has grown meanwhile gives every batch except the last open one the same ID pre-image |
| LogBatches.BatchImageInjective | agent/internal/agent/log_watch.go:302-352 | the text hashed into a batch ID determines generation, offsets and texts of a given path, and the path too when paths have no newline |
| LogCollisions.PathsCollideIff | agent/internal/agent/log_watch.go:302-352 | batches that scans make of two different paths can have one hashed text if and only if one path reads like the start of a batch of the other: that path, a generation, lines that fit into a scan, and one more offset |
| LogCollisions.StripLines | agent/internal/agent/log_watch.go:336-340 | equal hashed texts of as many lines have equal paths; otherwise the shorter list's path is the start of the longer one's text |
| LogLayouts.ScannedFits | agent/internal/agent/log_watch.go:658-710 | what a scanned batch is like: readable texts, room between the offsets for the records, and the bounds of scan and batch |
| LogLayouts.LayoutScan | agent/internal/agent/log_watch.go:658-710 | and a file that holds such lines is read back |
| LogCollisions.NestedHasNewline | agent/internal/agent/log_watch.go:336-340 | a path without a newline reads like the start of no batch |
| LogCollisions.NewlineInPathCollides | agent/internal/agent/log_watch.go:302-352 | two file contents whose scans make different batches with one hashed text |
| LogCursor.AppendsNeverRotate | agent/internal/agent/log_watch.go:466-531 | a snapshot followed only by appends is never taken for a rotation |
| LogCursor.ResumingMeansSameTail | agent/internal/agent/log_watch.go:466-490 | without rotation the last min(4096, offset) bytes before the saved offset are those the state was taken of |
| LogCursor.RewriteDuringScanIsCaught | agent/internal/agent/log_watch.go:162-226 | a rewrite of the file between the two checkpoint comparisons has the outcome of a scan of the rewritten file |
| LogCursor.ScanTiles | agent/internal/agent/log_watch.go:149-235 | the saved offset is where reading stopped, the pieces tile what lies between, and the new state is taken of the file |
| LogCursor.GenerationAndStart | agent/internal/agent/log_watch.go:149-215 | the generation rises by one exactly when a rotation is counted, which is exactly when reading restarts at zero; otherwise it resumes at the saved offset |
| LogCursor.PositionsIncrease | agent/internal/agent/log_watch.go:126-293 | over any sequence of scans, whatever happens to the file between them, the (generation, offset) pairs of what is taken strictly increase and lie before the cursor |
| LogStarts.NewPathIsReadWhole | agent/internal/agent/log_watch.go:147-188 | a file that is configured by name and has no cursor is read from its first byte in generation 1: of up to 8 MiB exactly the newline-terminated records up to the saved offset, and all of them unless the scan reaches 50 000 lines |
| LogStarts.FoundFileIsTakenUpAtItsEnd | agent/internal/agent/log_watch.go:147-188 | a file that is found in a directory and has no cursor is taken up at its size; what it held is not read |
| LogStarts.ReadAgainIff | agent/internal/agent/log_watch.go:160-180 | a file is read again from its first byte, in the next generation, if and only if it was missing, is another file, is shorter than the saved offset, or differs in the last 4096 bytes before it; otherwise reading goes on from there |
| LogStarts.CursorAfterScan | agent/internal/agent/log_watch.go:236-262 | a baseline puts every cursor at the end of its file; a path that was not opened keeps its cursor, marked missing, if and only if it is configured by name or vanished between discovery and opening |
| LogStarts.ScanIsWatchStep | agent/internal/agent/log_watch.go:126-262 | scans of a file configured by name are the steps over which positions increase |
| LogStarts.RotationsCount | agent/internal/agent/log_watch.go:160-180 | the rotations reported are the files that were read again |
| LogTailer.NoLineIsLost | agent/internal/agent/log_watch.go:126-293 | no run of writes, removals, scans with writes between opening and reading, crashes before the save, other enqueues and sends loses a line: what was read up to each saved cursor tiles that stretch and is in accepted batches |
| LogTailer.SomeHashWorks | agent/internal/agent/log_watch.go:311-311 | a function meets what is asked of the hash: no collisions, safe characters |
| LogTailer.EveryRecordIsAccepted | agent/internal/agent/log_watch.go:126-293 | so every non-blank record between where reading began and the saved cursor of a file that only grew is in an accepted batch |
| LogStarts.NewFileIsReadWhole | agent/internal/agent/log_watch.go:126-293 | over any run in which a file appears (configured by name and new, or read again) and then only grows: every non-blank newline-terminated record from its first byte to the saved cursor is accepted, and after a scan with fewer than 50 000 lines to read every such record of the whole file |
| LogStarts.ScanLeavesASign | agent/internal/agent/log_watch.go:263-284 | a completed scan that opened a file enqueues its lines, or else exactly one event: baseline created, or scan completed |
| LogStarts.ScanEntriesAreMine | agent/internal/agent/log_watch.go:302-352 | every batch a scan enqueues names the agent, so that a success answer delivers it |
| LogTailer.StepKeepsSound | agent/internal/agent/log_watch.go:126-293 | each step of that machine keeps the invariant |
| LogTailer.EnqueueBatchAccepts | agent/internal/agent/log_watch.go:302-352 | enqueueing a batch, or finding it already pending, leaves its events accepted, and changes nothing when it was pending |
| LogTailer.SameNameSameEvents | agent/internal/agent/runtime.go:356-361 | a pending file with the name of a log batch holds that batch's events |
| LogTailer.ScanAcceptsLines | agent/internal/agent/log_watch.go:227-236 | after a completed scan every line it took is in an accepted batch |
| LogWatcher.ScanFile | agent/internal/agent/log_watch.go:149-235 | the steps on one file equal ScanTarget |
| LogWatcher.Watcher.Flush | agent/internal/agent/log_watch.go:307-327 | the flush closure: the chunk goes to the queue under the ID of its hashed text, or a failure leaves at most least files discarded |
| LogWatcher.Watcher.EnqueueLogLineBatches | agent/internal/agent/log_watch.go:302-352 | the loop over the lines enqueues the batches of the split one by one; a failed call leaves the batches before it in the queue and tries nothing after it |
| LogWatcher.Watcher.ScanOne | agent/internal/agent/log_watch.go:154-236 | one turn of the scan loop: the new cursor and the batches of one file |
| LogWatcher.Watcher.ScanAll | agent/internal/agent/log_watch.go:126-243 | the loop over the files: new cursors, rotations and batches, or the batches of a prefix when a queue call fails |
| LogWatcher.Watcher.ScanLogPaths | agent/internal/agent/log_watch.go:93-294 | a scan is the machine's full scan, or, when a queue call or the save fails, its crashed scan: the cursors stay the old ones |
| LogWatcher.Watcher.EnqueueHeartbeat | agent/internal/agent/log_watch.go:263-284 | the event of a scan without lines |
| StringOrder.LessTotal | agent/internal/agent/runtime.go:704-720 | file names are totally ordered |
| StringOrder.LessTransitive | agent/internal/agent/runtime.go:704-720 | the order is transitive |
| StringOrder.LessIff | agent/internal/agent/runtime.go:704-720 | a name comes first where it ends, or has the smaller byte, at the first place the two differ |
| BatchQueue.QueueFiles | agent/internal/agent/runtime.go:704-720 | the names of a directory, in strictly increasing order |
| BatchQueue.FirstFilesAreLeast | agent/internal/agent/runtime.go:384-397 | the first k files are exactly the k least names |
| BatchQueue.FileNameInjective | agent/internal/agent/runtime.go:765-778 | batch IDs of safe characters have different files |
| BatchQueue.EnqueueKeepsCapAndBatches | agent/internal/agent/runtime.go:356-402 | enqueueing loses no batch; a pending batch changes nothing; a new one is added and discards nothing if there is room, and otherwise discards least files, exactly as many as leave the queue at its cap |
| BatchQueue.SendPassConserves | agent/internal/agent/runtime.go:403-492 | a pass moves batches out of pending and neither invents nor loses one |
| QueueLaws.PassByCode | agent/internal/agent/runtime.go:404-502 | a pass delivers exactly the files it comes to that can be read and moved, are of this agent and are answered 200 to 299; it quarantines exactly those that are not of this agent or are answered 400 to 499 other than 408, 425 and 429; every other file stays as it was |
| QueueLaws.OnlyPendingMoves | agent/internal/agent/runtime.go:404-502 | nothing else is counted as delivered or failed |
| QueueLaws.WaitsForAnswer | agent/internal/agent/runtime.go:466-476 | over any run without a cap a batch of this agent stays pending as long as there is no answer, or 408, 425, 429 or 5xx |
| BatchQueue.RunKeepsCapAndBatches | agent/internal/agent/runtime.go:352-492 | over any run of enqueues and sends every accepted batch is in exactly one of pending, delivered, failed and discarded, and a queue within its cap stays within it |
| BatchQueue.LeastSize | agent/internal/agent/runtime.go:390-397 | as many files are discarded as overflow |
| AgentRuntime.QueueDir.EnforcePendingQueueLimit | agent/internal/agent/runtime.go:374-401 | the loop discards the least files, as many as overflow or as renames succeed |
| AgentRuntime.QueueDir.EnqueueEvents | agent/internal/agent/runtime.go:269-372 | the call succeeds exactly when there are events and the batch is pending or room could be made and the file written; its effect on the queue in each case |
| AgentRuntime.QueueDir.SendFile | agent/internal/agent/runtime.go:428-484 | what becomes of one file: kept, quarantined or delivered, and what is counted |
| AgentRuntime.QueueDir.SendQueued | agent/internal/agent/runtime.go:403-492 | a pass over the least files up to the limit, and its counts |
| AgentRuntime.QueueDir.SendQueuedAll | agent/internal/agent/runtime.go:504-534 | the drain ends even without a budget, after at most one pass per pending file and one more; it conserves batches; it stops with files left only when the last pass removed nothing, on cancellation or on budget; with a hub that settles every file it drains the queue |
| AgentRuntime.PassCounts | agent/internal/agent/runtime.go:428-484 | a pass shrinks the queue by what it delivers and quarantines, and by at least one file when every attempt settles its file |
| AgentRuntime.PassMoves | agent/internal/agent/runtime.go:404-502 | what a pass delivers and quarantines is what it adds to those directories, and no more than it came to |
| SingleFlight.MergeTriggerEventIDs | hub/internal/hub/ingest.go:360-379 | the loops give the non-empty IDs of both lists, each once, in order, and nil when either is nil |
| SingleFlight.DistinctElements | hub/internal/hub/ingest.go:364-378 | the merged list has exactly the non-empty IDs, without repeats |
| SingleFlight.MergeCovers | hub/internal/hub/ingest.go:345-358 | a merged input covers both inputs: a non-zero since no later, window and limit no smaller, saving kept, triggers a superset; a zero since asks for nothing, and merging it with a set time keeps the set time |
| SingleFlight.MergeIsLeast | hub/internal/hub/ingest.go:345-358 | and is covered by every input that covers both |
| SingleFlight.CoversTransitive | hub/internal/hub/ingest.go:345-379 | covering is transitive |
| SingleFlight.CorrelationRuns.Begin | hub/internal/hub/ingest.go:305-324 | a thread becomes the runner exactly when the scope has no entry; otherwise its input is merged into the pending one |
| SingleFlight.CorrelationRuns.Complete | hub/internal/hub/ingest.go:326-343 | the runner takes the pending input, or removes the entry |
| SingleFlight.CorrelationRuns.RunSingleFlight | hub/internal/hub/ingest.go:279-303 | the runner's loop: every input that arrives during an invocation is covered by the next; it ends at the first invocation nothing arrived in; only the last error is returned; the entry is gone |
| SingleFlightMachine.NoTriggerIsLost | hub/internal/hub/ingest.go:279-343 | in every interleaving of threads: one runner per scope with an entry and none without, no more invocations than submissions, and once no runner is left every submission was covered by an invocation that began after it, where a zero since counts as covered by any since |
| SingleFlightMachine.StepKeepsOneRunner | hub/internal/hub/ingest.go:305-343 | each step keeps runners and entries in step |
| SingleFlightMachine.StepKeepsNothingLost | hub/internal/hub/ingest.go:279-343 | each step keeps every submission settled, pending or in a runner's hands |
| SingleFlightMachine.StepKeepsPaid | hub/internal/hub/ingest.go:279-343 | each step keeps invocations, ready runners and pending inputs paid for by submissions |
| RenderedNetwork.NetworkState.HandleEvent | agent/internal/collector/browser_rendered.go:349-426 | the four kinds of events update the mutex-protected state as the reducer's step does, and keep scripts under their own URLs and active and completed requests apart |
| RenderedNetwork.NetworkState.HandleRequest | agent/internal/collector/browser_rendered.go:356-394 | a request event: the redirect recorded first, then the new entry; scripts stay under their own URLs |
| RenderedNetwork.NetworkState.HandleResponse | agent/internal/collector/browser_rendered.go:395-416 | a response event; scripts stay under their own URLs |
| RenderedNetwork.ActiveIsRequestedMinusEnded | agent/internal/collector/browser_rendered.go:349-433 | after any events in any order the active requests are those requested and not ended, and every script is filed under its own URL |
| RenderedNetwork.NothingErased | agent/internal/collector/browser_rendered.go:428-449 | no event takes a script away, or its initiator, status or type |
| RenderedNetwork.DocumentIsLast | agent/internal/collector/browser_rendered.go:410-413 | after any events status and final URL are those of the last document response |
| RenderedConfluence.RequestStep | agent/internal/collector/browser_rendered.go:356-394 | a request event moves its own chain one hop on and touches no other chain's URLs, before or after the chain's response |
| RenderedConfluence.ResponseStep | agent/internal/collector/browser_rendered.go:395-416 | a response event completes its own chain's last URL wherever the chain stands, and touches no other's |
| RenderedConfluence.EventTouches | agent/internal/collector/browser_rendered.go:349-433 | an event changes no script but those of its own chain's URLs, whatever the state |
| RenderedConfluence.ChainAlways | agent/internal/collector/browser_rendered.go:203-232 | after any part of any merge of the four streams a chain that shares no URL is as far as its own events have come, whatever the other chains do |
| RenderedConfluence.DocumentAlways | agent/internal/collector/browser_rendered.go:410-413 | status and final URL are those of the last document response taken |
| RenderedConfluence.EveryMergeIsFinal | agent/internal/collector/browser_rendered.go:203-232 | every complete merge ends in the page's final state, described without any order |
| RenderedConfluence.FinalStateIsUnique | agent/internal/collector/browser_rendered.go:428-449 | a page has one final state |
| RenderedConfluence.Confluence | agent/internal/collector/browser_rendered.go:203-232 | two complete merges of the same four streams agree on scripts, active and completed requests, status and final URL |
| RenderedConfluence.SharedUrlDiverges | agent/internal/collector/browser_rendered.go:388-391 | where two requests share a URL they need not: two schedules that end with different initiators |
| RenderedShared.SiteConvergesIff | agent/internal/collector/browser_rendered.go:349-449 | all complete merges agree on a URL that requests without redirects share if and only if, read off the streams: the last request for it and the request of the last response for it have one initiator, and of the answers with a status (with a type) the last response and the answer to the last request have the same |
| RenderedShared.ConvergesIff | agent/internal/collector/browser_rendered.go:203-232 | a page on which only requests without redirects share URLs ends in the same scripts, active and completed requests, status and final URL under every interleaving if and only if that holds for each URL |
| RenderedWriters.SiteAlways | agent/internal/collector/browser_rendered.go:349-449 | at any moment of any merge the script of such a URL is what its last writers wrote: requests write the initiator, responses status and type, and each writes the other's field again when it comes second |
| RenderedWriters.WriterIsLast | agent/internal/collector/browser_rendered.go:349-449 | the last writer is the last in its stream so far, unless the other stream's last event still waits for its partner |
| RenderedWriters.UserRequest | agent/internal/collector/browser_rendered.go:375-394 | what a request writes, before and after its response |
| RenderedWriters.UserResponse | agent/internal/collector/browser_rendered.go:395-416 | what a response writes, before and after its request |
| RenderedShared.UnsettledDiverges | agent/internal/collector/browser_rendered.go:203-232 | where the condition fails, all requests first and all responses first end differently |
| ChainIds.AddCorrelationChains | hub/internal/hub/correlation.go:263-271 | the loop over the chains of one pass keeps, after any earlier chains, the first chain of each ID |
| ChainIds.DedupedIds | hub/internal/hub/correlation.go:563-569 | no two chains that are left share an ID, and no ID is lost |
| ChainIds.DedupedKeepsFirsts | hub/internal/hub/correlation.go:563-569 | what is left is, in order, the first chain of every ID |
| AdminChains.EveryStepOk | hub/internal/hub/admin_request_rules.go:207-420 | a step of any pass changes nothing or makes one chain of its rule's shape from observations not covered before, in order |
| AdminCoverage.PassAccounts | hub/internal/hub/admin_request_rules.go:207-420 | after a pass the newly covered keys are exactly those of its chains, no key twice and none covered before |
| AdminCoverage.DisjointAttribution | hub/internal/hub/admin_request_rules.go:41-63 | the chains returned have distinct IDs and no request in common, none holds a request twice when keys are unique, each has its rule's shape (three failures or more and then a success; exactly the threshold of one remote; and so on), and on sorted input each is sorted and spans at most ten minutes |
| AdminTaken.ChainsTakeWhatIsLeft | hub/internal/hub/admin_request_rules.go:41-420 | on sorted requests the chains made come in the order of the passes, and each is a plain filter of what the chains before it left: a success with all failures of its remote in the ten minutes before it, three or more; the first three failures or five login posts of a remote within ten minutes; one tool probe; a reset request or login with all like it in the next ten minutes; at most one per group and slot where slots are remembered |
| AdminCoverage.BurstPassMissesNone | hub/internal/hub/admin_request_rules.go:262-303 | after a burst pass on sorted input every uncovered matching observation of a known remote has fewer than the threshold of uncovered matching observations of that remote, itself included, in the ten minutes from it on |
| AdminCoverage.SuccessPassMissesNone | hub/internal/hub/admin_request_rules.go:207-253 | the success pass leaves a success after three uncovered failures only where another success of the remote in the same ten-minute slot has a chain |
| AdminCoverage.WindowPassCoversAll | hub/internal/hub/admin_request_rules.go:378-420 | a window pass on sorted input covers every observation it matches: its rule against repeats never leaves one behind |
| AdminCoverage.ProbePassCoversAll | hub/internal/hub/admin_request_rules.go:305-326 | the probe pass covers every tool probe |
| AdminCoverage.NothingLeftOver | hub/internal/hub/admin_request_rules.go:41-63 | at the end of all passes no burst is left, and every tool probe, password reset request and successful admin login of a known remote is covered |
| AdminCoverage.AllShownIff | hub/internal/hub/admin_request_rules.go:41-63 | the output shows every covered request if and only if no two chains made share an ID |
| AdminCoverage.RepeatedProbeIsHidden | hub/internal/hub/admin_request_rules.go:305-326 | an input on which a covered request is shown nowhere |
| AdminShown.SparseIsShown | hub/internal/hub/admin_request_rules.go:41-63 | on sorted requests everything covered is shown when trimming keeps groups apart and each group and ten-minute slot has at most one tool probe and no more failures and login posts than one burst takes |
| AdminSlots.BurstIsOther | hub/internal/hub/admin_request_rules.go:262-303 | two bursts of one slot need more matching requests in it than one burst takes |
| AdminShown.TwoProbesHide | hub/internal/hub/admin_request_rules.go:305-326 | two tool probes of one trimmed group and slot that the passes before leave uncovered always hide one |
| AdminRequestRules.ReverseAdminObservations | hub/internal/hub/admin_request_rules.go:664-668 | the swaps in place reverse the array |
| AdminRequestRules.ReversedAt | hub/internal/hub/admin_request_rules.go:664-668 | where each value of a reversed list comes from |
| AdminRequestRules.FailuresBefore | hub/internal/hub/admin_request_rules.go:214-231 | the backward search and the reversal give the failures before a success in time order |
| AdminRequestRules.SuccessAfterFailuresChains | hub/internal/hub/admin_request_rules.go:207-253 | the pass equals its description |
| AdminRequestRules.BurstGroup | hub/internal/hub/admin_request_rules.go:268-284 | stopping at the threshold takes the first of the observations that follow |
| AdminRequestRules.BurstChains | hub/internal/hub/admin_request_rules.go:262-303 | the pass equals its description |
| AdminRequestRules.ToolProbeChains | hub/internal/hub/admin_request_rules.go:305-326 | the pass equals its description |
| AdminRequestRules.WindowGroup | hub/internal/hub/admin_request_rules.go:391-403 | the group of a window chain |
| AdminRequestRules.WindowChains | hub/internal/hub/admin_request_rules.go:378-420 | the pass equals its description |
| AdminRequestRules.BuildAdminRequestAnomalyChains | hub/internal/hub/admin_request_rules.go:41-63 | all passes over one covered set, duplicates of IDs dropped |
| WatchHash.CacheIsExact | agent/internal/agent/watch.go:831-888 | when every change of content shows in size, modification time or status change time, each scan of any run records what hashing every file would |
| WatchHash.EventsAreFullDiffs | agent/internal/agent/watch.go:70-169 | and, with uniform status change times, each scan finds exactly the differences between hashing everything at the scan before and now, saved or not |
| WatchHash.SavedStandsForLast | agent/internal/agent/watch.go:115-169 | the saved map always stands for the last scan's |
| WatchHash.SkippingSaveIff | agent/internal/agent/watch.go:135-148 | a map left unsaved has the same paths as the map kept in its place, and gives the same events against every later map if and only if files too large to hash have the same status change time in both |
| WatchHash.SkippingSaveIsSound | agent/internal/agent/watch.go:135-148 | which is so where status change times are there for all files or for none |
| WatchHash.TimesTellApart | agent/internal/agent/watch.go:965-977 | otherwise some later map tells the two apart |
| WatchHash.QuietScan | agent/internal/agent/watch.go:135-148 | no events and equal counts mean the same paths, all unchanged: a noisy path that vanished cannot hide behind a new one |
| WatchHash.UnchangedAreTwins | agent/internal/agent/watch.go:965-977 | two states that do not count as changed and, when too large to hash, have one status change time, are twins |
| WatchHash.TwinsChangeAlike | agent/internal/agent/watch.go:965-977 | twins count as changed against the same later states |
| WatchHash.MixedTimesMatter | agent/internal/agent/watch.go:965-977 | where status change times come and go the unsaved map matters: an input |
| WatchRuns.ChangeIsReported | agent/internal/agent/watch.go:100-210 | over any run: a file written to after a scan that hashed everything, and then left alone, is reported no later than by the first scan an interval after that scan, whatever its metadata |
| WatchRuns.FullHashTimes | agent/internal/agent/watch.go:171-186 | the first scan hashes everything; a later one does if and only if there is an interval and the last scan that did was at least that long ago |
| WatchRuns.LastFullIs | agent/internal/agent/watch.go:188-193 | the saved time of the last full hash is the time of the last scan that hashed everything |
| WatchRuns.ScanEvents | agent/internal/agent/watch.go:115-149 | with faithful metadata and uniform times, each later scan of any run enqueues exactly: the new files, the files whose content (too large to hash: size or times) changed, the files gone whose path is not noisy, and, exactly when there are none of these, that the scan is done |
| WatchRuns.FirstScanEvents | agent/internal/agent/watch.go:150-160 | the first scan enqueues the number of files and nothing else |
| WatchHash.NotReportedWithoutInterval | agent/internal/agent/watch.go:176-179 | with the interval switched off a change that leaves the metadata alone is never reported |
| WatchScan.ScanPaths | agent/internal/agent/watch.go:481-501 | the walk, in any order, gives the cached scan |
| WatchScan.DiffWatchState | agent/internal/agent/watch.go:903-931 | the two loops over maps, in any order, give each event of the difference once |
| WatchScan.EnqueueEach | agent/internal/agent/watch.go:125-134 | events are enqueued one by one up to the first call that fails |
| WatchScan.StateFile.ScanWatchedPaths | agent/internal/agent/watch.go:70-169 | the events a scan enqueues and the state it saves or does not save; a scan whose enqueue or save fails leaves the state as it was |
| Totp.SingleUse | hub/internal/hub/auth.go:427-477 | over any run of verifications at times that never fall and are not before 1970, no (user, counter) pair is accepted twice |
| Totp.AcceptedIff | hub/internal/hub/auth.go:427-477 | an attempt is accepted if and only if its code belongs to a counter of the window that was never accepted for the user |
| Totp.MatchIs | hub/internal/hub/auth.go:435-451 | from 1970 on a code belongs to the first of the steps before, at and after now, of thirty seconds each, that generates it |
| Totp.SingleUseIff | hub/internal/hub/auth.go:445-475 | single use is guaranteed from a start time on if and only if that time is not before 1970, because the division by 30 truncates toward zero |
| Totp.UsedTwice | hub/internal/hub/auth.go:445-475 | the run that uses a counter twice |
| Totp.AtMostSixLive | hub/internal/hub/auth.go:466-475 | right after a lookup at most six counters of a user are remembered, at any times |
| Totp.StoreRemembers | hub/internal/hub/auth.go:453-477 | after any run the store holds what was accepted in the last ninety seconds and nothing else that was not accepted |
| Totp.NoReuseAfterRetention | hub/internal/hub/auth.go:445-475 | ninety seconds move the window past every counter it held |
| Totp.VerifyTotpCodeCounter | hub/internal/hub/auth.go:435-451 | the loop over the three offsets |
| Totp.ReplayStore.Purge | hub/internal/hub/auth.go:466-470 | the loop removes what has expired |
| Totp.ReplayStore.ConsumeTotpCode | hub/internal/hub/auth.go:453-477 | a counter is accepted exactly when no live entry has it, and then remembered for ninety seconds |
| Totp.ReplayStore.VerifyAndConsumeTotpCode | hub/internal/hub/auth.go:427-433 | both together |
| PhpStrings.ParsePhpSerializedStrings | agent/internal/collector/database_collect.go:716-745 | the scanner's loops, with the index error a length near the largest int leads to |
| PhpStrings.FindDigitsEnd | agent/internal/collector/database_collect.go:724-727 | the inner loop over the digits |
| PhpStrings.RoundTrip | agent/internal/collector/database_collect.go:716-745 | scanning the serialization of any nested value of strings, integers, booleans, nulls and arrays returns exactly its strings, keys and values, in document order, and the marker exactly when there is one |
| PhpFound.FindsLeftmost | agent/internal/collector/database_collect.go:716-745 | on any text, well-formed or not, the scanner returns the leftmost strings that do not overlap, in order, each as long as its length says |
| PhpFound.LeftmostIsUnique | agent/internal/collector/database_collect.go:716-745 | there is only one such list |
| PhpFound.MarkerIff | agent/internal/collector/database_collect.go:716-745 | the marker flag says whether s: stands anywhere before the last byte |
| PhpStrings.TextScan | agent/internal/collector/database_collect.go:731-742 | a string is found whole wherever it stands and whatever it holds |
| PhpStrings.ValueYields | agent/internal/collector/database_collect.go:716-745 | the same for every value, in any context |
| PhpStrings.PanicsIff | agent/internal/collector/database_collect.go:731-738 | the scan fails if and only if it comes to a length whose content would end past the largest int |
| PhpStrings.NoWrapNoPanic | agent/internal/collector/database_collect.go:731-738 | it does not fail on a value that nowhere has such a length |
| PhpStrings.LongestLengthPanics | agent/internal/collector/database_collect.go:731-738 | such an input |
| Decimals.ValueOfDecimal | agent/internal/collector/database_collect.go:731-734 | reading a printed number gives the number back |
| FilePathGroups.GroupingIsPartition | hub/internal/hub/file_path_rules.go:66-113 | the events of all chains are, as a multiset, exactly the uncovered events that match a rule |
| FilePathGroups.ChainOfEvent | hub/internal/hub/file_path_rules.go:66-111 | an event that has no group is alone in its chain; any other is in the chain of its rule, environment, app, host, root and hour |
| FilePathGroups.RelevantIs | hub/internal/hub/file_path_rules.go:71-80 | the events grouped are those that are not covered and match a rule |
| FilePathGroups.GroupChainShows | hub/internal/hub/file_path_rules.go:519-573 | a group chain is a sorted permutation of its group's events, which share rule, host, root and hour; its paths are theirs, each once; its counts say how many there are of each type and add up |
| FilePathGroups.OrderLists | hub/internal/hub/file_path_rules.go:89-104 | the groups listed are those that have events, each once |
| FilePathGroups.SortSorts | hub/internal/hub/file_path_rules.go:520-529 | sorting keeps every event and leaves none before an earlier one |
| FilePathGroups.PathsAreDistinct | hub/internal/hub/file_path_rules.go:616-625 | the path list has the non-empty trimmed paths, each once |
| FilePathGroups.KindsCount | hub/internal/hub/file_path_rules.go:105-106 | the counts say how many events of each type there are, and add up to all of them |
| FilePathGroups.NoCoveredEvent | hub/internal/hub/file_path_rules.go:71-75 | no covered event is in a chain |
| FilePathGroups.AppendUniqueString | hub/internal/hub/file_path_rules.go:616-625 | a path is appended unless it is empty or there |
| FilePathGroups.BuildSuspiciousFilePathChains | hub/internal/hub/file_path_rules.go:66-113 | the loop over a map of groups equals filtering the input group by group |
| Correlation.NextAtIsFirst | hub/internal/hub/correlation.go:330-341 | on sorted events the search returns k if and only if k is the first fitting event in time |
| Correlation.FindNextEventAt | hub/internal/hub/correlation.go:330-341 | the search loop |
| Correlation.WalkKeeps | hub/internal/hub/correlation.go:210-262 | what every step of the walk keeps about chains, covered events and suppressed pairs |
| Correlation.NoPairReportedTwice | hub/internal/hub/correlation.go:210-287 | with unique keys the output never holds a probable incident and a follow-up chain for one file change and one follow-up |
| Correlation.FilesReportedOnce | hub/internal/hub/correlation.go:210-265 | a file change in a correlation chain is in no file path chain |
| Correlation.WebEventsReportedOnce | hub/internal/hub/correlation.go:210-268 | a web event in a chain with a file change is in no admin request chain |
| Correlation.EveryPairIsReported | hub/internal/hub/correlation.go:221-241 | every suspicious web event with a file change in time is reported under its chain's ID, and the output's IDs are distinct |
| CorrelationLaws.WebEventIsReported | hub/internal/hub/correlation.go:221-241 | a suspicious web event with a high-signal file change on its host or app in the window is reported with the first one: as a probable incident with the first escalation, if there is one in time and both are of the kinds incidents have, and otherwise as web activity followed by a file change |
| CorrelationLaws.FollowUpIsReported | hub/internal/hub/correlation.go:243-261 | a high-signal file change with a database security or persistence event after it in the window is reported with the first one, persistence before database security, unless a probable incident that ends in that pair is made and reported |
| CorrelationLaws.DiffIsReported | hub/internal/hub/correlation.go:217-219 | a database snapshot difference is reported |
| CorrelationLaws.OutputIsJustified | hub/internal/hub/correlation.go:210-262 | every correlation chain of the output holds events of the kinds its rule names, in order and in the window |
| CorrelationLaws.WalkIsSound | hub/internal/hub/correlation.go:210-262 | a pair is suppressed, a file change covered or a web event covered only by a chain that is about it |
| CorrelationLaws.FileRuleEventIsReported | hub/internal/hub/correlation.go:263-265 | a file event that matches a path rule is reported in a chain of the walk about it or in a file path chain that holds it |
| CorrelationLaws.AccessEventIsSeen | hub/internal/hub/correlation.go:266-268 | an access event is reported in a chain with a file change, or the admin passes see it |
| CorrelationLaws.ObservedInOrder | hub/internal/hub/admin_request_rules.go:65-81 | the admin passes see uncovered access events only, each once, in order |
| CorrelationLaws.RequestChainsAreReported | hub/internal/hub/correlation.go:266-271 | every chain of the admin and traffic passes is reported |
| Correlation.AdminRequestObservations | hub/internal/hub/admin_request_rules.go:65-82 | access events not covered, observed |
| Correlation.CorrelateTimelineEvents | hub/internal/hub/correlation.go:210-271 | the walk, then file path, admin request and traffic chains over what it covered, one chain per ID |

## Left out

- LogBatches.BatchImageInjective: for different paths needs paths without a newline, because the code separates the hashed parts by newlines; `LogCollisions.PathsCollideIff` has the exact condition.
- LogCollisions.PathsCollideIff: a scan may start at any offset and a batch may be of any generation; whether an agent comes to scan both files so is not asked.
- LogTailer.NoLineIsLost: paths have no newline, for the same reason, and identifiers of other batches start with a digit, as the time they begin with does; a hash is a function without collisions, where the code keeps 24 hexadecimal digits of SHA-256.
- LogTailer.EveryRecordIsAccepted: is about files that only grew and backlogs within the scan bound; what a cut line becomes is in `LogReader.CutIff`.
- LogStarts.NewFileIsReadWhole: each scan finds at most 8 MiB unread, as for EveryRecordIsAccepted; appends between opening and reading are allowed once the file has a cursor.
- LogCursor.PositionsIncrease: is about a file that is configured by name and does not change while it is scanned; a directory's files lose their cursor when they vanish.
- LogCursor.RewriteDuringScanIsCaught: allows one change of content during a scan, between opening with the first checkpoint comparison and reading; a file that changes while it is read or between reading and the snapshot is not modelled.
- LogWatcher.Watcher.ScanOne: as for RewriteDuringScanIsCaught, and so is ScanAll.
- LogReader.ReadNewLogLines: read errors other than the end of the file are not modelled; offsets and generations do not wrap at 64 bits.
- LogWatcher.Watcher.ScanLogPaths: runs with events wanted; a scan without events only moves cursors.
- BatchQueue.FileNameInjective: is about IDs of safe characters; other characters are mapped to underscores, so that two IDs can share a file.
- AgentRuntime.QueueDir.EnqueueEvents: the defaults and trimming of IDs, names and labels and the checks of event types come before what is modelled.
- AgentRuntime.QueueDir.SendQueuedAll: nobody else enqueues during the drain; errors of listing directories are not modelled, nor are two files of one name in the failed or discarded directory, which the code renames.
- QueueLaws.WaitsForAnswer: is about a queue without a cap; with one, an overflow may discard the batch, as BatchQueue.EnqueueKeepsCapAndBatches says.
- SingleFlightMachine.NoTriggerIsLost: an invocation counts as covering what it was given, even when it fails, because the code drops the error of every invocation but the last; a runner that panics is not modelled.
- SingleFlight.MergeCovers: a zero since counts as covered by any since, because merging it with a set time keeps the set time; scopes are compared as whole values, trimming of slugs is not modelled.
- RenderedConfluence.Confluence: requests share no URL, chains repeat none, each request keeps one resource type and every request event names an initiator; quiet periods and timeouts are not modelled.
- RenderedShared.ConvergesIff: URLs are shared only by requests without redirects; where a redirect chain shares a URL, the initiator of an early response can come from another request and go on to other URLs, and no condition is given.
- AdminCoverage.DisjointAttribution: sortedness and unique keys are needed only for the parts that say so; severities, titles and summaries are not modelled.
- AdminChains.EveryStepOk: time additions do not saturate, and the text a seen-window key is made of stands as a pair, since its time part has a fixed length.
- WatchHash.CacheIsExact: assumes that a change of content shows in the metadata; `WatchRuns.ChangeIsReported` does without.
- WatchScan.DiffWatchState: the order of the events, which the code sorts by target, is left out.
- WatchScan.StateFile.ScanWatchedPaths: a file is not written to while it is hashed, and hashing it does not fail; the runs of `WatchHash` are made of the scans that succeed, since the others leave the state as it was.
- Totp.ReplayStore.VerifyAndConsumeTotpCode: a zero time is not replaced by the clock, as for SingleUse.
- Totp.SingleUse: a zero time, which the code replaces by the clock once when it looks a code up and once when it consumes it, is left out; so are the bits of a code, which is a function of secret and counter.
- PhpStrings.RoundTrip: floating-point values and objects are not part of the values serialized; a serialization is no longer than a Go string can be.
- FilePathGroups.GroupChainShows: severity, title, summary and the limit of 25 files shown are left out; a group's ID stands for the hash of its parts.
- Correlation.CorrelateTimelineEvents: the final sort by severity, first time and ID is left out, so that the laws are about which chains are returned, not their order; web traffic chains are an abstract list of IDs.
- The string classifiers (admin paths, noise rules, severities, file and database rules) are parameters: they read one event and keep nothing.
- Parsing of log lines into events, redaction, labels and Tor matching: they change an event's content, not which events there are.
- Discovery of log files in directories, of watched paths and of profiles; file locks, fsync and atomic rename, which the model takes as one step.
- Retention of sent batches, the status command, and discarding pending batches on command.
- HTTP, encryption, SQL collection, browser control, storage adapters, dashboards and configuration.
