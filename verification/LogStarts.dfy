/** Where reading of a log file begins, and that a file that appears is read whole. */
module LogStarts {
  import opened LogReader
  import opened LogBatches
  import opened LogCursor
  import opened LogTailer
  import BatchQueue
  import QueueLaws

  // ----- one scan

  /** A file without a cursor that is configured by name is read from its first byte, in generation 1: of up to 8 MiB, all
      newline-terminated records up to the saved offset, which is right behind a newline; and that is all of them unless
      the scan reaches 50 000 lines. */
  lemma NewPathIsReadWhole(first: LogFile, later: LogFile)
    requires |later.bytes| <= 8_388_608
    ensures var scan := ScanTarget(NoCursor, true, first, later);
            && scan.start == 0 && scan.state.generation == 1 && !scan.rotated && !scan.state.missing
            && 0 <= scan.state.offset <= |later.bytes| && Boundary(later.bytes, 0, scan.state.offset)
            && scan.pieces == RecordPieces(later.bytes, 0, scan.state.offset)
            && (|Lines(scan.pieces)| < 50_000 ==> scan.pieces == RecordPieces(later.bytes, 0, |later.bytes|))
  {
    hide Pieces, RecordPieces, Lines;
    ScanTiles(NoCursor, true, first, later);
    ScanUnderBound(later.bytes, 0, 0, 0);
    EndNotBefore(later.bytes, 0, 0, 0);
  }

  /** A file that is found in a directory and has no cursor is taken up at the size it had when it was opened; what it held
      before is not read. */
  lemma FoundFileIsTakenUpAtItsEnd(first: LogFile, later: LogFile)
    requires first.bytes <= later.bytes
    ensures var scan := ScanTarget(NoCursor, false, first, later);
            && scan.start == |first.bytes| && scan.state.generation == 1 && !scan.rotated && !scan.state.missing
            && (first == later ==> scan.pieces == [] && scan.state.offset == |first.bytes|)
  {
    hide Pieces;
    ScanTiles(NoCursor, false, first, later);
    PiecesAtEnd(first.bytes, |first.bytes|, 0, 0);
  }

  /** The bytes before the saved offset, at most 4096 of them, are not what they were. */
  predicate TailDiffers(s: LogState, file: LogFile)
    requires 0 <= s.offset <= |file.bytes|
  {
    file.bytes[if s.offset < 4_096 then 0 else s.offset - 4_096..s.offset] != s.checkpoint
  }

  /** The file was missing, is another file, got shorter than the saved offset, or has another tail there. */
  predicate Again(s: LogState, file: LogFile)
    requires 0 <= s.offset
  {
    s.missing || (s.identity != "" && file.identity != "" && s.identity != file.identity)
    || |file.bytes| < s.offset || TailDiffers(s, file)
  }

  /** A file is read again from its first byte, in the next generation, if and only if it is not the one the cursor
      was saved for; otherwise it is read on from the saved offset. */
  lemma ReadAgainIff(s: LogState, fromStart: bool, file: LogFile)
    requires LogCursor.Valid(s)
    ensures var scan := ScanTarget(Cursor(s), fromStart, file, file);
            && scan.rotated == Again(s, file)
            && scan.start == (if Again(s, file) then 0 else s.offset)
            && scan.state.generation == (if Again(s, file) then s.generation + 1 else s.generation)
            && scan.state.identity == file.identity && !scan.state.missing
  {
    hide Pieces;
    GenerationAndStart(s, fromStart, file, file);
  }

  // ----- one step of the machine

  /** What a completed scan does to the cursor of a path. Without a state file it puts the cursor at the end of each file it
      opens and reads nothing. With one, it forgets a path it does not open, unless the path is configured by name or
      vanished between discovery and opening: then it keeps the cursor and marks it. */
  lemma CursorAfterScan(hash: string -> string, w: World, input: ScanInput, path: string)
    requires InputFits(w, input)
    ensures var after := Next(hash, w, FullScan(input));
            && after.saved.State?
            && (path in input.targets ==> path in after.saved.logs)
            && (path in input.targets && w.saved == NoStateFile && path !in input.atOpen ==>
                  after.saved.logs[path].offset == |w.files[path].bytes| && after.saved.logs[path].generation == 1
                  && !after.saved.logs[path].missing)
            && (path !in input.targets ==>
                  (path in after.saved.logs <==>
                     w.saved.State? && path in w.saved.logs && (path in input.explicitPaths || path in input.vanished)))
            && (path !in input.targets && path in after.saved.logs ==>
                  after.saved.logs[path] == w.saved.logs[path].(missing := true))
  {
    hide EnqueueAll, ScanEntries, ScanTarget;
  }

  /** Every completed scan that opens a file leaves a sign of life: lines, or else one event that says that the baseline was
      created or that the scan is done. */
  lemma ScanLeavesASign(hash: string -> string, w: World, input: ScanInput)
    requires InputFits(w, input) && input.targets != []
    ensures var entries := ScanEntries(hash, w.files, w.saved, input);
            && entries != []
            && (w.saved == NoStateFile ==>
                  |entries| == 1 && entries[0].content.events == [BatchQueue.OtherEvent("log.baseline.created")])
            && (w.saved.State? && LogEntries(hash, w.files, w.saved.logs, input, input.targets) == [] ==>
                  |entries| == 1 && entries[0].content.events == [BatchQueue.OtherEvent("log.scan.completed")])
            && (w.saved.State? && LogEntries(hash, w.files, w.saved.logs, input, input.targets) != [] ==>
                  entries == LogEntries(hash, w.files, w.saved.logs, input, input.targets))
  {
    hide LogEntries;
  }

  /** Every batch a scan enqueues names the agent, so that a success answer delivers it. */
  lemma ScanEntriesAreMine(hash: string -> string, files: map<string, LogFile>, saved: Saved, input: ScanInput)
    requires input.agentId != "" && forall i | 0 <= i < |input.targets| :: input.targets[i] in files
    ensures forall e | e in ScanEntries(hash, files, saved, input) :: QueueLaws.Mine(e.content, input.agentId)
  {
    hide LogEntries;
    if saved.State? {
      LogEntriesAreMine(hash, files, saved.logs, input, input.targets);
    }
  }

  lemma {:induction false} LogEntriesAreMine(hash: string -> string, files: map<string, LogFile>,
                                             logs: map<string, LogState>, input: ScanInput, targets: seq<string>)
    requires input.agentId != "" && forall i | 0 <= i < |targets| :: targets[i] in files
    ensures forall e | e in LogEntries(hash, files, logs, input, targets) :: QueueLaws.Mine(e.content, input.agentId)
  {
    hide ScanOf, Batches, Lines, BatchId;
    if targets != [] {
      LogEntriesAreMine(hash, files, logs, input, targets[..|targets| - 1]);
    }
  }

  ghost function RotatedTargets(files: map<string, LogFile>, logs: map<string, LogState>, input: ScanInput,
                                targets: seq<string>): set<nat>
    requires forall i | 0 <= i < |targets| :: targets[i] in files
  {
    set i: nat | i < |targets| && ScanOf(logs, input, targets[i], files[targets[i]]).rotated
  }

  lemma RotatedTargetsSnoc(files: map<string, LogFile>, logs: map<string, LogState>, input: ScanInput, targets: seq<string>)
    requires targets != [] && forall i | 0 <= i < |targets| :: targets[i] in files
    ensures var n := |targets| - 1;
            && n !in RotatedTargets(files, logs, input, targets[..n])
            && RotatedTargets(files, logs, input, targets)
               == RotatedTargets(files, logs, input, targets[..n])
                  + if ScanOf(logs, input, targets[n], files[targets[n]]).rotated then {n} else {}
  {
    hide ScanOf;
    var init := targets[..|targets| - 1];
    assert forall i | 0 <= i < |init| :: init[i] == targets[i];
  }

  /** The rotations a scan reports are the files it reads again from their first byte. */
  lemma {:induction false} RotationsCount(files: map<string, LogFile>, logs: map<string, LogState>, input: ScanInput,
                                          targets: seq<string>)
    requires forall i | 0 <= i < |targets| :: targets[i] in files
    ensures Rotations(files, logs, input, targets) == |RotatedTargets(files, logs, input, targets)|
  {
    hide ScanOf;
    if targets != [] {
      RotationsCount(files, logs, input, targets[..|targets| - 1]);
      RotatedTargetsSnoc(files, logs, input, targets);
      hide RotatedTargets;
    }
  }

  /** Scans of a file that is configured by name are the steps over which positions increase. */
  lemma ScanIsWatchStep(hash: string -> string, w: World, input: ScanInput, path: string, positions: seq<Position>)
    requires InputFits(w, input) && w.saved.State? && path in w.saved.logs && path in input.explicitPaths
    requires path !in input.atOpen
    ensures var seen := if path in input.targets then Present(w.files[path]) else Absent;
            var after := Next(hash, w, FullScan(input));
            && path in after.saved.logs
            && after.saved.logs[path] == WatchNext(Watch(w.saved.logs[path], positions), seen).state
  {
    hide EnqueueAll, ScanEntries, Pieces, Snapshot;
    CursorAfterScan(hash, w, input, path);
    if path in input.targets {
      SameCursorSameScan(w.saved.logs[path], path in input.fromStart, w.files[path]);
    }
  }

  lemma SameCursorSameScan(s: LogState, fromStart: bool, file: LogFile)
    ensures ScanTarget(Cursor(s), fromStart, file, file) == ScanTarget(Cursor(s), true, file, file)
  {
    hide Pieces, Snapshot;
  }

  // ----- runs

  /** A scan begins with the file's first byte: the file is configured by name and new, or has to be read again. */
  predicate Appears(w: World, step: Step, path: string) {
    && step.FullScan? && w.saved.State? && path in w.files && path in step.input.targets
    && path !in step.input.atOpen && |w.files[path].bytes| <= 8_388_608
    && if path in w.saved.logs then LogCursor.Valid(w.saved.logs[path]) && Again(w.saved.logs[path], w.files[path])
       else path in step.input.fromStart
  }

  function OffsetOf(w: World, path: string): int {
    if w.saved.State? && path in w.saved.logs then w.saved.logs[path].offset else 0
  }

  /** The step leaves the file in its place and only appends to it. A scan opens it, finds at most 8 MiB it has not read, and
      if the file is appended to between opening and reading, had the saved offset in it when opened. */
  predicate KeepsGrowing(w: World, step: Step, path: string) {
    path in w.files
    && var file := w.files[path];
       match step
       case Write(p, next) => p == path ==> next.identity == file.identity && file.bytes <= next.bytes
       case Remove(p) => p != path
       case FullScan(input) =>
         && path in input.targets && |file.bytes| - OffsetOf(w, path) <= 8_388_608
         && (path in input.atOpen ==>
               && input.atOpen[path].identity == file.identity
               && OffsetOf(w, path) <= |input.atOpen[path].bytes| && input.atOpen[path].bytes <= file.bytes)
       case _ => true
  }

  /** The file appears in some scan of the run, and from then on only grows. */
  ghost predicate AppearsAndGrows(hash: string -> string, w: World, steps: seq<Step>, path: string)
    requires RunAllowed(hash, w, steps)
    decreases |steps|
  {
    steps != []
    && var before, step := Run(hash, w, steps[..|steps| - 1]), steps[|steps| - 1];
       Appears(before, step, path)
       || (AppearsAndGrows(hash, w, steps[..|steps| - 1], path) && KeepsGrowing(before, step, path))
  }

  /** The cursor is good for the file as it is, and everything read counts from the first byte. */
  predicate Follows(w: World, path: string) {
    && path in w.files && w.saved.State? && path in w.saved.logs && path in w.readings
    && var s, r, file := w.saved.logs[path], w.readings[path], w.files[path];
       && !s.missing && s.identity == file.identity && TakenOf(s, file.bytes)
       && r.begin == 0 && r.clean && r.bytes <= file.bytes
  }

  lemma AppearsFollows(hash: string -> string, w: World, step: Step, path: string)
    requires Allowed(w, step) && Appears(w, step, path)
    ensures Follows(LogTailer.Next(hash, w, step), path)
  {
    hide EnqueueAll, ScanEntries, Pieces, Tiles, AllOccur, Again, ScanTarget, Snapshot, TakenOf, LogCursor.Valid;
    var file, input := w.files[path], step.input;
    ScanTiles(PreviousOf(w.saved.logs, path), path in input.fromStart, file, file);
    if path in w.saved.logs {
      ReadAgainIff(w.saved.logs[path], path in input.fromStart, file);
    } else {
      NewPathIsReadWhole(file, file);
      NewIdentity(file);
    }
  }

  lemma NewIdentity(file: LogFile)
    ensures ScanTarget(NoCursor, true, file, file).state.identity == file.identity
  {
    hide Pieces;
  }

  lemma GrowsFollows(hash: string -> string, w: World, step: Step, path: string)
    requires Allowed(w, step) && KeepsGrowing(w, step, path) && Follows(w, path)
    ensures Follows(LogTailer.Next(hash, w, step), path)
  {
    match step
    case Write(p, next) =>
      if p == path {
        TakenOfExtension(w.saved.logs[path], w.files[path].bytes, next.bytes);
      }
    case FullScan(input) =>
      ScanFollows(hash, w, input, path);
    case _ =>
  }

  lemma TakenOfExtension(s: LogState, bytes: string, more: string)
    requires TakenOf(s, bytes) && bytes <= more
    ensures TakenOf(s, more)
  {
    assert more[s.checkpointOffset..s.offset] == bytes[s.checkpointOffset..s.offset];
  }

  lemma NotRotated(s: LogState, fromStart: bool, first: LogFile, file: LogFile)
    requires TakenOf(s, file.bytes) && !s.missing && s.identity == first.identity == file.identity
    requires s.offset <= |first.bytes| && first.bytes <= file.bytes
    ensures var scan := ScanTarget(Cursor(s), fromStart, first, file);
            && !scan.rotated && scan.start == s.offset && scan.state.identity == file.identity && !scan.state.missing
            && scan.state.generation == s.generation
  {
    hide Pieces;
    assert first.bytes[s.checkpointOffset..s.offset] == file.bytes[s.checkpointOffset..s.offset];
  }

  lemma ScanFollows(hash: string -> string, w: World, input: ScanInput, path: string)
    requires InputFits(w, input) && KeepsGrowing(w, FullScan(input), path) && Follows(w, path)
    ensures Follows(LogTailer.Next(hash, w, FullScan(input)), path)
  {
    hide EnqueueAll, ScanEntries, Pieces, Tiles, AllOccur, ScanTarget, Snapshot;
    var s, file := w.saved.logs[path], w.files[path];
    var first := AtOpen(input, path, file);
    NotRotated(s, path in input.fromStart, first, file);
    ScanTiles(Cursor(s), path in input.fromStart, first, file);
  }

  lemma {:induction false} RunFollows(hash: string -> string, w: World, steps: seq<Step>, path: string)
    requires RunAllowed(hash, w, steps) && AppearsAndGrows(hash, w, steps, path)
    ensures Follows(Run(hash, w, steps), path)
    decreases |steps|
  {
    hide LogTailer.Next, Allowed, Appears, KeepsGrowing, Follows;
    var init, step := steps[..|steps| - 1], steps[|steps| - 1];
    var before := Run(hash, w, init);
    if Appears(before, step, path) {
      AppearsFollows(hash, before, step, path);
    } else {
      RunFollows(hash, w, init, path);
      GrowsFollows(hash, before, step, path);
    }
  }

  /** Of a file that appears and then only grows, every non-blank newline-terminated record from its first byte to the saved
      cursor is in an accepted batch, through crashes, overflows and sends; and after a scan that finds fewer than 50 000
      lines it has not read, every such record of the whole file. */
  lemma NewFileIsReadWhole(hash: string -> string, w: World, steps: seq<Step>, path: string)
    requires HashWorks(hash) && Initial(w) && RunAllowed(hash, w, steps) && AppearsAndGrows(hash, w, steps, path)
    ensures var now := Run(hash, w, steps);
            && path in now.files && now.saved.State? && path in now.saved.logs
            && var s, bytes := now.saved.logs[path], now.files[path].bytes;
               && 0 <= s.offset <= |bytes|
               && AllAccepted(now.queue.accepted, path, s.generation, Lines(RecordPieces(bytes, 0, s.offset)))
               && (steps[|steps| - 1].FullScan? && FewLinesLeft(hash, w, steps, path) ==>
                     AllAccepted(now.queue.accepted, path, s.generation, Lines(RecordPieces(bytes, 0, |bytes|))))
  {
    RunFollows(hash, w, steps, path);
    EveryRecordIsAccepted(hash, w, steps, path);
    hide HashWorks, Run, Lines, RecordPieces, FewLinesLeft, AppearsAndGrows, RunAllowed;
    if steps[|steps| - 1].FullScan? && FewLinesLeft(hash, w, steps, path) {
      LastScanCatchesUp(hash, w, steps, path);
    }
  }

  /** The last scan of the run has fewer than 50 000 lines to read. */
  ghost predicate FewLinesLeft(hash: string -> string, w: World, steps: seq<Step>, path: string)
    requires RunAllowed(hash, w, steps) && steps != []
  {
    var before := Run(hash, w, steps[..|steps| - 1]);
    path in before.files
    && var bytes, offset := before.files[path].bytes, if Appears(before, steps[|steps| - 1], path) then 0 else OffsetOf(before, path);
       0 <= offset <= |bytes| && |Lines(RecordPieces(bytes, offset, |bytes|))| < 50_000
  }

  /** A scan of up to 8 MiB with fewer than 50 000 lines to read leaves no record. */
  lemma CatchesUp(bytes: string, p: nat, end: nat)
    requires p <= |bytes| && |bytes| - p <= MAX_LOG_READ_BYTES && end == End(p, Pieces(bytes, p, 0, 0))
    requires |Lines(RecordPieces(bytes, p, |bytes|))| < MAX_LOG_LINES_PER_SCAN
    requires Boundary(bytes, 0, end)
    ensures RecordPieces(bytes, 0, end) == RecordPieces(bytes, 0, |bytes|)
  {
    hide Pieces, RecordPieces, Lines, RecordEnd;
    ScanUnderBound(bytes, p, 0, 0);
    var pieces, left := Pieces(bytes, p, 0, 0), RecordPieces(bytes, end, |bytes|);
    RecordPiecesSplit(bytes, p, end, |bytes|);
    LinesConcat(pieces, left);
    assert pieces + left == pieces;
    assert |pieces + left| == |pieces| + |left|;
    RecordPiecesSplit(bytes, 0, end, |bytes|);
  }

  /** Where the last scan read from and to. */
  lemma LastScanIs(hash: string -> string, w: World, step: Step, path: string)
    requires Allowed(w, step) && step.FullScan?
    requires Appears(w, step, path) || (KeepsGrowing(w, step, path) && Follows(w, path))
    ensures var now := LogTailer.Next(hash, w, step);
            var p := if Appears(w, step, path) then 0 else OffsetOf(w, path);
            && path in w.files && now.files == w.files
            && 0 <= p <= |w.files[path].bytes| && |w.files[path].bytes| - p <= MAX_LOG_READ_BYTES
            && OffsetOf(now, path) == End(p, Pieces(w.files[path].bytes, p, 0, 0))
  {
    hide EnqueueAll, ScanEntries, Pieces, AllOccur, Again, ScanTarget, Snapshot, End;
    var file, input := w.files[path], step.input;
    var scan := ScanOf(w.saved.logs, input, path, file);
    ScanTiles(PreviousOf(w.saved.logs, path), path in input.fromStart, AtOpen(input, path, file), file);
    EndIs(scan.pieces, scan.start, scan.state.offset);
    if Appears(w, step, path) {
      if path in w.saved.logs {
        ReadAgainIff(w.saved.logs[path], path in input.fromStart, file);
      } else {
        NewPathIsReadWhole(file, file);
      }
    } else {
      NotRotated(w.saved.logs[path], path in input.fromStart, AtOpen(input, path, file), file);
    }
  }

  lemma BoundaryAt(hash: string -> string, w: World, steps: seq<Step>, path: string)
    requires HashWorks(hash) && Initial(w) && RunAllowed(hash, w, steps) && Follows(Run(hash, w, steps), path)
    ensures var now := Run(hash, w, steps);
            Boundary(now.files[path].bytes, 0, OffsetOf(now, path))
  {
    hide HashWorks, RecordPieces, Lines, Accepted, Tiles, Run;
    NoLineIsLost(hash, w, steps);
    var now := Run(hash, w, steps);
    hide QueueSound;
    assert ReadingSound(now, path, now.saved.logs[path], now.readings[path]);
    RecordPiecesOfExtension(now.readings[path].bytes, now.files[path].bytes, 0, OffsetOf(now, path));
  }

  lemma LastScanCatchesUp(hash: string -> string, w: World, steps: seq<Step>, path: string)
    requires HashWorks(hash) && Initial(w) && RunAllowed(hash, w, steps) && AppearsAndGrows(hash, w, steps, path)
    requires steps[|steps| - 1].FullScan? && FewLinesLeft(hash, w, steps, path)
    ensures var now := Run(hash, w, steps);
            && path in now.files && 0 <= OffsetOf(now, path)
            && RecordPieces(now.files[path].bytes, 0, OffsetOf(now, path))
               == RecordPieces(now.files[path].bytes, 0, |now.files[path].bytes|)
  {
    var init, step := steps[..|steps| - 1], steps[|steps| - 1];
    var before, now := Run(hash, w, init), Run(hash, w, steps);
    assert now == LogTailer.Next(hash, before, step);
    RunFollows(hash, w, steps, path);
    BoundaryAt(hash, w, steps, path);
    if !Appears(before, step, path) {
      RunFollows(hash, w, init, path);
    }
    hide HashWorks, Run, LogTailer.Next, Pieces, RecordPieces, Lines, Follows, KeepsGrowing, Boundary;
    LastScanIs(hash, before, step, path);
    CatchesUp(before.files[path].bytes, if Appears(before, step, path) then 0 else OffsetOf(before, path), OffsetOf(now, path));
  }
}
