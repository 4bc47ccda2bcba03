/** ScanLogPaths and enqueueLogLineBatches as they run: they fill maps and chunks step by step and write to the queue.
    Each is proved equal to the functions of LogTailer that the run theorems are about. */
module LogWatcher {
  import opened LogReader
  import opened LogBatches
  import opened LogCursor
  import opened LogTailer
  import opened BatchQueue
  import opened StringOrder
  import opened AgentRuntime

  /** One file of ScanLogPaths: the first checkpoint comparison sees `first`, everything after it `later`. */
  method ScanFile(previous: Previous, fromStart: bool, first: LogFile, later: LogFile)
    returns (state: LogState, generation: nat, lines: seq<LogLine>, rotated: bool)
    requires previous.Cursor? ==> previous.state.generation >= 1
    ensures var scan := ScanTarget(previous, fromStart, first, later);
            && state == scan.state && generation == scan.state.generation && lines == Lines(scan.pieces)
            && rotated == scan.rotated
  {
    hide Lines, Pieces, Rotated, CheckpointMatches;
    var start: int := |first.bytes|;
    generation := 1;
    rotated := false;
    if previous.Cursor? {
      generation := NormalizedGeneration(previous.state.generation);
      start := previous.state.offset;
      if Rotated(previous.state, first) {
        start := 0;
        generation := generation + 1;
        rotated := true;
      }
    } else if fromStart {
      start := 0;
    }
    var offset;
    lines, offset := ReadNewLogLines(later.bytes, start);
    state := Snapshot(later, offset, generation);
    if previous.Cursor? && !rotated {
      // The file may have been rewritten while it was read: compare with the old checkpoint once more.
      if !CheckpointMatches(later, previous.state) {
        generation := generation + 1;
        rotated := true;
        lines, offset := ReadNewLogLines(later.bytes, 0);
        state := Snapshot(later, offset, generation);
      }
    }
  }

  /** Batches that are closed and concatenate to the beginning of the lines are the first batches of the lines. */
  lemma FlushedArePrefix(lines: seq<LogLine>, flushed: seq<seq<LogLine>>)
    requires Concat(flushed) <= lines
    requires forall i | 0 <= i < |flushed| :: IsBatch(flushed[i]) && Closed(flushed[i])
    ensures flushed <= Batches(lines)
  {
    hide Batches, IsBatch, Closed;
    BatchesAreGreedy(lines);
    ClosedBatchesAreStable(Concat(flushed), flushed, lines, Batches(lines));
    assert forall i | 0 <= i < |flushed| :: Batches(lines)[i] == flushed[i];
  }

  lemma {:induction false} ConcatSnoc(batches: seq<seq<LogLine>>, batch: seq<LogLine>)
    ensures Concat(batches + [batch]) == Concat(batches) + batch
  {
    if batches == [] {
      assert [batch][1..] == [];
      assert batches + [batch] == [batch];
    } else {
      ConcatSnoc(batches[1..], batch);
      assert (batches + [batch])[1..] == batches[1..] + [batch];
    }
  }

  lemma AllFlushed(lines: seq<LogLine>, flushed: seq<seq<LogLine>>)
    requires Concat(flushed) == lines
    requires forall i | 0 <= i < |flushed| :: IsBatch(flushed[i])
    requires forall i | 0 <= i < |flushed| - 1 :: Closed(flushed[i])
    ensures flushed == Batches(lines)
  {
    BatchesAreGreedy(lines);
    SplitIsUnique(lines, flushed, Batches(lines));
  }

  lemma EntriesSnoc(hash: string -> string, agentId: string, path: string, generation: nat,
                    batches: seq<seq<LogLine>>, batch: seq<LogLine>, q: Queue, maxFiles: int)
    ensures var entry := BatchEntry(hash, agentId, path, generation, batch);
            EnqueueAll(q, BatchEntries(hash, agentId, path, generation, batches + [batch]), maxFiles)
            == Enqueue(EnqueueAll(q, BatchEntries(hash, agentId, path, generation, batches), maxFiles),
                       entry.name, entry.content, maxFiles)
  {
    hide Enqueue, BatchEntry;
    var entries := BatchEntries(hash, agentId, path, generation, batches + [batch]);
    assert entries[..|entries| - 1] == BatchEntries(hash, agentId, path, generation, batches);
  }

  lemma BytesSnoc(chunk: seq<LogLine>, line: LogLine)
    ensures Bytes(chunk + [line]) == Bytes(chunk) + line.bytes
  {
    assert (chunk + [line])[..|chunk|] == chunk;
  }

  lemma ImageSnoc(path: string, generation: nat, chunk: seq<LogLine>, line: LogLine)
    ensures BatchImage(path, generation, chunk + [line]) == BatchImage(path, generation, chunk) + LineImage(line)
    ensures BatchImage(path, generation, []) == ImageHeader(path, generation)
  {
    hide LineImage, ImageHeader;
    LinesImageSnoc(chunk, line);
  }

  lemma EventsSnoc(path: string, generation: nat, chunk: seq<LogLine>, line: LogLine)
    ensures Events(path, generation, chunk + [line])
         == Events(path, generation, chunk) + [LogLineEvent(path, generation, line.offset, line.text)]
  {
  }

  class Watcher {
    var saved: Saved
    const queue: QueueDir
    const hash: string -> string

    constructor (queue: QueueDir, hash: string -> string)
      ensures this.queue == queue && this.hash == hash && saved == NoStateFile
    {
      this.queue := queue;
      this.hash := hash;
      saved := NoStateFile;
    }

    /** The flush closure of enqueueLogLineBatches. */
    method Flush(path: string, generation: nat, ghost lines: seq<LogLine>, chunk: seq<Event>, image: string,
                 agentId: string, maxFiles: int, renames: nat, writable: bool)
      returns (ok: bool, ghost discards: nat)
      requires lines != [] && chunk == Events(path, generation, lines) && image == BatchImage(path, generation, lines)
      modifies queue
      ensures var entry := BatchEntry(hash, agentId, path, generation, lines);
              ok ==> queue.View() == Enqueue(old(queue.View()), entry.name, entry.content, maxFiles)
      ensures !ok ==> queue.View() == Discard(old(queue.View()), discards)
    {
      hide BatchImage, Enqueue, Discard;
      ok, discards := queue.EnqueueEvents("log-" + hash(image), agentId, chunk, maxFiles, renames, writable);
    }

    /** enqueueLogLineBatches. Call number k to the queue meets the outcome io(k). When a call fails, the batches before
        it are in the queue, it has at most discarded least files, and nothing after it is tried. */
    method EnqueueLogLineBatches(path: string, generation: nat, lines: seq<LogLine>, agentId: string, maxFiles: int,
                                 io: nat -> (nat, bool), calls: nat)
      returns (ok: bool, queued: nat, callsAfter: nat, ghost done: nat, ghost discards: nat)
      modifies queue
      ensures var entries := BatchEntries(hash, agentId, path, generation, Batches(lines));
              && done <= |entries|
              && (ok ==> queue.View() == EnqueueAll(old(queue.View()), entries, maxFiles) && queued == |lines|)
              && (!ok ==> entries != []
                          && queue.View() == Discard(EnqueueAll(old(queue.View()), entries[..done], maxFiles), discards))
    {
      hide Batches, BatchEntry, EnqueueAll, Discard, BatchImage, LineImage, ImageHeader, Bytes, IsBatch;
      queued, callsAfter, done, discards := 0, calls, 0, 0;
      var chunk: seq<Event> := [];
      var chunkBytes := 0;
      var image := "";
      ghost var chunkLines: seq<LogLine> := [];
      ghost var flushed: seq<seq<LogLine>> := [];
      ghost var start := queue.View();
      EmptyStart(start, path, generation, agentId, maxFiles);
      for i := 0 to |lines|
        invariant Concat(flushed) + chunkLines == lines[..i]
        invariant forall j | 0 <= j < |flushed| :: IsBatch(flushed[j]) && Closed(flushed[j])
        invariant !Closed(chunkLines) && chunkBytes == Bytes(chunkLines) && chunk == Events(path, generation, chunkLines)
        invariant image == if chunkLines == [] then "" else BatchImage(path, generation, chunkLines)
        invariant queued + |chunk| == i
        invariant queue.View() == EnqueueAll(start, BatchEntries(hash, agentId, path, generation, flushed), maxFiles)
      {
        var line := lines[i];
        if |chunk| == 0 {
          image := ImageHeader(path, generation);
        }
        image := image + LineImage(line);
        chunk := chunk + [LogLineEvent(path, generation, line.offset, line.text)];
        chunkBytes := chunkBytes + line.bytes;
        TakeLine(path, generation, flushed, chunkLines, lines, i);
        chunkLines := chunkLines + [line];
        if |chunk| >= MAX_LOG_EVENTS_PER_BATCH || chunkBytes >= MAX_LOG_BATCH_BYTES {
          var outcome := io(callsAfter);
          callsAfter := callsAfter + 1;
          EntriesSnoc(hash, agentId, path, generation, flushed, chunkLines, start, maxFiles);
          FlushedSoFar(hash, agentId, path, generation, lines, flushed);
          ok, discards := Flush(path, generation, chunkLines, chunk, image, agentId, maxFiles, outcome.0, outcome.1);
          if !ok {
            done := |flushed|;
            return;
          }
          ConcatSnoc(flushed, chunkLines);
          flushed := flushed + [chunkLines];
          queued := queued + |chunk|;
          chunk, chunkBytes, image, chunkLines := [], 0, "", [];
          NothingOpen();
        }
      }
      assert lines[..|lines|] == lines;
      if |chunk| > 0 {
        var outcome := io(callsAfter);
        callsAfter := callsAfter + 1;
        EntriesSnoc(hash, agentId, path, generation, flushed, chunkLines, start, maxFiles);
        FlushedSoFar(hash, agentId, path, generation, lines, flushed);
        ok, discards := Flush(path, generation, chunkLines, chunk, image, agentId, maxFiles, outcome.0, outcome.1);
        if !ok {
          done := |flushed|;
          return;
        }
        ConcatSnoc(flushed, chunkLines);
        OpenIsBatch(chunkLines);
        flushed := flushed + [chunkLines];
        queued := queued + |chunk|;
      }
      AllFlushed(lines, flushed);
      ok := true;
    }

    /** One turn of the loop of ScanLogPaths when there is a state file. */
    method ScanOne(path: string, file: LogFile, logs: map<string, LogState>, input: ScanInput, io: nat -> (nat, bool),
                   calls: nat)
      returns (ok: bool, state: LogState, rotated: bool, queued: nat, callsAfter: nat, ghost done: nat, ghost discards: nat)
      requires path in logs ==> logs[path].generation >= 1
      modifies queue
      ensures var scan := ScanOf(logs, input, path, file);
              var own := TargetEntries(hash, input.agentId, path, scan);
              && state == scan.state && rotated == scan.rotated && done <= |own|
              && (ok ==> queue.View() == EnqueueAll(old(queue.View()), own, input.maxFiles) && (queued == 0 <==> own == []))
              && (!ok ==> own != []
                          && queue.View() == Discard(EnqueueAll(old(queue.View()), own[..done], input.maxFiles), discards))
    {
      hide EnqueueAll, Discard, ScanTarget, BatchEntry, Lines, Pieces, Batches;
      OwnEntries(hash, input.agentId, path, ScanOf(logs, input, path, file));
      var generation, lines;
      state, generation, lines, rotated := ScanFile(PreviousOf(logs, path), path in input.fromStart, AtOpen(input, path, file), file);
      ok, queued, callsAfter, done, discards :=
        EnqueueLogLineBatches(path, generation, lines, input.agentId, input.maxFiles, io, calls);
    }

    /** The loop of ScanLogPaths over the opened files when there is a state file. */
    method ScanAll(files: map<string, LogFile>, logs: map<string, LogState>, input: ScanInput, io: nat -> (nat, bool))
      returns (ok: bool, current: map<string, LogState>, rotated: nat, queued: nat, calls: nat, ghost done: nat,
               ghost discards: nat)
      requires forall i | 0 <= i < |input.targets| :: input.targets[i] in files
      requires forall path | path in logs :: logs[path].generation >= 1
      modifies queue
      ensures var entries := LogEntries(hash, files, logs, input, input.targets);
              && done <= |entries|
              && (ok ==> current == (map path | path in input.targets :: NextState(files, State(logs), input, path))
                         && queue.View() == EnqueueAll(old(queue.View()), entries, input.maxFiles)
                         && rotated == Rotations(files, logs, input, input.targets)
                         && (queued == 0 <==> entries == []))
              && (!ok ==> entries != [] && queue.View()
                          == Discard(EnqueueAll(old(queue.View()), entries[..done], input.maxFiles), discards))
    {
      hide TargetEntries, EnqueueAll, Discard, ScanOf, LogEntries, ScanEntries, NextLogs, Rotations, Snapshot, AtOpen,
           Heartbeat, Kept;
      ghost var start := queue.View();
      current := map[];
      rotated, queued, calls, done, discards := 0, 0, 0, 0, 0;
      EnqueueNothing(start, input.maxFiles);
      NoLogEntries(hash, files, logs, input);
      assert Rotations(files, logs, input, input.targets[..0]) == 0 by { NoRotations(files, logs, input); }
      for i := 0 to |input.targets|
        invariant current == map path | path in input.targets[..i] :: NextState(files, State(logs), input, path)
        invariant var soFar := LogEntries(hash, files, logs, input, input.targets[..i]);
                  && queue.View() == EnqueueAll(start, soFar, input.maxFiles)
                  && (queued == 0 <==> soFar == [])
        invariant rotated == Rotations(files, logs, input, input.targets[..i])
      {
        var path := input.targets[i];
        LogEntriesSnoc(hash, files, logs, input, i);
        RotationsSnoc(files, logs, input, i);
        ghost var soFar := LogEntries(hash, files, logs, input, input.targets[..i]);
        ghost var own := TargetEntries(hash, input.agentId, path, ScanOf(logs, input, path, files[path]));
        var state, wasRotated, n;
        ghost var some;
        ok, state, wasRotated, n, calls, some, discards := ScanOne(path, files[path], logs, input, io, calls);
        if wasRotated {
          rotated := rotated + 1;
        }
        if !ok {
          EnqueueAllConcat(start, soFar, own[..some], input.maxFiles);
          StoppedInside(hash, files, logs, input, i, some);
          assert own != [];
          done := |soFar| + some;
          return;
        }
        EnqueueAllConcat(start, soFar, own, input.maxFiles);
        queued := queued + n;
        assert input.targets[..i + 1] == input.targets[..i] + [path];
        current := current[path := state];
      }
      assert input.targets[..|input.targets|] == input.targets;
      ok := true;
    }

    /** ScanLogPaths, with events wanted, on files that may be written to once between being opened and being read. A
        completed scan is the machine's FullScan; a scan that fails (a queue call or the final save) is its CrashedScan:
        some of the batches are in the queue and the saved cursors are the old ones. */
    method ScanLogPaths(files: map<string, LogFile>, input: ScanInput, io: nat -> (nat, bool), saves: bool)
      returns (ok: bool, rotated: nat, ghost done: nat, ghost discards: nat)
      requires forall i | 0 <= i < |input.targets| :: input.targets[i] in files
      requires saved.State? ==> forall path | path in saved.logs :: saved.logs[path].generation >= 1
      modifies this`saved, queue
      ensures var entries := ScanEntries(hash, files, old(saved), input);
              && done <= |entries|
              && (ok ==> saved == State(NextLogs(files, old(saved), input))
                         && rotated == (match old(saved) case NoStateFile => 0
                                                         case State(logs) => Rotations(files, logs, input, input.targets))
                         && queue.View() == EnqueueAll(old(queue.View()), entries, input.maxFiles))
              && (!ok ==> saved == old(saved)
                          && queue.View() == Discard(EnqueueAll(old(queue.View()), entries[..done], input.maxFiles), discards))
    {
      hide TargetEntries, EnqueueAll, Discard, NextState, Heartbeat, Kept, LogEntries, NextLogs;
      ghost var start := queue.View();
      ghost var entries := ScanEntries(hash, files, saved, input);
      var current: map<string, LogState>;
      var queued, calls: nat := 0, 0;
      rotated, done, discards := 0, 0, 0;
      EnqueueNothing(start, input.maxFiles);
      NoHeartbeat(input);
      if saved.State? {
        ok, current, rotated, queued, calls, done, discards := ScanAll(files, saved.logs, input, io);
        if !ok {
          return;
        }
        NoLogEntries(hash, files, saved.logs, input);
      } else {
        current := map path | path in input.targets :: NextState(files, saved, input, path);
      }
      assert Kept(saved, input) + current == NextLogs(files, saved, input) by {
        NextLogsIs(files, saved, input, current);
      }
      if |input.targets| > 0 && queued == 0 {
        var kind := if saved == NoStateFile then "log.baseline.created" else "log.scan.completed";
        ok, discards := EnqueueHeartbeat(input, kind, io(calls));
        if !ok {
          assert entries[..0] == [];
          done := 0;
          return;
        }
      }
      assert queue.View() == EnqueueAll(start, entries, input.maxFiles);
      if !saves {
        DiscardNone(queue.View());
        assert entries[..|entries|] == entries;
        return false, rotated, |entries|, 0;
      }
      saved := State(Kept(saved, input) + current);
      ok := true;
    }

    /** The event a scan enqueues when it has no lines: that the baseline was created, or that the scan completed. */
    method EnqueueHeartbeat(input: ScanInput, kind: string, outcome: (nat, bool)) returns (ok: bool, ghost discards: nat)
      requires input.targets != []
      modifies queue
      ensures ok ==> queue.View() == EnqueueAll(old(queue.View()), Heartbeat(input, kind), input.maxFiles)
      ensures !ok ==> queue.View() == Discard(old(queue.View()), discards)
    {
      hide Enqueue, Discard, EnqueueAll, Heartbeat;
      HeartbeatIsOne(queue.View(), input, kind);
      ok, discards := queue.EnqueueEvents(input.heartbeatId, input.agentId, [OtherEvent(kind)], input.maxFiles,
                                          outcome.0, outcome.1);
    }

    lemma EmptyStart(q: Queue, path: string, generation: nat, agentId: string, maxFiles: int)
      ensures EnqueueAll(q, BatchEntries(hash, agentId, path, generation, []), maxFiles) == q
      ensures Bytes([]) == 0 && !Closed([]) && Concat([]) == [] && Events(path, generation, []) == []
    {
    }
  }

  lemma EnqueueNothing(q: Queue, maxFiles: int)
    ensures EnqueueAll(q, [], maxFiles) == q
  {
  }

  lemma NoLogEntries(hash: string -> string, files: map<string, LogFile>, logs: map<string, LogState>, input: ScanInput)
    ensures LogEntries(hash, files, logs, input, []) == []
    ensures input.targets == [] ==> LogEntries(hash, files, logs, input, input.targets) == []
  {
  }

  lemma NextLogsIs(files: map<string, LogFile>, saved: Saved, input: ScanInput, current: map<string, LogState>)
    requires forall i | 0 <= i < |input.targets| :: input.targets[i] in files
    requires current == map path | path in input.targets :: NextState(files, saved, input, path)
    ensures Kept(saved, input) + current == NextLogs(files, saved, input)
  {
    hide NextState, Kept;
  }

  lemma NoHeartbeat(input: ScanInput)
    ensures input.targets == [] ==> forall kind :: Heartbeat(input, kind) == []
  {
  }

  lemma HeartbeatIsOne(q: Queue, input: ScanInput, kind: string)
    requires input.targets != []
    ensures |Heartbeat(input, kind)| == 1
    ensures EnqueueAll(q, Heartbeat(input, kind), input.maxFiles)
         == Enqueue(q, FileName(input.heartbeatId), Content(Agent(input.agentId), [OtherEvent(kind)]), input.maxFiles)
  {
    hide Enqueue;
    assert Heartbeat(input, kind)[..0] == [];
  }

  lemma LogEntriesSnoc(hash: string -> string, files: map<string, LogFile>, logs: map<string, LogState>, input: ScanInput,
                       i: nat)
    requires i < |input.targets| && forall k | 0 <= k < |input.targets| :: input.targets[k] in files
    ensures var path := input.targets[i];
            LogEntries(hash, files, logs, input, input.targets[..i + 1])
            == LogEntries(hash, files, logs, input, input.targets[..i])
               + TargetEntries(hash, input.agentId, path, ScanOf(logs, input, path, files[path]))
  {
    hide TargetEntries, ScanOf;
    assert input.targets[..i + 1][..i] == input.targets[..i];
  }

  lemma OwnEntries(hash: string -> string, agentId: string, path: string, scan: TargetScan)
    ensures var lines := Lines(scan.pieces);
            var own := BatchEntries(hash, agentId, path, scan.state.generation, Batches(lines));
            TargetEntries(hash, agentId, path, scan) == own && (own == [] <==> lines == [])
  {
    hide Lines, Batches, BatchEntry;
    BatchesAreGreedy(Lines(scan.pieces));
    NonemptySplit(Lines(scan.pieces), Batches(Lines(scan.pieces)));
  }

  lemma NoRotations(files: map<string, LogFile>, logs: map<string, LogState>, input: ScanInput)
    ensures Rotations(files, logs, input, []) == 0
  {
  }

  lemma RotationsSnoc(files: map<string, LogFile>, logs: map<string, LogState>, input: ScanInput, i: nat)
    requires i < |input.targets| && forall k | 0 <= k < |input.targets| :: input.targets[k] in files
    ensures Rotations(files, logs, input, input.targets[..i + 1])
         == Rotations(files, logs, input, input.targets[..i])
            + if ScanOf(logs, input, input.targets[i], files[input.targets[i]]).rotated then 1 else 0
  {
    hide ScanOf;
    assert input.targets[..i + 1][..i] == input.targets[..i];
  }

  lemma {:induction false} LogEntriesGrow(hash: string -> string, files: map<string, LogFile>, logs: map<string, LogState>,
                                          input: ScanInput, i: nat)
    requires i <= |input.targets| && forall k | 0 <= k < |input.targets| :: input.targets[k] in files
    ensures LogEntries(hash, files, logs, input, input.targets[..i]) <= LogEntries(hash, files, logs, input, input.targets)
    decreases |input.targets| - i
  {
    hide TargetEntries, ScanOf, LogEntries;
    if i < |input.targets| {
      LogEntriesSnoc(hash, files, logs, input, i);
      LogEntriesGrow(hash, files, logs, input, i + 1);
    } else {
      assert input.targets[..i] == input.targets;
    }
  }

  /** What was enqueued when a scan stopped inside target i is a beginning of everything it would have enqueued. */
  lemma StoppedInside(hash: string -> string, files: map<string, LogFile>, logs: map<string, LogState>, input: ScanInput,
                      i: nat, some: nat)
    requires i < |input.targets| && forall k | 0 <= k < |input.targets| :: input.targets[k] in files
    requires some <= |TargetEntries(hash, input.agentId, input.targets[i], ScanOf(logs, input, input.targets[i], files[input.targets[i]]))|
    ensures var soFar := LogEntries(hash, files, logs, input, input.targets[..i]);
            var own := TargetEntries(hash, input.agentId, input.targets[i], ScanOf(logs, input, input.targets[i], files[input.targets[i]]));
            var all := LogEntries(hash, files, logs, input, input.targets);
            own != [] ==> all != [] && |soFar| + some <= |all| && all[..|soFar| + some] == soFar + own[..some]
  {
    hide TargetEntries, ScanOf, LogEntries, Heartbeat;
    var path := input.targets[i];
    var soFar := LogEntries(hash, files, logs, input, input.targets[..i]);
    var own := TargetEntries(hash, input.agentId, path, ScanOf(logs, input, path, files[path]));
    var all := LogEntries(hash, files, logs, input, input.targets);
    LogEntriesSnoc(hash, files, logs, input, i);
    LogEntriesGrow(hash, files, logs, input, i + 1);
    assert soFar + own == all[..|soFar| + |own|];
    assert (soFar + own)[..|soFar| + some] == soFar + own[..some];
    assert all[..|soFar| + |own|][..|soFar| + some] == all[..|soFar| + some];
  }

  lemma NothingOpen()
    ensures !Closed([]) && Bytes([]) == 0
  {
  }

  lemma OpenIsBatch(chunk: seq<LogLine>)
    requires chunk != [] && !Closed(chunk)
    ensures IsBatch(chunk)
  {
    if Closed(chunk[..|chunk| - 1]) {
      ClosedStaysClosed(chunk, |chunk| - 1);
    }
  }

  /** One line more in the open chunk. */
  lemma TakeLine(path: string, generation: nat, flushed: seq<seq<LogLine>>, chunk: seq<LogLine>, lines: seq<LogLine>, i: nat)
    requires i < |lines| && Concat(flushed) + chunk == lines[..i] && !Closed(chunk)
    ensures var more := chunk + [lines[i]];
            && Concat(flushed) + more == lines[..i + 1]
            && Bytes(more) == Bytes(chunk) + lines[i].bytes
            && Events(path, generation, more)
               == Events(path, generation, chunk) + [LogLineEvent(path, generation, lines[i].offset, lines[i].text)]
            && BatchImage(path, generation, more)
               == (if chunk == [] then ImageHeader(path, generation) else BatchImage(path, generation, chunk)) + LineImage(lines[i])
            && IsBatch(more)
  {
    hide LineImage, ImageHeader, BatchImage, Bytes, Events;
    BytesSnoc(chunk, lines[i]);
    ImageSnoc(path, generation, chunk, lines[i]);
    EventsSnoc(path, generation, chunk, lines[i]);
    assert (chunk + [lines[i]])[..|chunk|] == chunk;
    assert lines[..i + 1] == lines[..i] + [lines[i]];
  }

  lemma FlushedSoFar(hash: string -> string, agentId: string, path: string, generation: nat, lines: seq<LogLine>,
                     flushed: seq<seq<LogLine>>)
    requires Concat(flushed) <= lines
    requires forall i | 0 <= i < |flushed| :: IsBatch(flushed[i]) && Closed(flushed[i])
    requires lines != []
    ensures |flushed| <= |Batches(lines)| && Batches(lines) != []
    ensures BatchEntries(hash, agentId, path, generation, Batches(lines))[..|flushed|]
         == BatchEntries(hash, agentId, path, generation, flushed)
  {
    hide Batches, BatchEntry, IsBatch, Closed;
    BatchesAreGreedy(lines);
    NonemptySplit(lines, Batches(lines));
    FlushedArePrefix(lines, flushed);
  }
}
