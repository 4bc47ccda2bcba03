/** The log watcher as a machine of changing files, scans that may crash before they save, other enqueues and sends. */
module LogTailer {
  import opened LogReader
  import opened LogBatches
  import opened LogCursor
  import opened BatchQueue
  import opened StringOrder
  import Decimals

  datatype Saved = NoStateFile | State(logs: map<string, LogState>)

  // ----- the batches of a scan

  function Events(path: string, generation: nat, lines: seq<LogLine>): (events: seq<Event>)
    ensures |events| == |lines|
    ensures forall i | 0 <= i < |lines| :: events[i] == LogLineEvent(path, generation, lines[i].offset, lines[i].text)
  {
    seq(|lines|, i requires 0 <= i < |lines| => LogLineEvent(path, generation, lines[i].offset, lines[i].text))
  }

  /** The hash of the batch identifiers, as printed: no collisions, safe characters only. */
  ghost predicate HashWorks(hash: string -> string) {
    && (forall x, y :: hash(x) == hash(y) ==> x == y)
    && (forall x :: AllSafe(hash(x)))
  }

  /** A function of that kind: each byte c is spelled as c times a, and b. */
  function Spelled(s: string): string {
    if s == "" then "" else Letters(s[0] as int) + ("b" + Spelled(s[1..]))
  }

  function Letters(n: nat): (s: string)
    ensures |s| == n && forall i | 0 <= i < n :: s[i] == 'a'
  {
    seq(n, _ => 'a')
  }

  lemma FewerLettersDiffer(m: nat, u: string, n: nat, v: string)
    requires m < n
    ensures Letters(m) + ("b" + u) != Letters(n) + ("b" + v)
  {
    assert (Letters(m) + ("b" + u))[m] == 'b';
    if |Letters(n) + ("b" + v)| > m {
      assert (Letters(n) + ("b" + v))[m] == Letters(n)[m] == 'a';
    }
  }

  lemma {:induction false} SpelledInjective(x: string, y: string)
    requires Spelled(x) == Spelled(y)
    ensures x == y
  {
    if x != "" && y != "" {
      var m, n := x[0] as int, y[0] as int;
      var u, v := Spelled(x[1..]), Spelled(y[1..]);
      hide Letters;
      if m < n {
        FewerLettersDiffer(m, u, n, v);
      } else if n < m {
        FewerLettersDiffer(n, v, m, u);
      } else {
        assert "b" + u == Spelled(x)[m..] && "b" + v == Spelled(y)[m..];
        assert u == ("b" + u)[1..] && v == ("b" + v)[1..];
        SpelledInjective(x[1..], y[1..]);
        assert x == [x[0]] + x[1..] && y == [y[0]] + y[1..];
      }
    }
  }

  lemma {:induction false} SpelledSafe(x: string)
    ensures AllSafe(Spelled(x))
  {
    if x != "" {
      SpelledSafe(x[1..]);
    }
  }

  lemma SomeHashWorks()
    ensures HashWorks(Spelled)
  {
    forall x, y | Spelled(x) == Spelled(y) ensures x == y {
      SpelledInjective(x, y);
    }
    forall x ensures AllSafe(Spelled(x)) {
      SpelledSafe(x);
    }
  }

  predicate AllSafe(s: string) {
    forall i | 0 <= i < |s| :: SafeChar(s[i])
  }

  function BatchId(hash: string -> string, path: string, generation: nat, lines: seq<LogLine>): string {
    "log-" + hash(BatchImage(path, generation, lines))
  }

  function BatchEntry(hash: string -> string, agentId: string, path: string, generation: nat, lines: seq<LogLine>): Entry {
    Entry(FileName(BatchId(hash, path, generation, lines)), Content(Agent(agentId), Events(path, generation, lines)))
  }

  function BatchEntries(hash: string -> string, agentId: string, path: string, generation: nat,
                        batches: seq<seq<LogLine>>): (entries: seq<Entry>)
    ensures |entries| == |batches|
    ensures forall i | 0 <= i < |batches| :: entries[i] == BatchEntry(hash, agentId, path, generation, batches[i])
  {
    seq(|batches|, i requires 0 <= i < |batches| => BatchEntry(hash, agentId, path, generation, batches[i]))
  }

  function EnqueueAll(q: Queue, entries: seq<Entry>, maxFiles: int): Queue {
    if entries == [] then q
    else
      var last := entries[|entries| - 1];
      Enqueue(EnqueueAll(q, entries[..|entries| - 1], maxFiles), last.name, last.content, maxFiles)
  }

  // ----- one scan

  /** What the surroundings of one scan contribute: the files it opens, in order; those it reads from the start when it
      has no cursor for them; the paths configured by name; the paths that vanished between discovery and opening; an
      identifier for a heartbeat. atOpen has the files that were written to between being opened, with the first
      comparison of their checkpoint, and being read: what they were when opened. */
  datatype ScanInput = ScanInput(targets: seq<string>, fromStart: set<string>, explicitPaths: set<string>,
                                 vanished: set<string>, atOpen: map<string, LogFile>, heartbeatId: string,
                                 agentId: string, maxFiles: int)

  function AtOpen(input: ScanInput, path: string, file: LogFile): LogFile {
    if path in input.atOpen then input.atOpen[path] else file
  }

  function PreviousOf(logs: map<string, LogState>, path: string): Previous {
    if path in logs then Cursor(logs[path]) else NoCursor
  }

  function ScanOf(logs: map<string, LogState>, input: ScanInput, path: string, file: LogFile): TargetScan {
    ScanTarget(PreviousOf(logs, path), path in input.fromStart, AtOpen(input, path, file), file)
  }

  function TargetEntries(hash: string -> string, agentId: string, path: string, scan: TargetScan): seq<Entry> {
    BatchEntries(hash, agentId, path, scan.state.generation, Batches(Lines(scan.pieces)))
  }

  function LogEntries(hash: string -> string, files: map<string, LogFile>, logs: map<string, LogState>,
                      input: ScanInput, targets: seq<string>): seq<Entry>
    requires forall i | 0 <= i < |targets| :: targets[i] in files
  {
    if targets == [] then []
    else
      var path := targets[|targets| - 1];
      LogEntries(hash, files, logs, input, targets[..|targets| - 1])
      + TargetEntries(hash, input.agentId, path, ScanOf(logs, input, path, files[path]))
  }

  /** How many of the targets the scan counts as rotated. */
  function Rotations(files: map<string, LogFile>, logs: map<string, LogState>, input: ScanInput, targets: seq<string>): nat
    requires forall i | 0 <= i < |targets| :: targets[i] in files
  {
    if targets == [] then 0
    else
      var path := targets[|targets| - 1];
      Rotations(files, logs, input, targets[..|targets| - 1])
      + if ScanOf(logs, input, path, files[path]).rotated then 1 else 0
  }

  function Heartbeat(input: ScanInput, kind: string): seq<Entry> {
    if input.targets == [] then []
    else [Entry(FileName(input.heartbeatId), Content(Agent(input.agentId), [OtherEvent(kind)]))]
  }

  /** Everything a scan enqueues before it saves. */
  function ScanEntries(hash: string -> string, files: map<string, LogFile>, saved: Saved, input: ScanInput): seq<Entry>
    requires forall i | 0 <= i < |input.targets| :: input.targets[i] in files
  {
    match saved
    case NoStateFile => Heartbeat(input, "log.baseline.created")
    case State(logs) =>
      var entries := LogEntries(hash, files, logs, input, input.targets);
      if entries == [] then Heartbeat(input, "log.scan.completed") else entries
  }

  function NextState(files: map<string, LogFile>, saved: Saved, input: ScanInput, path: string): LogState
    requires path in files
  {
    match saved
    case NoStateFile => Snapshot(files[path], |AtOpen(input, path, files[path]).bytes|, 1)
    case State(logs) => ScanOf(logs, input, path, files[path]).state
  }

  /** Cursors that a scan keeps although it did not see the file: marked as missing, so that the file is read from the
      start in a new generation when it is back. */
  function Kept(saved: Saved, input: ScanInput): map<string, LogState> {
    match saved
    case NoStateFile => map[]
    case State(logs) =>
      map path | path in logs && path !in input.targets && (path in input.explicitPaths || path in input.vanished)
        :: logs[path].(missing := true)
  }

  function NextLogs(files: map<string, LogFile>, saved: Saved, input: ScanInput): map<string, LogState>
    requires forall i | 0 <= i < |input.targets| :: input.targets[i] in files
  {
    Kept(saved, input) + map path | path in input.targets :: NextState(files, saved, input, path)
  }

  // ----- the machine

  /** What has been read of a file in its current generation: where reading began, the pieces taken since, the content
      as the last scan saw it. `clean` says that the file has only grown since reading began and that no scan of it found
      more than the scan bound unread. */
  datatype Reading = Reading(begin: nat, pieces: seq<Piece>, bytes: string, clean: bool)

  datatype World = World(files: map<string, LogFile>, saved: Saved, queue: Queue, readings: map<string, Reading>)

  datatype Step =
    | Write(path: string, file: LogFile)
    | Remove(path: string)
    | FullScan(input: ScanInput)
    | CrashedScan(input: ScanInput, enqueued: nat, discards: nat)
    | OtherEnqueue(id: string, content: Content, maxFiles: int)
    | Send(agentId: string, limit: int, attempts: string -> Attempt)

  predicate Allowed(w: World, step: Step) {
    match step
    case FullScan(input) => InputFits(w, input)
    case CrashedScan(input, enqueued, discards) => InputFits(w, input)
    case OtherEnqueue(id, content, maxFiles) => OtherId(id)
    case _ => true
  }

  /** Paths have no newline in them, and a fresh batch identifier starts with the digits of its time. */
  predicate InputFits(w: World, input: ScanInput) {
    && (forall i | 0 <= i < |input.targets| :: input.targets[i] in w.files && OneLine(input.targets[i]))
    && OtherId(input.heartbeatId)
  }

  predicate OtherId(id: string) {
    id != "" && Decimals.IsDigit(id[0])
  }

  function ReadingAfter(w: World, input: ScanInput, path: string): Reading
    requires path in w.files
  {
    var bytes := w.files[path].bytes;
    match w.saved
    case NoStateFile => Reading(Clamp(|AtOpen(input, path, w.files[path]).bytes|, |bytes|), [], bytes, true)
    case State(logs) =>
      var scan := ScanOf(logs, input, path, w.files[path]);
      var bounded := |bytes| - scan.start <= MAX_LOG_READ_BYTES;
      if path in logs && !scan.rotated && path in w.readings then
        var r := w.readings[path];
        Reading(r.begin, r.pieces + scan.pieces, bytes, r.clean && bounded)
      else Reading(scan.start, scan.pieces, bytes, bounded)
  }

  function NextReadings(w: World, input: ScanInput): map<string, Reading>
    requires forall i | 0 <= i < |input.targets| :: input.targets[i] in w.files
  {
    w.readings + map path | path in input.targets :: ReadingAfter(w, input, path)
  }

  function Spoil(w: World, path: string, stillClean: bool): map<string, Reading> {
    if path in w.readings then w.readings[path := w.readings[path].(clean := w.readings[path].clean && stillClean)]
    else w.readings
  }

  function Next(hash: string -> string, w: World, step: Step): World
    requires Allowed(w, step)
  {
    match step
    case Write(path, file) =>
      w.(files := w.files[path := file],
         readings := Spoil(w, path, path in w.readings && w.readings[path].bytes <= file.bytes))
    case Remove(path) => w.(files := w.files - {path}, readings := Spoil(w, path, false))
    case FullScan(input) =>
      World(w.files, State(NextLogs(w.files, w.saved, input)),
            EnqueueAll(w.queue, ScanEntries(hash, w.files, w.saved, input), input.maxFiles), NextReadings(w, input))
    case CrashedScan(input, enqueued, discards) =>
      var entries := ScanEntries(hash, w.files, w.saved, input);
      var some := if enqueued <= |entries| then entries[..enqueued] else entries;
      w.(queue := Discard(EnqueueAll(w.queue, some, input.maxFiles), discards))
    case OtherEnqueue(id, content, maxFiles) => w.(queue := Enqueue(w.queue, FileName(id), content, maxFiles))
    case Send(agentId, limit, attempts) => w.(queue := SendPass(w.queue, agentId, limit, attempts))
  }

  ghost function Run(hash: string -> string, w: World, steps: seq<Step>): World
    requires RunAllowed(hash, w, steps)
    decreases |steps|, 1
  {
    if steps == [] then w else Next(hash, Run(hash, w, steps[..|steps| - 1]), steps[|steps| - 1])
  }

  ghost predicate RunAllowed(hash: string -> string, w: World, steps: seq<Step>)
    decreases |steps|, 0
  {
    steps == [] || (RunAllowed(hash, w, steps[..|steps| - 1])
                    && Allowed(Run(hash, w, steps[..|steps| - 1]), steps[|steps| - 1]))
  }

  // ----- accepted events

  /** The event is in a batch that was written to the queue. */
  ghost predicate Accepted(accepted: multiset<Entry>, e: Event) {
    exists entry :: entry in accepted && e in entry.content.events
  }

  ghost predicate AllAccepted(accepted: multiset<Entry>, path: string, generation: nat, lines: seq<LogLine>) {
    forall i | 0 <= i < |lines| ::
      Accepted(accepted, LogLineEvent(path, generation, lines[i].offset, lines[i].text))
  }

  lemma AcceptedGrows(less: multiset<Entry>, more: multiset<Entry>, path: string, generation: nat, lines: seq<LogLine>)
    requires less <= more && AllAccepted(less, path, generation, lines)
    ensures AllAccepted(more, path, generation, lines)
  {
    forall i | 0 <= i < |lines|
      ensures Accepted(more, LogLineEvent(path, generation, lines[i].offset, lines[i].text))
    {
      var e := LogLineEvent(path, generation, lines[i].offset, lines[i].text);
      assert Accepted(less, e);
      var entry :| entry in less && e in entry.content.events;
      assert entry in more;
    }
  }

  /** A pending file is a heartbeat or the like, or holds the lines its name was made of. */
  ghost predicate Named(hash: string -> string, entry: Entry) {
    (entry.name != "" && Decimals.IsDigit(entry.name[0])) || NamedByLines(hash, entry)
  }

  ghost predicate NamedByLines(hash: string -> string, entry: Entry) {
    exists path, generation, lines ::
      && OneLine(path) && AllOneLine(lines)
      && entry.name == FileName(BatchId(hash, path, generation, lines))
      && entry.content.events == Events(path, generation, lines)
  }

  ghost predicate QueueSound(hash: string -> string, q: Queue) {
    && Conserved(q)
    && forall name | name in q.pending :: Named(hash, Entry(name, q.pending[name]))
  }

  lemma PendingIsAccepted(q: Queue, name: string)
    requires Conserved(q) && name in q.pending
    ensures Entry(name, q.pending[name]) in q.accepted
  {
    EntryIn(q.pending, Entry(name, q.pending[name]));
  }

  lemma SameNameSameEvents(hash: string -> string, path: string, generation: nat, lines: seq<LogLine>,
                           path': string, generation': nat, lines': seq<LogLine>)
    requires HashWorks(hash) && OneLine(path) && OneLine(path') && AllOneLine(lines) && AllOneLine(lines')
    requires FileName(BatchId(hash, path, generation, lines)) == FileName(BatchId(hash, path', generation', lines'))
    ensures Events(path, generation, lines) == Events(path', generation', lines')
  {
    hide BatchImage, FileName;
    var a, b := BatchId(hash, path, generation, lines), BatchId(hash, path', generation', lines');
    var x, y := hash(BatchImage(path, generation, lines)), hash(BatchImage(path', generation', lines'));
    assert AllSafe(x) && AllSafe(y);
    assert AllSafe(a) && AllSafe(b);
    FileNameInjective(a, b);
    assert x == a[4..] && y == b[4..];
    BatchImageInjective(path, generation, lines, path', generation', lines');
    assert forall i | 0 <= i < |lines| :: Keys(lines)[i] == Keys(lines')[i];
  }

  lemma LogNameHasNoDigit(hash: string -> string, path: string, generation: nat, lines: seq<LogLine>)
    ensures var name := FileName(BatchId(hash, path, generation, lines));
            name != "" && !Decimals.IsDigit(name[0])
  {
    hide BatchImage;
    var id := BatchId(hash, path, generation, lines);
    assert id[0] == 'l' && FileName(id)[0] == SafeFilename(id)[0] == 'l';
  }

  /** Enqueueing a batch of lines leaves all of them accepted, whether it is written or already pending. */
  lemma EnqueueBatchAccepts(hash: string -> string, q: Queue, agentId: string, path: string, generation: nat,
                            lines: seq<LogLine>, maxFiles: int)
    requires HashWorks(hash) && QueueSound(hash, q) && OneLine(path) && AllOneLine(lines)
    ensures var entry := BatchEntry(hash, agentId, path, generation, lines);
            AllAccepted(Enqueue(q, entry.name, entry.content, maxFiles).accepted, path, generation, lines)
  {
    hide BatchImage, FileName, BatchId, Discard, Overflow, Conserved, OneLine, AllOneLine, HashWorks;
    var entry := BatchEntry(hash, agentId, path, generation, lines);
    var after := Enqueue(q, entry.name, entry.content, maxFiles);
    var holder := if entry.name in q.pending then Entry(entry.name, q.pending[entry.name]) else entry;
    if entry.name in q.pending {
      PendingIsAccepted(q, entry.name);
      LogNameHasNoDigit(hash, path, generation, lines);
      assert Named(hash, holder);
      var path', generation', lines' :|
        && OneLine(path') && AllOneLine(lines')
        && holder.name == FileName(BatchId(hash, path', generation', lines'))
        && holder.content.events == Events(path', generation', lines');
      SameNameSameEvents(hash, path, generation, lines, path', generation', lines');
    }
    assert holder in after.accepted;
    assert holder.content.events == Events(path, generation, lines);
    forall i | 0 <= i < |lines|
      ensures Accepted(after.accepted, LogLineEvent(path, generation, lines[i].offset, lines[i].text))
    {
      assert holder.content.events[i] == LogLineEvent(path, generation, lines[i].offset, lines[i].text);
    }
  }

  // ----- what each change of the queue keeps

  lemma EnqueueKeepsSound(hash: string -> string, q: Queue, entry: Entry, maxFiles: int)
    requires QueueSound(hash, q) && Named(hash, entry)
    ensures var after := Enqueue(q, entry.name, entry.content, maxFiles);
            QueueSound(hash, after) && q.accepted <= after.accepted
  {
    hide Conserved, Named, Overflow;
    EnqueueKeepsCapAndBatches(q, entry.name, entry.content, maxFiles);
    EnqueueAccepts(q, entry.name, entry.content, maxFiles);
    var after := Enqueue(q, entry.name, entry.content, maxFiles);
    forall name | name in after.pending ensures Named(hash, Entry(name, after.pending[name])) {
      if name in q.pending {
        assert after.pending[name] == q.pending[name];
      } else {
        assert entry == Entry(name, after.pending[name]);
      }
    }
  }

  lemma DiscardKeepsSound(hash: string -> string, q: Queue, k: nat)
    requires QueueSound(hash, q)
    ensures QueueSound(hash, Discard(q, k)) && Discard(q, k).accepted == q.accepted
  {
    hide Conserved, Named;
    DiscardConserves(q, k);
  }

  lemma SendKeepsSound(hash: string -> string, q: Queue, agentId: string, limit: int, attempts: string -> Attempt)
    requires QueueSound(hash, q)
    ensures QueueSound(hash, SendPass(q, agentId, limit, attempts))
    ensures SendPass(q, agentId, limit, attempts).accepted == q.accepted
  {
    hide Conserved, Named, SendPass;
    SendPassConserves(q, agentId, limit, attempts);
  }

  ghost predicate AllNamed(hash: string -> string, entries: seq<Entry>) {
    forall i | 0 <= i < |entries| :: Named(hash, entries[i])
  }

  lemma {:induction false} EnqueueAllKeepsSound(hash: string -> string, q: Queue, entries: seq<Entry>, maxFiles: int)
    requires QueueSound(hash, q) && AllNamed(hash, entries)
    ensures QueueSound(hash, EnqueueAll(q, entries, maxFiles))
    ensures q.accepted <= EnqueueAll(q, entries, maxFiles).accepted
  {
    hide Enqueue, QueueSound, Named;
    if entries != [] {
      EnqueueAllKeepsSound(hash, q, entries[..|entries| - 1], maxFiles);
      EnqueueKeepsSound(hash, EnqueueAll(q, entries[..|entries| - 1], maxFiles), entries[|entries| - 1], maxFiles);
    }
  }

  lemma {:induction false} EnqueueAllConcat(q: Queue, a: seq<Entry>, b: seq<Entry>, maxFiles: int)
    ensures EnqueueAll(q, a + b, maxFiles) == EnqueueAll(EnqueueAll(q, a, maxFiles), b, maxFiles)
    decreases |b|
  {
    hide Enqueue;
    if b == [] {
      assert a + b == a;
    } else {
      EnqueueAllConcat(q, a, b[..|b| - 1], maxFiles);
      assert (a + b)[..|a + b| - 1] == a + b[..|b| - 1];
    }
  }

  /** After a list of enqueues that has the batch in it, the lines of the batch are accepted. */
  lemma BatchAmongEnqueued(hash: string -> string, q: Queue, entries: seq<Entry>, k: nat, maxFiles: int,
                           agentId: string, path: string, generation: nat, lines: seq<LogLine>)
    requires HashWorks(hash) && QueueSound(hash, q) && AllNamed(hash, entries) && OneLine(path) && AllOneLine(lines)
    requires k < |entries| && entries[k] == BatchEntry(hash, agentId, path, generation, lines)
    ensures AllAccepted(EnqueueAll(q, entries, maxFiles).accepted, path, generation, lines)
  {
    hide Enqueue, QueueSound, Named, BatchEntry, HashWorks, OneLine, AllOneLine, AllAccepted;
    var before, upTo, rest := entries[..k], entries[..k + 1], entries[k + 1..];
    assert upTo[..|upTo| - 1] == before;
    assert entries == upTo + rest;
    var q0 := EnqueueAll(q, before, maxFiles);
    EnqueueAllKeepsSound(hash, q, before, maxFiles);
    EnqueueBatchAccepts(hash, q0, agentId, path, generation, lines, maxFiles);
    EnqueueKeepsSound(hash, q0, entries[k], maxFiles);
    EnqueueAllKeepsSound(hash, EnqueueAll(q, upTo, maxFiles), rest, maxFiles);
    EnqueueAllConcat(q, upTo, rest, maxFiles);
    AcceptedGrows(EnqueueAll(q, upTo, maxFiles).accepted, EnqueueAll(q, entries, maxFiles).accepted, path, generation, lines);
  }

  // ----- the invariant

  /** What was read of a file since its generation began tiles everything up to the saved cursor, and every line of it is
      in an accepted batch. As long as the reading is clean, what was read is exactly the newline-terminated records of
      the file as it is now. */
  ghost predicate ReadingSound(w: World, path: string, s: LogState, r: Reading) {
    && Valid(s)
    && Tiles(r.pieces, r.begin, s.offset)
    && AllAccepted(w.queue.accepted, path, s.generation, Lines(r.pieces))
    && (r.clean ==> path in w.files && r.bytes <= w.files[path].bytes && RecordsOf(r, s.offset))
  }

  predicate RecordsOf(r: Reading, offset: int) {
    && 0 <= offset && Boundary(r.bytes, r.begin, offset)
    && r.pieces == RecordPieces(r.bytes, r.begin, offset)
  }

  ghost predicate Sound(hash: string -> string, w: World) {
    && QueueSound(hash, w.queue)
    && (w.saved.State? ==>
          forall path | path in w.saved.logs ::
            path in w.readings && ReadingSound(w, path, w.saved.logs[path], w.readings[path]))
  }

  // ----- what a scan takes is enqueued

  lemma BatchesOfNone(lines: seq<LogLine>)
    requires Batches(lines) == []
    ensures lines == []
  {
    BatchesAreGreedy(lines);
    NonemptySplit(lines, []);
  }

  lemma {:induction false} LineInSomeBatch(batches: seq<seq<LogLine>>, i: nat) returns (k: nat, j: nat)
    requires i < |Concat(batches)|
    ensures k < |batches| && j < |batches[k]| && batches[k][j] == Concat(batches)[i]
  {
    if i < |batches[0]| {
      k, j := 0, i;
    } else {
      var k', j' := LineInSomeBatch(batches[1..], i - |batches[0]|);
      k, j := k' + 1, j';
    }
  }

  lemma {:induction false} BatchesOneLine(batches: seq<seq<LogLine>>, k: nat)
    requires AllOneLine(Concat(batches)) && k < |batches|
    ensures AllOneLine(batches[k])
  {
    var rest := Concat(batches[1..]);
    assert forall i | 0 <= i < |rest| :: rest[i] == Concat(batches)[i + |batches[0]|];
    if k == 0 {
      assert forall i | 0 <= i < |batches[0]| :: batches[0][i] == Concat(batches)[i];
    } else {
      BatchesOneLine(batches[1..], k - 1);
    }
  }

  lemma ScanLinesOneLine(bytes: string, start: nat)
    requires start <= |bytes|
    ensures AllOneLine(Lines(Pieces(bytes, start, 0, 0)))
  {
    hide Lines, Pieces;
    ScanTextsOneLine(bytes, start, 0, 0);
    var lines := Lines(Pieces(bytes, start, 0, 0));
    forall i | 0 <= i < |lines| ensures OneLine(lines[i].text) {
      assert '\n' !in lines[i].text;
    }
  }

  lemma BatchesNamed(hash: string -> string, agentId: string, path: string, generation: nat, lines: seq<LogLine>)
    requires OneLine(path) && AllOneLine(lines)
    ensures AllNamed(hash, BatchEntries(hash, agentId, path, generation, Batches(lines)))
  {
    hide Batches, BatchId, FileName, OneLine, AllOneLine, Named;
    var batches := Batches(lines);
    var entries := BatchEntries(hash, agentId, path, generation, batches);
    BatchesAreGreedy(lines);
    forall i | 0 <= i < |entries| ensures Named(hash, entries[i]) {
      BatchesOneLine(batches, i);
      BatchNamed(hash, agentId, path, generation, batches[i]);
    }
  }

  lemma BatchNamed(hash: string -> string, agentId: string, path: string, generation: nat, lines: seq<LogLine>)
    requires OneLine(path) && AllOneLine(lines)
    ensures Named(hash, BatchEntry(hash, agentId, path, generation, lines))
  {
    hide BatchId, FileName, OneLine, AllOneLine;
    assert NamedByLines(hash, BatchEntry(hash, agentId, path, generation, lines));
  }

  /** When a stretch of the list of enqueues is the batches of some lines, those lines end up accepted. */
  lemma LinesAmongEnqueued(hash: string -> string, q: Queue, before: seq<Entry>, after: seq<Entry>, maxFiles: int,
                           agentId: string, path: string, generation: nat, lines: seq<LogLine>)
    requires HashWorks(hash) && QueueSound(hash, q) && OneLine(path) && AllOneLine(lines)
    requires AllNamed(hash, before + BatchEntries(hash, agentId, path, generation, Batches(lines)) + after)
    ensures var entries := before + BatchEntries(hash, agentId, path, generation, Batches(lines)) + after;
            AllAccepted(EnqueueAll(q, entries, maxFiles).accepted, path, generation, lines)
  {
    hide HashWorks, QueueSound, OneLine, AllOneLine, Batches, BatchEntry, AllNamed, EnqueueAll, Accepted, Concat;
    var batches := Batches(lines);
    var own := BatchEntries(hash, agentId, path, generation, batches);
    var entries := before + own + after;
    BatchesAreGreedy(lines);
    forall i | 0 <= i < |lines|
      ensures Accepted(EnqueueAll(q, entries, maxFiles).accepted,
                       LogLineEvent(path, generation, lines[i].offset, lines[i].text))
    {
      var k, j := LineInSomeBatch(batches, i);
      BatchesOneLine(batches, k);
      assert entries[|before| + k] == own[k];
      BatchAmongEnqueued(hash, q, entries, |before| + k, maxFiles, agentId, path, generation, batches[k]);
      assert batches[k][j] == lines[i];
    }
  }

  predicate Fits(files: map<string, LogFile>, logs: map<string, LogState>, targets: seq<string>) {
    && (forall i | 0 <= i < |targets| :: targets[i] in files && OneLine(targets[i]))
    && (forall path | path in logs :: Valid(logs[path]))
  }

  lemma FitsPrefix(files: map<string, LogFile>, logs: map<string, LogState>, targets: seq<string>)
    requires Fits(files, logs, targets) && targets != []
    ensures Fits(files, logs, targets[..|targets| - 1])
  {
  }

  lemma TargetNamed(hash: string -> string, files: map<string, LogFile>, logs: map<string, LogState>, input: ScanInput,
                    path: string)
    requires path in files && OneLine(path) && (path in logs ==> Valid(logs[path]))
    ensures var scan := ScanOf(logs, input, path, files[path]);
            && AllNamed(hash, TargetEntries(hash, input.agentId, path, scan))
            && AllOneLine(Lines(scan.pieces))
            && TargetEntries(hash, input.agentId, path, scan)
               == BatchEntries(hash, input.agentId, path, scan.state.generation, Batches(Lines(scan.pieces)))
  {
    hide Lines, Pieces, Batches, OneLine, AllOneLine, ScanTarget, Valid, Tiles, AllOccur, TakenOf, AllNamed, BatchEntries;
    var file := files[path];
    var scan := ScanOf(logs, input, path, file);
    ScanTiles(PreviousOf(logs, path), path in input.fromStart, AtOpen(input, path, file), file);
    ScanLinesOneLine(file.bytes, scan.start);
    BatchesNamed(hash, input.agentId, path, scan.state.generation, Lines(scan.pieces));
  }

  lemma {:induction false} LogEntriesNamed(hash: string -> string, files: map<string, LogFile>, logs: map<string, LogState>,
                                           input: ScanInput, targets: seq<string>)
    requires Fits(files, logs, targets)
    ensures AllNamed(hash, LogEntries(hash, files, logs, input, targets))
  {
    hide TargetEntries, ScanOf, OneLine, Valid, Named;
    if targets != [] {
      FitsPrefix(files, logs, targets);
      LogEntriesNamed(hash, files, logs, input, targets[..|targets| - 1]);
      TargetNamed(hash, files, logs, input, targets[|targets| - 1]);
    }
  }

  /** The batches of each target are a stretch of what the scan enqueues. */
  lemma {:induction false} TargetInLogEntries(hash: string -> string, files: map<string, LogFile>,
      logs: map<string, LogState>, input: ScanInput, targets: seq<string>, path: string)
    returns (before: seq<Entry>, after: seq<Entry>)
    requires Fits(files, logs, targets) && path in targets
    ensures LogEntries(hash, files, logs, input, targets)
         == before + TargetEntries(hash, input.agentId, path, ScanOf(logs, input, path, files[path])) + after
    decreases |targets|
  {
    hide TargetEntries, ScanOf, OneLine, Valid;
    var last := targets[|targets| - 1];
    var init := targets[..|targets| - 1];
    FitsPrefix(files, logs, targets);
    if last == path {
      before, after := LogEntries(hash, files, logs, input, init), [];
    } else {
      var rest;
      before, rest := TargetInLogEntries(hash, files, logs, input, init, path);
      after := rest + TargetEntries(hash, input.agentId, last, ScanOf(logs, input, last, files[last]));
    }
  }

  lemma HeartbeatNamed(hash: string -> string, input: ScanInput, kind: string)
    requires OtherId(input.heartbeatId)
    ensures AllNamed(hash, Heartbeat(input, kind))
  {
    OtherNamed(hash, input.heartbeatId, Content(Agent(input.agentId), [OtherEvent(kind)]));
  }

  lemma OtherNamed(hash: string -> string, id: string, content: Content)
    requires OtherId(id)
    ensures Named(hash, Entry(FileName(id), content))
  {
    assert FileName(id)[0] == SafeFilename(id)[0] == id[0];
  }

  lemma ScanEntriesNamed(hash: string -> string, w: World, input: ScanInput)
    requires Sound(hash, w) && InputFits(w, input)
    ensures AllNamed(hash, ScanEntries(hash, w.files, w.saved, input))
  {
    hide OneLine, LogEntries, OtherId, QueueSound, AllNamed, Heartbeat;
    HeartbeatNamed(hash, input, "log.baseline.created");
    HeartbeatNamed(hash, input, "log.scan.completed");
    if w.saved.State? {
      LogEntriesNamed(hash, w.files, w.saved.logs, input, input.targets);
    }
  }

  /** Every line a completed scan took from a target is accepted when the scan has enqueued everything. */
  lemma ScanAcceptsLines(hash: string -> string, w: World, input: ScanInput, path: string)
    requires HashWorks(hash) && Sound(hash, w) && InputFits(w, input) && w.saved.State? && path in input.targets
    ensures var scan := ScanOf(w.saved.logs, input, path, w.files[path]);
            AllAccepted(EnqueueAll(w.queue, ScanEntries(hash, w.files, w.saved, input), input.maxFiles).accepted,
                        path, scan.state.generation, Lines(scan.pieces))
  {
    var logs := w.saved.logs;
    assert Fits(w.files, logs, input.targets) && QueueSound(hash, w.queue);
    hide OneLine, OtherId, QueueSound, HashWorks, AllNamed, AllOneLine, BatchEntries, EnqueueAll, LogEntries,
         TargetEntries, ScanOf, Batches, Lines, InputFits, Sound, Accepted;
    var scan := ScanOf(logs, input, path, w.files[path]);
    TargetNamed(hash, w.files, logs, input, path);
    LogEntriesNamed(hash, w.files, logs, input, input.targets);
    var before, after := TargetInLogEntries(hash, w.files, logs, input, input.targets, path);
    if LogEntries(hash, w.files, logs, input, input.targets) == [] {
      NothingTaken(hash, input.agentId, path, scan);
    } else {
      LinesAmongEnqueued(hash, w.queue, before, after, input.maxFiles, input.agentId, path, scan.state.generation,
                         Lines(scan.pieces));
    }
  }

  lemma NothingTaken(hash: string -> string, agentId: string, path: string, scan: TargetScan)
    requires TargetEntries(hash, agentId, path, scan) == []
    ensures Lines(scan.pieces) == []
  {
    hide Lines, Batches;
    BatchesOfNone(Lines(scan.pieces));
  }

  // ----- every step keeps the invariant

  lemma BaselineSound(w: World, path: string, size: nat, accepted: multiset<Entry>)
    requires path in w.files
    ensures var bytes := w.files[path].bytes;
            ReadingSound(w.(queue := w.queue.(accepted := accepted)), path, Snapshot(w.files[path], size, 1),
                         Reading(Clamp(size, |bytes|), [], bytes, true))
  {
    hide Accepted;
    var bytes := w.files[path].bytes;
    var begin := Clamp(size, |bytes|);
    TilesNone(begin);
    LinesEmpty();
    RecordPiecesStep(bytes, begin, begin);
    SnapshotIsValid(w.files[path], size, 1);
  }

  /** The pieces of one scan are its records, if it found no more than the scan bound unread. */
  lemma ScanRecords(bytes: string, start: nat)
    requires start <= |bytes| && |bytes| - start <= MAX_LOG_READ_BYTES
    ensures var pieces := Pieces(bytes, start, 0, 0);
            Boundary(bytes, start, End(start, pieces)) && pieces == RecordPieces(bytes, start, End(start, pieces))
  {
    ScanUnderBound(bytes, start, 0, 0);
  }

  lemma RecordsExtend(r: Reading, offset: nat, bytes: string, pieces: seq<Piece>)
    requires RecordsOf(r, offset) && r.bytes <= bytes && offset <= |bytes| && |bytes| - offset <= MAX_LOG_READ_BYTES
    requires pieces == Pieces(bytes, offset, 0, 0)
    ensures RecordsOf(Reading(r.begin, r.pieces + pieces, bytes, true), End(offset, pieces))
  {
    hide Pieces, RecordPieces;
    ScanRecords(bytes, offset);
    RecordPiecesOfExtension(r.bytes, bytes, r.begin, offset);
    RecordPiecesSplit(bytes, r.begin, offset, End(offset, pieces));
  }

  predicate Resumes(w: World, input: ScanInput, path: string)
    requires path in w.files && w.saved.State?
  {
    path in w.saved.logs && !ScanOf(w.saved.logs, input, path, w.files[path]).rotated && path in w.readings
  }

  lemma FreshTargetSound(hash: string -> string, w: World, input: ScanInput, path: string, q: Queue)
    requires Sound(hash, w) && w.saved.State? && path in w.files && !Resumes(w, input, path)
    requires var scan := ScanOf(w.saved.logs, input, path, w.files[path]);
             AllAccepted(q.accepted, path, scan.state.generation, Lines(scan.pieces))
    ensures ReadingSound(w.(queue := q), path, ScanOf(w.saved.logs, input, path, w.files[path]).state,
                         ReadingAfter(w, input, path))
  {
    hide Lines, Pieces, Tiles, AllOccur, ScanTarget, AllAccepted, QueueSound, RecordPieces;
    var file := w.files[path];
    var scan := ScanOf(w.saved.logs, input, path, file);
    assert path in w.saved.logs ==> Valid(w.saved.logs[path]);
    ScanTiles(PreviousOf(w.saved.logs, path), path in input.fromStart, AtOpen(input, path, file), file);
    TakenIsValid(scan.state, file.bytes);
    EndIs(scan.pieces, scan.start, scan.state.offset);
    if |file.bytes| - scan.start <= MAX_LOG_READ_BYTES {
      ScanRecords(file.bytes, scan.start);
    }
  }

  lemma EndIs(pieces: seq<Piece>, start: nat, stop: nat)
    requires Tiles(pieces, start, stop)
    ensures End(start, pieces) == stop
  {
  }

  lemma ResumedTargetSound(hash: string -> string, w: World, input: ScanInput, path: string, q: Queue)
    requires Sound(hash, w) && w.saved.State? && path in w.files && Resumes(w, input, path)
    requires w.queue.accepted <= q.accepted
    requires var scan := ScanOf(w.saved.logs, input, path, w.files[path]);
             AllAccepted(q.accepted, path, scan.state.generation, Lines(scan.pieces))
    ensures ReadingSound(w.(queue := q), path, ScanOf(w.saved.logs, input, path, w.files[path]).state,
                         ReadingAfter(w, input, path))
  {
    hide Lines, Pieces, Tiles, AllOccur, ScanTarget, Accepted, QueueSound, RecordPieces;
    var file, s, r := w.files[path], w.saved.logs[path], w.readings[path];
    var scan := ScanOf(w.saved.logs, input, path, file);
    assert ReadingSound(w, path, s, r);
    ScanTiles(Cursor(s), path in input.fromStart, AtOpen(input, path, file), file);
    TakenIsValid(scan.state, file.bytes);
    GenerationAndStart(s, path in input.fromStart, AtOpen(input, path, file), file);
    EndIs(scan.pieces, scan.start, scan.state.offset);
    TilesConcat(r.pieces, scan.pieces, r.begin, s.offset, scan.state.offset);
    LinesConcat(r.pieces, scan.pieces);
    AcceptedGrows(w.queue.accepted, q.accepted, path, s.generation, Lines(r.pieces));
    if r.clean && |file.bytes| - scan.start <= MAX_LOG_READ_BYTES {
      RecordsExtend(r, s.offset, file.bytes, scan.pieces);
    }
  }

  lemma KeptSound(w: World, path: string, s: LogState, r: Reading, q: Queue)
    requires ReadingSound(w, path, s, r) && w.queue.accepted <= q.accepted
    ensures ReadingSound(w.(queue := q), path, s, r) && ReadingSound(w.(queue := q), path, s.(missing := true), r)
  {
    hide Tiles, RecordPieces, Lines, Accepted;
    AcceptedGrows(w.queue.accepted, q.accepted, path, s.generation, Lines(r.pieces));
  }

  lemma ScanKeepsSound(hash: string -> string, w: World, input: ScanInput)
    requires HashWorks(hash) && Sound(hash, w) && InputFits(w, input)
    ensures Sound(hash, Next(hash, w, FullScan(input)))
  {
    var entries := ScanEntries(hash, w.files, w.saved, input);
    var q := EnqueueAll(w.queue, entries, input.maxFiles);
    ScanEntriesNamed(hash, w, input);
    EnqueueAllKeepsSound(hash, w.queue, entries, input.maxFiles);
    var after := Next(hash, w, FullScan(input));
    assert after.queue == q;
    forall path | path in after.saved.logs
      ensures path in after.readings && ReadingSound(after, path, after.saved.logs[path], after.readings[path])
    {
      PathKeepsSound(hash, w, input, path);
    }
  }

  lemma PathKeepsSound(hash: string -> string, w: World, input: ScanInput, path: string)
    requires HashWorks(hash) && Sound(hash, w) && InputFits(w, input)
    requires path in NextLogs(w.files, w.saved, input)
    ensures var after := Next(hash, w, FullScan(input));
            path in after.readings && ReadingSound(after, path, after.saved.logs[path], after.readings[path])
  {
    var after := Next(hash, w, FullScan(input));
    var q := after.queue;
    assert Sound(hash, w) && QueueSound(hash, w.queue);
    ScanEntriesNamed(hash, w, input);
    EnqueueAllKeepsSound(hash, w.queue, ScanEntries(hash, w.files, w.saved, input), input.maxFiles);
    AfterScan(hash, w, input, path);
    hide EnqueueAll, ScanEntries, QueueSound, AllNamed, ReadingSound, HashWorks, Next, InputFits, NextState, ReadingAfter,
         NextLogs;
    SameReading(w.(queue := q), after, path);
    if path in input.targets {
      ReadingOfTarget(hash, w, input, path);
    } else {
      KeptSound(w, path, w.saved.logs[path], w.readings[path], q);
    }
  }

  lemma AfterScan(hash: string -> string, w: World, input: ScanInput, path: string)
    requires InputFits(w, input) && path in NextLogs(w.files, w.saved, input)
    ensures var after := Next(hash, w, FullScan(input));
            && after.files == w.files && after.saved.State? && path in after.saved.logs
            && after.queue == EnqueueAll(w.queue, ScanEntries(hash, w.files, w.saved, input), input.maxFiles)
            && (if path in input.targets then
                  && after.saved.logs[path] == NextState(w.files, w.saved, input, path)
                  && path in after.readings && after.readings[path] == ReadingAfter(w, input, path)
                else
                  && w.saved.State? && path in w.saved.logs
                  && after.saved.logs[path] == w.saved.logs[path].(missing := true)
                  && (path in w.readings ==> path in after.readings && after.readings[path] == w.readings[path]))
  {
    hide EnqueueAll, ScanEntries, NextState, ReadingAfter;
  }

  lemma ReadingOfTarget(hash: string -> string, w: World, input: ScanInput, path: string)
    requires HashWorks(hash) && Sound(hash, w) && InputFits(w, input) && path in input.targets
    ensures ReadingSound(w.(queue := EnqueueAll(w.queue, ScanEntries(hash, w.files, w.saved, input), input.maxFiles)),
                         path, NextState(w.files, w.saved, input, path), ReadingAfter(w, input, path))
  {
    var entries := ScanEntries(hash, w.files, w.saved, input);
    var q := EnqueueAll(w.queue, entries, input.maxFiles);
    ScanEntriesNamed(hash, w, input);
    EnqueueAllKeepsSound(hash, w.queue, entries, input.maxFiles);
    hide EnqueueAll, ScanEntries, AllNamed, ReadingSound, ScanOf, HashWorks, Sound, QueueSound, AllAccepted, Snapshot;
    if w.saved == NoStateFile {
      BaselineSound(w, path, |AtOpen(input, path, w.files[path]).bytes|, q.accepted);
      SameReading(w.(queue := w.queue.(accepted := q.accepted)), w.(queue := q), path);
    } else {
      ScanAcceptsLines(hash, w, input, path);
      if Resumes(w, input, path) {
        ResumedTargetSound(hash, w, input, path, q);
      } else {
        FreshTargetSound(hash, w, input, path, q);
      }
    }
  }

  /** ReadingSound looks at the files and at what was accepted, at nothing else. */
  lemma SameReading(a: World, b: World, path: string)
    requires a.files == b.files && a.queue.accepted == b.queue.accepted
    ensures forall s, r :: ReadingSound(a, path, s, r) <==> ReadingSound(b, path, s, r)
  {
    hide Tiles, RecordPieces, Lines, AllAccepted, Valid, RecordsOf;
  }

  lemma QueueStepKeepsSound(hash: string -> string, w: World, q: Queue)
    requires Sound(hash, w) && QueueSound(hash, q) && w.queue.accepted <= q.accepted
    ensures Sound(hash, w.(queue := q))
  {
    hide QueueSound, ReadingSound;
    if w.saved.State? {
      forall path | path in w.saved.logs
        ensures ReadingSound(w.(queue := q), path, w.saved.logs[path], w.readings[path])
      {
        KeptSound(w, path, w.saved.logs[path], w.readings[path], q);
      }
    }
  }

  lemma FileStepKeepsSound(hash: string -> string, w: World, path: string, step: Step)
    requires Sound(hash, w)
    requires step == Remove(path) || (step.Write? && step.path == path)
    ensures Sound(hash, Next(hash, w, step))
  {
    hide QueueSound, Tiles, AllAccepted, Lines, RecordPieces, Valid;
    var after := Next(hash, w, step);
    if w.saved.State? {
      forall p | p in w.saved.logs
        ensures p in after.readings && ReadingSound(after, p, w.saved.logs[p], after.readings[p])
      {
        assert ReadingSound(w, p, w.saved.logs[p], w.readings[p]);
      }
    }
  }

  lemma StepKeepsSound(hash: string -> string, w: World, step: Step)
    requires HashWorks(hash) && Sound(hash, w) && Allowed(w, step)
    ensures Sound(hash, Next(hash, w, step))
  {
    hide HashWorks, QueueSound, ReadingSound;
    assert QueueSound(hash, w.queue);
    match step
    case Write(path, file) => FileStepKeepsSound(hash, w, path, step);
    case Remove(path) => FileStepKeepsSound(hash, w, path, step);
    case FullScan(input) => ScanKeepsSound(hash, w, input);
    case CrashedScan(input, enqueued, discards) =>
      var entries := ScanEntries(hash, w.files, w.saved, input);
      var some := if enqueued <= |entries| then entries[..enqueued] else entries;
      ScanEntriesNamed(hash, w, input);
      SomeNamed(hash, entries, some);
      EnqueueAllKeepsSound(hash, w.queue, some, input.maxFiles);
      DiscardKeepsSound(hash, EnqueueAll(w.queue, some, input.maxFiles), discards);
      QueueStepKeepsSound(hash, w, Discard(EnqueueAll(w.queue, some, input.maxFiles), discards));
    case OtherEnqueue(id, content, maxFiles) =>
      OtherNamed(hash, id, content);
      EnqueueKeepsSound(hash, w.queue, Entry(FileName(id), content), maxFiles);
      QueueStepKeepsSound(hash, w, Enqueue(w.queue, FileName(id), content, maxFiles));
    case Send(agentId, limit, attempts) =>
      SendKeepsSound(hash, w.queue, agentId, limit, attempts);
      QueueStepKeepsSound(hash, w, SendPass(w.queue, agentId, limit, attempts));
  }

  lemma SomeNamed(hash: string -> string, entries: seq<Entry>, some: seq<Entry>)
    requires AllNamed(hash, entries) && some <= entries
    ensures AllNamed(hash, some)
  {
    assert forall i | 0 <= i < |some| :: some[i] == entries[i];
  }

  predicate Initial(w: World) {
    w.saved == NoStateFile && w.queue == Queue(map[], multiset{}, multiset{}, multiset{}, multiset{})
  }

  /** No run of writes, removals, scans, crashes before the save, other enqueues and sends loses a line: in every
      reachable state, what was read of a file up to its saved cursor tiles that stretch and is accepted. */
  lemma {:induction false} NoLineIsLost(hash: string -> string, w: World, steps: seq<Step>)
    requires HashWorks(hash) && Initial(w) && RunAllowed(hash, w, steps)
    ensures Sound(hash, Run(hash, w, steps))
  {
    hide HashWorks, Allowed, Next;
    if steps != [] {
      NoLineIsLost(hash, w, steps[..|steps| - 1]);
      StepKeepsSound(hash, Run(hash, w, steps[..|steps| - 1]), steps[|steps| - 1]);
    } else {
      hide Named;
      assert Entries(map[]) == multiset{} by { assert EntrySet(map[]) == {}; }
    }
  }

  /** In particular: of a file that has only grown since reading began, with no backlog over the scan bound, every
      non-blank newline-terminated record between there and the saved cursor is in an accepted batch. */
  lemma EveryRecordIsAccepted(hash: string -> string, w: World, steps: seq<Step>, path: string)
    requires HashWorks(hash) && Initial(w) && RunAllowed(hash, w, steps)
    requires var now := Run(hash, w, steps);
             now.saved.State? && path in now.saved.logs && path in now.readings && now.readings[path].clean
    ensures var now := Run(hash, w, steps);
            var s, r := now.saved.logs[path], now.readings[path];
            && path in now.files && 0 <= s.offset <= |now.files[path].bytes| && r.begin <= |now.files[path].bytes|
            && AllAccepted(now.queue.accepted, path, s.generation,
                           Lines(RecordPieces(now.files[path].bytes, r.begin, s.offset)))
  {
    hide HashWorks, RecordPieces, Lines, Accepted, Tiles, QueueSound, Run;
    NoLineIsLost(hash, w, steps);
    var now := Run(hash, w, steps);
    var s, r := now.saved.logs[path], now.readings[path];
    assert ReadingSound(now, path, s, r);
    RecordPiecesOfExtension(r.bytes, now.files[path].bytes, r.begin, s.offset);
  }
}
