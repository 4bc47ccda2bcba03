/** The saved cursor of a watched log file: snapshot, checkpoint comparison, rotation and one scan of one file. */
module LogCursor {
  import opened LogReader

  const LOG_CHECKPOINT_BYTES: nat := 4_096

  datatype LogFile = LogFile(identity: string, bytes: string)

  /** logFileState. checkpoint stands for the SHA-256 of the checkpoint bytes: the hash is modelled as the bytes
      themselves, and "" is "no checkpoint". */
  datatype LogState = LogState(offset: int, missing: bool, identity: string, generation: nat,
                               checkpointOffset: int, checkpointBytes: int, checkpoint: string)

  datatype Previous = NoCursor | Cursor(state: LogState)

  /** What a scan does with one file: the state it would save, where it started to read and what it took. */
  datatype TargetScan = TargetScan(state: LogState, start: nat, pieces: seq<Piece>, rotated: bool)

  function NormalizedGeneration(generation: nat): (g: nat)
    ensures g >= 1
  {
    if generation == 0 then 1 else generation
  }

  predicate WasReplaced(previous: LogState, file: LogFile) {
    previous.identity != "" && file.identity != "" && previous.identity != file.identity
  }

  predicate CheckpointMatches(file: LogFile, previous: LogState) {
    if previous.checkpoint == "" || previous.checkpointBytes <= 0 then true
    else if previous.checkpointOffset < 0 then false
    else
      var end := previous.checkpointOffset + previous.checkpointBytes;
      end <= |file.bytes| && file.bytes[previous.checkpointOffset..end] == previous.checkpoint
  }

  function Clamp(offset: int, size: nat): (o: nat)
    ensures o <= size
  {
    if offset < 0 then 0 else if offset > size then size else offset
  }

  function CheckpointStart(offset: nat): (s: nat)
    ensures s <= offset && offset - s <= LOG_CHECKPOINT_BYTES
  {
    if offset < LOG_CHECKPOINT_BYTES then 0 else offset - LOG_CHECKPOINT_BYTES
  }

  /** snapshotLogFileState */
  function Snapshot(file: LogFile, offset: int, generation: nat): LogState {
    var o := Clamp(offset, |file.bytes|);
    var s := CheckpointStart(o);
    LogState(o, false, file.identity, NormalizedGeneration(generation), s, o - s, file.bytes[s..o])
  }

  predicate Rotated(previous: LogState, file: LogFile) {
    previous.missing || WasReplaced(previous, file) || |file.bytes| < previous.offset || !CheckpointMatches(file, previous)
  }

  /** Reading from behind the end of the file takes nothing, and the state then saved stands at the end. */
  function Read(file: LogFile, start: int, generation: nat, rotated: bool): TargetScan {
    var from := if start < 0 then 0 else start;
    var pieces := Pieces(file.bytes, from, 0, 0);
    TargetScan(Snapshot(file, End(from, pieces), generation), Clamp(start, |file.bytes|), pieces, rotated)
  }

  /** The part of ScanLogPaths that deals with one file, with state loaded and events wanted. The content may change
      once while the scan is under way: the first checkpoint comparison sees `first`, everything after it `later`. */
  function ScanTarget(previous: Previous, fromStart: bool, first: LogFile, later: LogFile): TargetScan {
    match previous
    case NoCursor =>
      Read(later, if fromStart then 0 else |first.bytes|, 1, false)
    case Cursor(state) =>
      var generation := NormalizedGeneration(state.generation);
      if Rotated(state, first) then Read(later, 0, generation + 1, true)
      else if CheckpointMatches(later, state) then Read(later, state.offset, generation, false)
      else Read(later, 0, generation + 1, true)
  }

  // ----- what a saved state says about the file

  /** A state as scans save it, or such a state marked as missing. */
  predicate Valid(s: LogState) {
    && 0 <= s.offset && s.generation >= 1
    && s.checkpointOffset == CheckpointStart(s.offset)
    && s.checkpointBytes == s.offset - s.checkpointOffset == |s.checkpoint|
  }

  /** The state was taken of this content. */
  predicate TakenOf(s: LogState, bytes: string) {
    Valid(s) && s.offset <= |bytes| && bytes[s.checkpointOffset..s.offset] == s.checkpoint
  }

  lemma SnapshotIsValid(file: LogFile, offset: int, generation: nat)
    ensures TakenOf(Snapshot(file, offset, generation), file.bytes)
    ensures !Snapshot(file, offset, generation).missing
  {
  }

  /** A snapshot that is followed by appends only never triggers rotation. */
  lemma AppendsNeverRotate(file: LogFile, offset: int, generation: nat, more: string)
    ensures !Rotated(Snapshot(file, offset, generation), LogFile(file.identity, file.bytes + more))
  {
    var s := Snapshot(file, offset, generation);
    assert (file.bytes + more)[s.checkpointOffset..s.offset] == file.bytes[s.checkpointOffset..s.offset];
  }

  /** Without rotation the file still reaches the saved offset, and the last 4096 bytes before it (or all of them, if
      there are fewer) are those the state was taken of. */
  lemma ResumingMeansSameTail(s: LogState, earlier: string, file: LogFile)
    requires TakenOf(s, earlier) && !Rotated(s, file)
    ensures TakenOf(s, file.bytes)
    ensures s.offset <= |file.bytes|
         && file.bytes[CheckpointStart(s.offset)..s.offset] == earlier[CheckpointStart(s.offset)..s.offset]
  {
    if s.checkpointBytes == 0 {
      assert file.bytes[s.checkpointOffset..s.offset] == "";
    }
  }

  /** A rewrite that happens while the scan reads gives what a scan of the rewritten file alone would have given, unless
      the first comparison had already seen some other rotation. */
  lemma RewriteDuringScanIsCaught(s: LogState, fromStart: bool, first: LogFile, later: LogFile)
    requires Valid(s) && first.identity == later.identity && !Rotated(s, first)
    ensures ScanTarget(Cursor(s), fromStart, first, later) == ScanTarget(Cursor(s), fromStart, later, later)
  {
    assert CheckpointMatches(later, s) && s.offset > 0 ==> |later.bytes| >= s.offset;
  }

  // ----- one scan

  /** The saved offset is where reading stopped; the pieces tile what lies between; the state is taken of the file. */
  lemma ScanTiles(previous: Previous, fromStart: bool, first: LogFile, later: LogFile)
    requires previous.Cursor? ==> Valid(previous.state)
    ensures var scan := ScanTarget(previous, fromStart, first, later);
            && scan.start <= scan.state.offset <= |later.bytes|
            && TakenOf(scan.state, later.bytes) && !scan.state.missing
            && Tiles(scan.pieces, scan.start, scan.state.offset) && AllOccur(later.bytes, scan.pieces)
            && scan.pieces == Pieces(later.bytes, scan.start, 0, 0)
  {
    hide Pieces, Tiles, AllOccur, Rotated;
    var scan := ScanTarget(previous, fromStart, first, later);
    StartInside(previous, fromStart, first, later);
    PiecesTile(later.bytes, scan.start, 0, 0);
    EndNotBefore(later.bytes, scan.start, 0, 0);
    SnapshotIsValid(later, End(scan.start, scan.pieces), scan.state.generation);
  }

  /** A scan of a file that shrinks below the offset it would read from takes nothing. */
  lemma ReadPastEnd(file: LogFile, start: nat, generation: nat, rotated: bool)
    ensures var scan := Read(file, start, generation, rotated);
            && scan.pieces == Pieces(file.bytes, scan.start, 0, 0)
            && scan.state == Snapshot(file, End(scan.start, scan.pieces), generation)
  {
    hide Pieces;
    if start > |file.bytes| {
      PiecesAtEnd(file.bytes, start, 0, 0);
      PiecesAtEnd(file.bytes, |file.bytes|, 0, 0);
    }
  }

  lemma StartInside(previous: Previous, fromStart: bool, first: LogFile, later: LogFile)
    requires previous.Cursor? ==> Valid(previous.state)
    ensures var scan := ScanTarget(previous, fromStart, first, later);
            && scan.start <= |later.bytes| && scan.pieces == Pieces(later.bytes, scan.start, 0, 0)
            && scan.state == Snapshot(later, End(scan.start, scan.pieces), scan.state.generation)
  {
    hide Pieces, Snapshot, End, Rotated, CheckpointMatches, Clamp;
    var scan := ScanTarget(previous, fromStart, first, later);
    var start := if scan.rotated then 0
                 else if previous.Cursor? then previous.state.offset
                 else if fromStart then 0 else |first.bytes|;
    var generation := if previous.NoCursor? then 1
                      else NormalizedGeneration(previous.state.generation) + if scan.rotated then 1 else 0;
    assert scan == Read(later, start, generation, scan.rotated);
    ReadPastEnd(later, start, generation, scan.rotated);
    SnapshotGeneration(later, End(scan.start, scan.pieces), generation);
  }

  lemma SnapshotGeneration(file: LogFile, offset: int, generation: nat)
    ensures Snapshot(file, offset, generation) == Snapshot(file, offset, Snapshot(file, offset, generation).generation)
  {
  }

  /** Generation rises by at most one per scan, exactly when the scan counts a rotation, which is exactly when reading
      restarts at zero although it is not simply resumed there; otherwise it resumes at the saved offset. */
  lemma GenerationAndStart(s: LogState, fromStart: bool, first: LogFile, later: LogFile)
    requires Valid(s)
    ensures var scan := ScanTarget(Cursor(s), fromStart, first, later);
            && scan.state.generation == s.generation + (if scan.rotated then 1 else 0)
            && scan.start == (if scan.rotated then 0 else s.offset)
            && (scan.rotated <==> Rotated(s, first) || !CheckpointMatches(later, s))
  {
    hide Pieces;
  }

  // ----- runs over an explicitly configured file

  /** Where a line was read, for comparing lines of different scans. */
  datatype Position = Position(generation: nat, offset: nat)

  predicate Before(a: Position, b: Position) {
    a.generation < b.generation || (a.generation == b.generation && a.offset < b.offset)
  }

  function Positions(generation: nat, pieces: seq<Piece>): (ps: seq<Position>)
    ensures |ps| == |pieces| && forall i | 0 <= i < |pieces| :: ps[i] == Position(generation, pieces[i].from)
  {
    seq(|pieces|, i requires 0 <= i < |pieces| => Position(generation, pieces[i].from))
  }

  datatype Seen = Absent | Present(file: LogFile)

  datatype Watch = Watch(state: LogState, positions: seq<Position>)

  /** One scan of a file that is configured by name and does not change meanwhile: an absent file keeps its cursor,
      marked as missing. */
  function WatchNext(w: Watch, seen: Seen): Watch {
    match seen
    case Absent => w.(state := w.state.(missing := true))
    case Present(file) =>
      var scan := ScanTarget(Cursor(w.state), true, file, file);
      Watch(scan.state, w.positions + Positions(scan.state.generation, scan.pieces))
  }

  function WatchRun(w: Watch, scans: seq<Seen>): Watch {
    if scans == [] then w else WatchNext(WatchRun(w, scans[..|scans| - 1]), scans[|scans| - 1])
  }

  predicate Increasing(ps: seq<Position>) {
    forall i, j | 0 <= i < j < |ps| :: Before(ps[i], ps[j])
  }

  predicate BeforeCursor(ps: seq<Position>, s: LogState) {
    forall i | 0 <= i < |ps| ::
      ps[i].generation < s.generation || (ps[i].generation == s.generation && ps[i].offset < s.offset)
  }

  lemma {:induction false} TilesIncrease(pieces: seq<Piece>, start: nat, stop: nat)
    requires Tiles(pieces, start, stop)
    ensures forall i | 0 <= i < |pieces| :: start <= pieces[i].from < pieces[i].To() <= stop
    ensures forall i, j | 0 <= i < j < |pieces| :: pieces[i].from < pieces[j].from
  {
    if pieces != [] {
      var init := pieces[..|pieces| - 1];
      assert Tiles(init, start, End(start, init));
      TilesIncrease(init, start, End(start, init));
      assert forall i | 0 <= i < |init| :: init[i] == pieces[i];
    }
  }

  /** Whatever happens to the file between the scans, the (generation, offset) pairs of what the scans take strictly
      increase, each lies before the cursor, and the generation never falls. */
  lemma {:induction false} PositionsIncrease(w: Watch, scans: seq<Seen>)
    requires Valid(w.state) && w.positions == []
    ensures var after := WatchRun(w, scans);
            && Valid(after.state) && after.state.generation >= w.state.generation
            && Increasing(after.positions) && BeforeCursor(after.positions, after.state)
  {
    hide Pieces, Tiles, ScanTarget, Valid;
    if scans != [] {
      PositionsIncrease(w, scans[..|scans| - 1]);
      var before := WatchRun(w, scans[..|scans| - 1]);
      match scans[|scans| - 1]
      case Absent => MissingKeepsValid(before.state);
      case Present(file) =>
        var scan := ScanTarget(Cursor(before.state), true, file, file);
        ScanTiles(Cursor(before.state), true, file, file);
        GenerationAndStart(before.state, true, file, file);
        TilesIncrease(scan.pieces, scan.start, scan.state.offset);
        TakenIsValid(scan.state, file.bytes);
        PositionsAppend(before.positions, before.state, scan);
    }
  }

  lemma MissingKeepsValid(s: LogState)
    requires Valid(s)
    ensures Valid(s.(missing := true))
  {
  }

  lemma TakenIsValid(s: LogState, bytes: string)
    requires TakenOf(s, bytes)
    ensures Valid(s)
  {
  }

  lemma PositionsAppend(ps: seq<Position>, s: LogState, scan: TargetScan)
    requires Increasing(ps) && BeforeCursor(ps, s)
    requires scan.state.generation == s.generation + (if scan.rotated then 1 else 0)
    requires scan.start == (if scan.rotated then 0 else s.offset) && scan.start <= scan.state.offset
    requires forall i | 0 <= i < |scan.pieces| :: scan.start <= scan.pieces[i].from < scan.state.offset
    requires forall i, j | 0 <= i < j < |scan.pieces| :: scan.pieces[i].from < scan.pieces[j].from
    ensures var all := ps + Positions(scan.state.generation, scan.pieces);
            Increasing(all) && BeforeCursor(all, scan.state)
  {
  }
}
