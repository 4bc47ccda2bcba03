/** The bounded incremental line reader of the log watcher (readNewLogLinesFromFile). */
module LogReader {
  import opened GoText

  const MAX_LOG_LINE_BYTES: nat := 65_536
  const MAX_LOG_READ_BYTES: nat := 8_388_608
  const MAX_LOG_LINES_PER_SCAN: nat := 50_000

  datatype LogLine = LogLine(offset: nat, bytes: nat, text: string, truncated: bool)

  /** A run of bytes taken in one step from offset `from` on; cut says that the scan bound ended it. */
  datatype Piece = Piece(from: nat, raw: string, cut: bool) {
    function To(): nat {
      from + |raw|
    }

    predicate Skipped() {
      Blank(LineText(raw))
    }

    function Line(): LogLine {
      LogLine(from, |raw|, LineText(raw), |TrimRightNewlines(raw)| > MAX_LOG_LINE_BYTES || cut)
    }

    function Yield(): (lines: seq<LogLine>)
      ensures |lines| <= 1
    {
      if Skipped() then [] else [Line()]
    }
  }

  /** Where bufio's ReadString('\n') stops when it starts at p: behind the next newline, or at the end of the file. */
  function RecordEnd(file: string, p: nat): (e: nat)
    requires p <= |file|
    ensures p <= e <= |file|
    ensures p < |file| ==> p < e
    ensures forall k | p <= k < e - 1 :: file[k] != '\n'
    ensures e < |file| ==> file[e - 1] == '\n'
    decreases |file| - p
  {
    if p == |file| then p
    else if file[p] == '\n' then p + 1
    else RecordEnd(file, p + 1)
  }

  function LineText(raw: string): string {
    var text := TrimRightNewlines(raw);
    if |text| > MAX_LOG_LINE_BYTES then text[..MAX_LOG_LINE_BYTES] else text
  }

  /** The lines a list of pieces yields: one per piece that is not blank, in order. */
  function Lines(pieces: seq<Piece>): (lines: seq<LogLine>) {
    if pieces == [] then []
    else pieces[0].Yield() + Lines(pieces[1..])
  }

  lemma {:induction false} LinesConcat(a: seq<Piece>, b: seq<Piece>)
    ensures Lines(a + b) == Lines(a) + Lines(b)
  {
    hide Piece.Yield;
    if a == [] {
      assert a + b == b;
    } else {
      LinesConcat(a[1..], b);
      assert (a + b)[1..] == a[1..] + b;
      YieldFirst(a[0].Yield(), Lines(a[1..]), Lines(b));
    }
  }

  lemma YieldFirst(y: seq<LogLine>, a: seq<LogLine>, b: seq<LogLine>)
    ensures y + (a + b) == (y + a) + b
  {
  }

  lemma LinesEmpty()
    ensures Lines([]) == []
  {
  }

  lemma LinesSnoc(a: seq<Piece>, piece: Piece)
    ensures Lines(a + [piece]) == Lines(a) + piece.Yield()
  {
    LinesConcat(a, [piece]);
    LinesCons(piece, []);
    assert [piece] + [] == [piece];
  }

  lemma LinesCons(piece: Piece, rest: seq<Piece>)
    ensures Lines([piece] + rest) == piece.Yield() + Lines(rest)
  {
    assert ([piece] + rest)[1..] == rest;
  }

  /** The next piece a reader at p takes when the scan bound leaves it room: the record there, or a part of it that
      fills the room, or nothing when the record is not complete yet. */
  function NextPiece(file: string, p: nat, room: nat): (next: seq<Piece>)
    requires p < |file| && room > 0
    ensures |next| == if RecordEnd(file, p) - p > room || file[RecordEnd(file, p) - 1] == '\n' then 1 else 0
    ensures next != [] ==> next[0].from == p && 0 < |next[0].raw| <= room && Occurs(file, next[0])
    ensures next != [] ==> next[0].cut == (RecordEnd(file, p) - p > room)
    ensures next != [] && next[0].cut ==> |next[0].raw| == room
    ensures next != [] && !next[0].cut ==> next[0].To() == RecordEnd(file, p) && file[next[0].To() - 1] == '\n'
  {
    var e := RecordEnd(file, p);
    if e - p > room then [Piece(p, file[p..p + room], true)]
    else if file[e - 1] != '\n' then []
    else [Piece(p, file[p..e], false)]
  }

  /** The pieces one scan takes from p when it has already yielded `lines` lines and read `read` bytes. */
  function Pieces(file: string, p: nat, lines: nat, read: nat): seq<Piece>
    decreases |file| - p
  {
    if lines >= MAX_LOG_LINES_PER_SCAN || read >= MAX_LOG_READ_BYTES || p >= |file| then []
    else
      var next := NextPiece(file, p, MAX_LOG_READ_BYTES - read);
      if next == [] then []
      else next + Pieces(file, next[0].To(), lines + |next[0].Yield()|, read + |next[0].raw|)
  }

  lemma PiecesStep(file: string, p: nat, lines: nat, read: nat) returns (rest: seq<Piece>)
    requires read <= MAX_LOG_READ_BYTES
    ensures lines < MAX_LOG_LINES_PER_SCAN && read < MAX_LOG_READ_BYTES && p < |file|
            && NextPiece(file, p, MAX_LOG_READ_BYTES - read) != [] ==>
              var piece := NextPiece(file, p, MAX_LOG_READ_BYTES - read)[0];
              && rest == Pieces(file, piece.To(), lines + |piece.Yield()|, read + |piece.raw|)
              && Pieces(file, p, lines, read) == [piece] + rest
              && (piece.cut ==> rest == [])
    ensures Pieces(file, p, lines, read) != [] ==>
              lines < MAX_LOG_LINES_PER_SCAN && read < MAX_LOG_READ_BYTES && p < |file|
              && NextPiece(file, p, MAX_LOG_READ_BYTES - read) != []
  {
    hide RecordEnd, Piece.Yield, NextPiece;
    rest := [];
    if lines < MAX_LOG_LINES_PER_SCAN && read < MAX_LOG_READ_BYTES && p < |file| {
      var next := NextPiece(file, p, MAX_LOG_READ_BYTES - read);
      if next != [] {
        rest := Pieces(file, next[0].To(), lines + |next[0].Yield()|, read + |next[0].raw|);
        assert next == [next[0]];
      }
    }
  }

  lemma ChunkIsNextPiece(file: string, p: nat, room: nat)
    requires p < |file| && room > 0
    ensures var chunk := file[p..RecordEnd(file, p)];
            NextPiece(file, p, room) ==
              if |chunk| > room then [Piece(p, chunk[..room], true)]
              else if chunk[|chunk| - 1] != '\n' then []
              else [Piece(p, chunk, false)]
  {
    hide RecordEnd;
    var chunk := file[p..RecordEnd(file, p)];
    if |chunk| > room {
      assert chunk[..room] == file[p..p + room];
    }
  }

  lemma MovePiece(done: seq<Piece>, piece: Piece, rest: seq<Piece>)
    ensures done + ([piece] + rest) == (done + [piece]) + rest
  {
  }

  lemma PiecesAtEnd(file: string, p: nat, lines: nat, read: nat)
    requires lines >= MAX_LOG_LINES_PER_SCAN || read >= MAX_LOG_READ_BYTES || p >= |file|
    ensures Pieces(file, p, lines, read) == []
  {
  }

  function End(start: nat, pieces: seq<Piece>): nat {
    if pieces == [] then start else pieces[|pieces| - 1].To()
  }

  /** The pieces cover [start, stop) without a gap and without an overlap. */
  predicate Tiles(pieces: seq<Piece>, start: nat, stop: nat) {
    && End(start, pieces) == stop
    && (pieces != [] ==> pieces[0].from == start)
    && (forall i | 0 <= i < |pieces| :: pieces[i].raw != [])
    && (forall i | 0 < i < |pieces| :: pieces[i].from == pieces[i - 1].To())
  }

  lemma TilesConcat(a: seq<Piece>, b: seq<Piece>, start: nat, mid: nat, stop: nat)
    requires Tiles(a, start, mid) && Tiles(b, mid, stop)
    ensures Tiles(a + b, start, stop)
  {
  }

  predicate Occurs(file: string, piece: Piece) {
    piece.To() <= |file| && file[piece.from..piece.To()] == piece.raw
  }

  predicate AllOccur(file: string, pieces: seq<Piece>) {
    forall i | 0 <= i < |pieces| :: Occurs(file, pieces[i])
  }

  /** One turn of the reader's loop: ReadString('\n') at p, cut to the room the scan bound leaves. */
  method TakePiece(file: string, p: nat, room: nat) returns (piece: Piece, taken: bool, eof: bool)
    requires p < |file| && room > 0
    ensures NextPiece(file, p, room) == if taken then [piece] else []
    ensures eof && taken ==> |piece.raw| == room
  {
    hide RecordEnd, NextPiece;
    var chunk := file[p..RecordEnd(file, p)];
    ChunkIsNextPiece(file, p, room);
    eof := chunk[|chunk| - 1] != '\n';
    var truncatedByScanLimit := |chunk| > room;
    if truncatedByScanLimit {
      chunk := chunk[..room];
    }
    piece := Piece(p, chunk, truncatedByScanLimit);
    // A writer may be between writes: an incomplete record is left for the next scan.
    taken := !(eof && !truncatedByScanLimit);
  }

  /** readNewLogLinesFromFile, on a file whose content does not change meanwhile. */
  method ReadNewLogLines(file: string, start: int) returns (lines: seq<LogLine>, next: nat)
    ensures var from: nat := if start < 0 then 0 else start;
            var pieces := Pieces(file, from, 0, 0);
            lines == Lines(pieces) && next == End(from, pieces)
  {
    hide LineText, Blank, TrimRightNewlines, LeadingSpace, RecordEnd, NextPiece, Pieces, Lines;
    var from: nat := if start < 0 then 0 else start;
    var offset := from;
    var readBytes: nat := 0;
    lines := [];
    ghost var done: seq<Piece> := [];
    assert Lines(done) == [] by { LinesEmpty(); }
    while |lines| < MAX_LOG_LINES_PER_SCAN && readBytes < MAX_LOG_READ_BYTES
      invariant readBytes <= MAX_LOG_READ_BYTES
      invariant lines == Lines(done)
      invariant offset == End(from, done)
      invariant Pieces(file, from, 0, 0) == done + Pieces(file, offset, |lines|, readBytes)
      decreases MAX_LOG_READ_BYTES - readBytes
    {
      if offset >= |file| {
        PiecesAtEnd(file, offset, |lines|, readBytes);
        break;
      }
      var piece, taken, eof := TakePiece(file, offset, MAX_LOG_READ_BYTES - readBytes);
      ghost var rest := PiecesStep(file, offset, |lines|, readBytes);
      if !taken {
        break;
      }
      LinesSnoc(done, piece);
      MovePiece(done, piece, rest);
      done := done + [piece];
      offset := offset + |piece.raw|;
      readBytes := readBytes + |piece.raw|;
      if !piece.Skipped() {
        lines := lines + [piece.Line()];
      }
      if eof {
        PiecesAtEnd(file, offset, |lines|, readBytes);
        break;
      }
    }
    if |lines| >= MAX_LOG_LINES_PER_SCAN || readBytes >= MAX_LOG_READ_BYTES {
      PiecesAtEnd(file, offset, |lines|, readBytes);
    }
    assert Pieces(file, from, 0, 0) == done;
    next := offset;
  }

  // ----- tiling, whole lines and the exact condition under which a line is cut

  predicate WholeRecord(file: string, piece: Piece) {
    !piece.cut && piece.from < piece.To() <= |file| && piece.To() == RecordEnd(file, piece.from)
    && file[piece.To() - 1] == '\n'
  }

  /** The piece is a proper part of its record and ends on the scan bound. */
  predicate CutAt(file: string, piece: Piece, bound: nat) {
    piece.cut && piece.from < |file| && piece.To() == bound < RecordEnd(file, piece.from)
  }

  /** What a scan consumes is tiled by its pieces, which are parts of the file below the scan bound. */
  lemma {:induction false} PiecesTile(file: string, p: nat, lines: nat, read: nat)
    requires p <= |file| && read <= MAX_LOG_READ_BYTES
    ensures var pieces := Pieces(file, p, lines, read);
            && Tiles(pieces, p, End(p, pieces)) && AllOccur(file, pieces)
            && End(p, pieces) <= p + (MAX_LOG_READ_BYTES - read) && End(p, pieces) <= |file|
    decreases |file| - p
  {
    hide Piece.Yield, RecordEnd, NextPiece, Pieces, Tiles;
    var rest := PiecesStep(file, p, lines, read);
    var pieces := Pieces(file, p, lines, read);
    if pieces != [] {
      var piece := pieces[0];
      PiecesTile(file, piece.To(), lines + |piece.Yield()|, read + |piece.raw|);
      TilesOne(piece);
      TilesConcat([piece], rest, p, piece.To(), End(piece.To(), rest));
      assert End(p, pieces) == End(piece.To(), rest);
    } else {
      TilesNone(p);
    }
  }

  lemma TilesNone(p: nat)
    ensures Tiles([], p, p)
  {
  }

  lemma TilesOne(piece: Piece)
    requires piece.raw != []
    ensures Tiles([piece], piece.from, piece.To())
  {
  }

  /** Each piece is one whole newline-terminated record, except that the last one may be cut by the scan bound. */
  lemma {:induction false} PiecesAreRecords(file: string, p: nat, lines: nat, read: nat)
    requires p <= |file| && read <= MAX_LOG_READ_BYTES
    ensures var pieces := Pieces(file, p, lines, read);
            forall i | 0 <= i < |pieces| ::
              || WholeRecord(file, pieces[i])
              || (i == |pieces| - 1 && CutAt(file, pieces[i], p + (MAX_LOG_READ_BYTES - read)))
    decreases |file| - p
  {
    hide Piece.Yield, RecordEnd, NextPiece, Pieces, WholeRecord, CutAt;
    var rest := PiecesStep(file, p, lines, read);
    var pieces := Pieces(file, p, lines, read);
    if pieces != [] {
      var piece := pieces[0];
      NextIsRecord(file, p, MAX_LOG_READ_BYTES - read);
      PiecesAreRecords(file, piece.To(), lines + |piece.Yield()|, read + |piece.raw|);
      forall i | 0 <= i < |pieces|
        ensures WholeRecord(file, pieces[i]) ||
                (i == |pieces| - 1 && CutAt(file, pieces[i], p + (MAX_LOG_READ_BYTES - read)))
      {
        assert i > 0 ==> pieces[i] == rest[i - 1];
      }
    }
  }

  lemma NextIsRecord(file: string, p: nat, room: nat)
    requires p < |file| && room > 0 && NextPiece(file, p, room) != []
    ensures var piece := NextPiece(file, p, room)[0];
            if piece.cut then CutAt(file, piece, p + room) else WholeRecord(file, piece)
  {
    hide NextPiece, RecordEnd;
  }

  /** The newline-terminated records that start at p, one after the other, and end by q. */
  function RecordPieces(file: string, p: nat, q: nat): (pieces: seq<Piece>)
    requires p <= |file|
    decreases |file| - p
  {
    var e := RecordEnd(file, p);
    if p == |file| || e > q || file[e - 1] != '\n' then []
    else [Piece(p, file[p..e], false)] + RecordPieces(file, e, q)
  }

  predicate CutsALine(pieces: seq<Piece>) {
    exists i | 0 <= i < |pieces| :: pieces[i].cut
  }

  lemma CutsALineCons(piece: Piece, rest: seq<Piece>)
    ensures CutsALine([piece] + rest) <==> piece.cut || CutsALine(rest)
  {
    var pieces := [piece] + rest;
    if piece.cut {
      assert pieces[0].cut;
    }
    if i :| 0 <= i < |rest| && rest[i].cut {
      assert pieces[i + 1].cut;
    }
  }

  /** A scan cuts a record in two exactly when bytes lie beyond the scan bound, the bound is not right behind a newline
      and the complete records before the bound leave room under the line limit. */
  lemma {:induction false} CutIff(file: string, p: nat, lines: nat, read: nat)
    requires p <= |file| && read <= MAX_LOG_READ_BYTES
    requires read < MAX_LOG_READ_BYTES || (p > 0 && file[p - 1] == '\n')
    ensures var bound := p + (MAX_LOG_READ_BYTES - read);
            CutsALine(Pieces(file, p, lines, read)) <==>
            && bound < |file| && file[bound - 1] != '\n'
            && lines + |Lines(RecordPieces(file, p, bound))| < MAX_LOG_LINES_PER_SCAN
    decreases |file| - p
  {
    hide Piece.Yield, RecordEnd, NextPiece, Pieces, RecordPieces, Lines;
    var bound := p + (MAX_LOG_READ_BYTES - read);
    var rest := PiecesStep(file, p, lines, read);
    RecordPiecesStep(file, p, bound);
    LinesEmpty();
    if Pieces(file, p, lines, read) != [] {
      var piece := Pieces(file, p, lines, read)[0];
      CutsALineCons(piece, rest);
      if !piece.cut {
        CutIff(file, piece.To(), lines + |piece.Yield()|, read + |piece.raw|);
        LinesCons(piece, RecordPieces(file, piece.To(), bound));
      }
    }
  }

  /** The bound does cut an ordinary short line: 8 MiB - 1 empty lines and then the line ab. */
  lemma ShortLineCanBeCut()
    ensures CutsALine(Pieces(seq(8_388_607, _ => '\n') + "ab\n", 0, 0, 0))
  {
    var file := seq(MAX_LOG_READ_BYTES - 1, _ => '\n') + "ab\n";
    EmptyLinesYieldNothing(file, 0, MAX_LOG_READ_BYTES - 1, MAX_LOG_READ_BYTES);
    CutIff(file, 0, 0, 0);
  }

  lemma {:induction false} EmptyLinesYieldNothing(file: string, p: nat, n: nat, q: nat)
    requires p <= n < q < |file| && (forall k | p <= k < n :: file[k] == '\n')
    requires forall k | n <= k < q :: file[k] != '\n'
    ensures Lines(RecordPieces(file, p, q)) == []
    decreases n - p
  {
    if p < n {
      assert RecordEnd(file, p) == p + 1;
      var piece := Piece(p, file[p..p + 1], false);
      EmptyLinesYieldNothing(file, p + 1, n, q);
      LinesCons(piece, RecordPieces(file, p + 1, q));
      assert piece.raw == "\n" && "\n"[..0] == "";
    } else {
      assert RecordEnd(file, p) > q;
    }
  }

  // ----- a longer file

  lemma {:induction false} RecordEndOfExtension(file: string, longer: string, p: nat)
    requires p < |file| && file <= longer
    ensures file[RecordEnd(file, p) - 1] == '\n' ==> RecordEnd(longer, p) == RecordEnd(file, p)
    ensures RecordEnd(longer, p) >= RecordEnd(file, p)
    decreases |file| - p
  {
    if file[p] != '\n' && p + 1 < |file| {
      RecordEndOfExtension(file, longer, p + 1);
    }
  }

  /** What was read of a file is a prefix of what is read, from the same start, of any extension of it. */
  lemma {:induction false} PiecesOfExtension(file: string, longer: string, p: nat, lines: nat, read: nat)
    requires p <= |file| && file <= longer && read <= MAX_LOG_READ_BYTES
    ensures Pieces(file, p, lines, read) <= Pieces(longer, p, lines, read)
    decreases |file| - p
  {
    hide Piece.Yield, RecordEnd, Pieces;
    var rest := PiecesStep(file, p, lines, read);
    var rest' := PiecesStep(longer, p, lines, read);
    if Pieces(file, p, lines, read) != [] {
      var piece := Pieces(file, p, lines, read)[0];
      RecordEndOfExtension(file, longer, p);
      assert longer[p..piece.To()] == file[p..piece.To()];
      assert NextPiece(longer, p, MAX_LOG_READ_BYTES - read) == [piece];
      PiecesOfExtension(file, longer, piece.To(), lines + |piece.Yield()|, read + |piece.raw|);
    }
  }

  /** The same for the lines. */
  lemma LinesOfExtension(file: string, longer: string, start: nat)
    requires start <= |file| && file <= longer
    ensures Lines(Pieces(file, start, 0, 0)) <= Lines(Pieces(longer, start, 0, 0))
  {
    hide Piece.Yield, Pieces, Lines, RecordEnd;
    var a, b := Pieces(file, start, 0, 0), Pieces(longer, start, 0, 0);
    PiecesOfExtension(file, longer, start, 0, 0);
    assert b == a + b[|a|..];
    LinesConcat(a, b[|a|..]);
  }

  // ----- runs of appends and scans

  /** q is p, or lies right behind a newline. */
  predicate Boundary(file: string, p: nat, q: nat) {
    p <= q <= |file| && (q == p || file[q - 1] == '\n')
  }

  lemma {:induction false} RecordEndAtMost(file: string, p: nat, q: nat)
    requires p < q <= |file| && file[q - 1] == '\n'
    ensures RecordEnd(file, p) <= q && file[RecordEnd(file, p) - 1] == '\n'
    decreases q - p
  {
    if file[p] != '\n' {
      RecordEndAtMost(file, p + 1, q);
    }
  }

  lemma {:induction false} RecordPiecesSplit(file: string, p: nat, c: nat, q: nat)
    requires Boundary(file, p, c) && c <= q
    ensures RecordPieces(file, p, q) == RecordPieces(file, p, c) + RecordPieces(file, c, q)
    decreases c - p
  {
    if p < c {
      RecordEndAtMost(file, p, c);
      RecordPiecesSplit(file, RecordEnd(file, p), c, q);
    } else {
      assert RecordPieces(file, p, p) == [];
    }
  }

  lemma {:induction false} RecordPiecesOfExtension(file: string, longer: string, p: nat, c: nat)
    requires file <= longer && Boundary(file, p, c)
    ensures Boundary(longer, p, c) && RecordPieces(file, p, c) == RecordPieces(longer, p, c)
    decreases c - p
  {
    if p < c {
      RecordEndAtMost(file, p, c);
      RecordEndOfExtension(file, longer, p);
      assert file[p..RecordEnd(file, p)] == longer[p..RecordEnd(file, p)];
      RecordPiecesOfExtension(file, longer, RecordEnd(file, p), c);
    }
  }

  /** Under the scan bound one scan takes whole records only, and all of them unless the line limit stops it. */
  lemma {:induction false} ScanUnderBound(file: string, p: nat, lines: nat, read: nat)
    requires p <= |file| && read <= MAX_LOG_READ_BYTES && |file| - p <= MAX_LOG_READ_BYTES - read
    ensures var pieces := Pieces(file, p, lines, read);
            && Boundary(file, p, End(p, pieces))
            && pieces == RecordPieces(file, p, End(p, pieces))
            && (lines + |Lines(pieces)| < MAX_LOG_LINES_PER_SCAN ==> pieces == RecordPieces(file, p, |file|))
    decreases |file| - p
  {
    hide Piece.Yield, RecordEnd, NextPiece, Pieces, RecordPieces, Lines;
    var rest := PiecesStep(file, p, lines, read);
    var pieces := Pieces(file, p, lines, read);
    PiecesTile(file, p, lines, read);
    if pieces != [] {
      var piece := pieces[0];
      ScanUnderBound(file, piece.To(), lines + |piece.Yield()|, read + |piece.raw|);
      LinesCons(piece, rest);
      assert End(p, pieces) == End(piece.To(), rest);
      EndNotBefore(file, piece.To(), lines + |piece.Yield()|, read + |piece.raw|);
      RecordPiecesStep(file, p, End(p, pieces));
      RecordPiecesStep(file, p, |file|);
    } else {
      LinesEmpty();
      RecordPiecesStep(file, p, p);
      RecordPiecesStep(file, p, |file|);
    }
  }

  lemma {:induction false} EndNotBefore(file: string, p: nat, lines: nat, read: nat)
    requires p <= |file| && read <= MAX_LOG_READ_BYTES
    ensures p <= End(p, Pieces(file, p, lines, read)) <= |file|
    decreases |file| - p
  {
    hide Piece.Yield, RecordEnd, NextPiece, Pieces;
    var rest := PiecesStep(file, p, lines, read);
    if Pieces(file, p, lines, read) != [] {
      var piece := Pieces(file, p, lines, read)[0];
      EndNotBefore(file, piece.To(), lines + |piece.Yield()|, read + |piece.raw|);
      assert End(p, [piece] + rest) == End(piece.To(), rest);
    }
  }

  lemma RecordPiecesStep(file: string, p: nat, q: nat)
    requires p <= |file|
    ensures q < RecordEnd(file, p) || q <= p ==> RecordPieces(file, p, q) == []
    ensures p == |file| || file[RecordEnd(file, p) - 1] != '\n' ==> RecordPieces(file, p, q) == []
    ensures p < |file| && file[RecordEnd(file, p) - 1] == '\n' && RecordEnd(file, p) <= q ==>
              var e := RecordEnd(file, p);
              RecordPieces(file, p, q) == [Piece(p, file[p..e], false)] + RecordPieces(file, e, q)
  {
    hide RecordEnd;
  }

  datatype TailStep = Append(bytes: string) | Scan

  datatype Tail = Tail(file: string, cursor: nat, pieces: seq<Piece>, lines: seq<LogLine>)

  function TailNext(t: Tail, step: TailStep): Tail {
    match step
    case Append(bytes) => t.(file := t.file + bytes)
    case Scan =>
      var pieces := Pieces(t.file, t.cursor, 0, 0);
      Tail(t.file, End(t.cursor, pieces), t.pieces + pieces, t.lines + Lines(pieces))
  }

  function TailRun(t: Tail, steps: seq<TailStep>): Tail {
    if steps == [] then t else TailNext(TailRun(t, steps[..|steps| - 1]), steps[|steps| - 1])
  }

  /** Every scan of the run finds at most 8 MiB it has not read yet. */
  predicate BacklogBounded(t: Tail, steps: seq<TailStep>) {
    steps == [] ||
    (var before := TailRun(t, steps[..|steps| - 1]);
     && BacklogBounded(t, steps[..|steps| - 1])
     && (steps[|steps| - 1] == Scan ==> |before.file| <= before.cursor + MAX_LOG_READ_BYTES))
  }

  function Start(file: string, start: nat): Tail {
    Tail(file, start, [], [])
  }

  /** Wherever the scans fall, the pieces of the whole run tile [start, cursor) with the bytes of the file as it ends up,
      and the lines are what those pieces yield. */
  lemma {:induction false} RunTiles(file: string, start: nat, steps: seq<TailStep>)
    requires start <= |file|
    ensures var t := TailRun(Start(file, start), steps);
            && file <= t.file && t.cursor <= |t.file|
            && Tiles(t.pieces, start, t.cursor) && AllOccur(t.file, t.pieces)
            && t.lines == Lines(t.pieces)
  {
    hide LineText, Blank, TrimRightNewlines, LeadingSpace, Piece.Yield, RecordEnd, NextPiece, Pieces, RecordPieces, Lines, Tiles;
    if steps == [] {
      TilesNone(start);
      LinesEmpty();
    } else {
      RunTiles(file, start, steps[..|steps| - 1]);
      var before := TailRun(Start(file, start), steps[..|steps| - 1]);
      match steps[|steps| - 1]
      case Append(bytes) =>
        forall i | 0 <= i < |before.pieces| ensures Occurs(before.file + bytes, before.pieces[i]) {
          assert Occurs(before.file, before.pieces[i]);
        }
      case Scan =>
        var pieces := Pieces(before.file, before.cursor, 0, 0);
        PiecesTile(before.file, before.cursor, 0, 0);
        TilesConcat(before.pieces, pieces, start, before.cursor, End(before.cursor, pieces));
        LinesConcat(before.pieces, pieces);
    }
  }

  /** While no backlog exceeds the scan bound, a run emits exactly the non-blank newline-terminated records between the
      start and its cursor, each once and in order, wherever the scans fell; a last scan that stays under the line limit
      has taken all of them. */
  lemma {:induction false} ScheduleIndependence(file: string, start: nat, steps: seq<TailStep>)
    requires start <= |file| && BacklogBounded(Start(file, start), steps)
    ensures var t := TailRun(Start(file, start), steps);
            && Boundary(t.file, start, t.cursor)
            && t.pieces == RecordPieces(t.file, start, t.cursor)
            && t.lines == Lines(RecordPieces(t.file, start, t.cursor))
    ensures steps != [] && steps[|steps| - 1] == Scan ==>
              var before := TailRun(Start(file, start), steps[..|steps| - 1]);
              var t := TailRun(Start(file, start), steps);
              |t.lines| - |before.lines| < MAX_LOG_LINES_PER_SCAN ==>
                t.lines == Lines(RecordPieces(t.file, start, |t.file|))
  {
    hide LineText, Blank, TrimRightNewlines, LeadingSpace, Piece.Yield, RecordEnd, NextPiece, Pieces, RecordPieces, Lines, Tiles;
    RunTiles(file, start, steps);
    if steps == [] {
      RecordPiecesStep(file, start, start);
    } else {
      ScheduleIndependence(file, start, steps[..|steps| - 1]);
      RunTiles(file, start, steps[..|steps| - 1]);
      var before := TailRun(Start(file, start), steps[..|steps| - 1]);
      var t := TailRun(Start(file, start), steps);
      match steps[|steps| - 1]
      case Append(bytes) =>
        RecordPiecesOfExtension(before.file, t.file, start, before.cursor);
      case Scan =>
        ScanUnderBound(t.file, before.cursor, 0, 0);
        RecordPiecesSplit(t.file, start, before.cursor, t.cursor);
        RecordPiecesSplit(t.file, start, before.cursor, |t.file|);
    }
  }

  // ----- the texts of the lines

  predicate LineEnding(s: string) {
    forall i | 0 <= i < |s| :: s[i] == '\r' || s[i] == '\n'
  }

  /** The line of a record is its text without the line ending, cut at 65 536 bytes; a blank one yields none. */
  lemma RecordYields(from: nat, text: string, ending: string, cut: bool)
    requires LineEnding(ending) && (text != [] ==> !LineEnding([text[|text| - 1]]))
    ensures var shown := if |text| > 65_536 then text[..65_536] else text;
            Piece(from, text + ending, cut).Yield()
            == if Blank(shown) then [] else [LogLine(from, |text| + |ending|, shown, |text| > 65_536 || cut)]
  {
    hide Blank;
    TrimEnding(text, ending);
  }

  lemma {:induction false} TrimEnding(text: string, ending: string)
    requires LineEnding(ending) && (text != [] ==> !LineEnding([text[|text| - 1]]))
    ensures TrimRightNewlines(text + ending) == text
  {
    var raw := text + ending;
    if ending == [] {
      assert raw == text;
      assert text != [] ==> [text[|text| - 1]][0] == text[|text| - 1];
    } else {
      TrimEnding(text, ending[..|ending| - 1]);
      assert raw[..|raw| - 1] == text + ending[..|ending| - 1] && raw[|raw| - 1] == ending[|ending| - 1];
    }
  }

  predicate TextsOneLine(lines: seq<LogLine>) {
    forall i | 0 <= i < |lines| :: '\n' !in lines[i].text
  }

  /** No line a scan yields has a newline in its text. */
  lemma {:induction false} ScanTextsOneLine(file: string, p: nat, lines: nat, read: nat)
    requires p <= |file| && read <= MAX_LOG_READ_BYTES
    ensures TextsOneLine(Lines(Pieces(file, p, lines, read)))
    decreases |file| - p
  {
    hide LineText, RecordEnd, NextPiece, Pieces, Blank, LeadingSpace, TrimRightNewlines;
    var rest := PiecesStep(file, p, lines, read);
    if Pieces(file, p, lines, read) != [] {
      var piece := Pieces(file, p, lines, read)[0];
      RawTextOneLine(piece.raw);
      ScanTextsOneLine(file, piece.To(), lines + |piece.Yield()|, read + |piece.raw|);
      LinesCons(piece, rest);
    }
  }

  lemma RawTextOneLine(raw: string)
    requires forall k | 0 <= k < |raw| - 1 :: raw[k] != '\n'
    ensures '\n' !in LineText(raw)
  {
    var trimmed := TrimRightNewlines(raw);
    assert forall k | 0 <= k < |trimmed| :: trimmed[k] == raw[k];
  }
}
