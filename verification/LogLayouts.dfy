/** Which lines can stand in one batch, and files on which a scan makes such a batch.

    A scan yields lines at rising offsets whose records do not overlap and lie within what it reads. Conversely, lines
    like that can be laid out in a file, with empty records between them, so that a scan from the first of them reads
    them back in one batch. */
module LogLayouts {
  import opened Decimals
  import opened GoText
  import opened LogBatches
  import opened LogReader

  /** The batch is one that some scan of some file content makes. */
  ghost predicate Scanned(batch: seq<LogLine>) {
    exists file: string, start: nat, k: nat :: ScannedFrom(file, start, k, batch)
  }

  predicate ScannedFrom(file: string, start: nat, k: nat, batch: seq<LogLine>) {
    start <= |file|
    && var batches := Batches(Lines(Pieces(file, start, 0, 0)));
       k < |batches| && batches[k] == batch
  }

  // ----- what a scan can read

  /** The texts of lines. */
  predicate Readable(text: string) {
    && OneLine(text) && !Blank(text) && |text| <= MAX_LOG_LINE_BYTES
    && (TrimRightNewlines(text) == text || |text| == MAX_LOG_LINE_BYTES)
  }

  /** The shortest record that is read as a text. */
  function Record(text: string): (raw: string)
    ensures |text| < |raw| <= |text| + 2
  {
    if TrimRightNewlines(text) == text then text + "\n" else text + "x\n"
  }

  function After(line: LogLine): nat {
    line.offset + |Record(line.text)|
  }

  function RecordBytes(lines: seq<LogLine>): nat {
    if lines == [] then 0 else RecordBytes(lines[..|lines| - 1]) + |Record(lines[|lines| - 1].text)|
  }

  /** A file can hold these lines at their offsets, and a scan can read them and then begin one more, all in one batch. */
  predicate Fits(lines: seq<LogLine>) {
    && lines != [] && |lines| < MAX_LOG_EVENTS_PER_BATCH && RecordBytes(lines) < MAX_LOG_BATCH_BYTES
    && (forall i | 0 <= i < |lines| :: Readable(lines[i].text))
    && (forall i, j | 0 <= i < j < |lines| :: After(lines[i]) <= lines[j].offset)
    && After(lines[|lines| - 1]) - lines[0].offset < MAX_LOG_READ_BYTES
  }

  // ----- the lines of a scan

  /** Whole records before the last one, in order, from p on and within what a scan reads. */
  predicate ScanLines(lines: seq<LogLine>, p: nat, room: nat) {
    && (forall i | 0 <= i < |lines| :: Readable(lines[i].text) && p <= lines[i].offset < p + room)
    && (forall i, j | 0 <= i < j < |lines| ::
          After(lines[i]) <= lines[j].offset && |Record(lines[i].text)| <= lines[i].bytes)
  }

  lemma RawIsReadable(piece: Piece)
    requires !piece.Skipped() && forall k | 0 <= k < |piece.raw| - 1 :: piece.raw[k] != '\n'
    ensures Readable(piece.Line().text)
    ensures piece.raw != "" && piece.raw[|piece.raw| - 1] == '\n' ==> |Record(piece.Line().text)| <= |piece.raw|
  {
    var raw, text := piece.raw, piece.Line().text;
    var trimmed := TrimRightNewlines(raw);
    RawTextOneLine(raw);
    assert OneLine(text);
    if |trimmed| <= MAX_LOG_LINE_BYTES {
      TrimTwice(trimmed);
    }
  }

  lemma TrimTwice(s: string)
    requires s != "" ==> s[|s| - 1] != '\n' && s[|s| - 1] != '\r'
    ensures TrimRightNewlines(s) == s
  {
  }

  lemma {:induction false} PiecesAreScanLines(file: string, p: nat, lines: nat, read: nat)
    requires p <= |file| && read <= MAX_LOG_READ_BYTES
    ensures ScanLines(Lines(Pieces(file, p, lines, read)), p, MAX_LOG_READ_BYTES - read)
    decreases |file| - p
  {
    hide Pieces, NextPiece, RecordEnd, Piece.Yield, Readable, Record;
    var rest := PiecesStep(file, p, lines, read);
    if Pieces(file, p, lines, read) == [] {
      LinesEmpty();
    } else {
      var piece := Pieces(file, p, lines, read)[0];
      PiecesAreScanLines(file, piece.To(), lines + |piece.Yield()|, read + |piece.raw|);
      LinesCons(piece, rest);
      PieceBeforeLines(file, piece, rest, Lines(rest), MAX_LOG_READ_BYTES - read);
    }
  }

  lemma PieceBeforeLines(file: string, piece: Piece, rest: seq<Piece>, later: seq<LogLine>, room: nat)
    requires piece.from < |file| && 0 < |piece.raw| <= room && Occurs(file, piece)
    requires piece.To() <= RecordEnd(file, piece.from)
    requires piece.cut || piece.raw[|piece.raw| - 1] == '\n'
    requires piece.cut ==> later == []
    requires ScanLines(later, piece.To(), room - |piece.raw|)
    ensures ScanLines(piece.Yield() + later, piece.from, room)
  {
    hide RecordEnd, Readable, Record, LineText, Blank, ScanLines, Piece.Skipped, Occurs;
    RawIsOneRecord(file, piece);
    LaterLines(later, piece.To(), room - |piece.raw|, piece.from, room);
    if !piece.Skipped() {
      RawIsReadable(piece);
      assert piece.Yield() == [piece.Line()];
      ConsScanLines(piece.Line(), later, piece.To(), room);
    } else {
      assert piece.Yield() + later == later;
    }
  }

  lemma RawIsOneRecord(file: string, piece: Piece)
    requires piece.from < |file| && Occurs(file, piece) && piece.To() <= RecordEnd(file, piece.from)
    ensures forall k | 0 <= k < |piece.raw| - 1 :: piece.raw[k] != '\n'
  {
    hide RecordEnd;
    forall k | 0 <= k < |piece.raw| - 1 ensures piece.raw[k] != '\n' {
      assert piece.raw[k] == file[piece.from..piece.To()][k] == file[piece.from + k];
    }
  }

  lemma LaterLines(later: seq<LogLine>, to: nat, less: int, p: nat, room: nat)
    requires less >= 0 && ScanLines(later, to, less) && p <= to && to + less <= p + room
    ensures ScanLines(later, p, room)
  {
    hide Readable, Record;
  }

  lemma ConsScanLines(line: LogLine, later: seq<LogLine>, to: nat, room: nat)
    requires Readable(line.text) && 0 < line.bytes <= room && to == line.offset + line.bytes
    requires later != [] ==> |Record(line.text)| <= line.bytes
    requires ScanLines(later, to, room - line.bytes)
    ensures ScanLines([line] + later, line.offset, room)
  {
    hide Readable, Record;
    var lines := [line] + later;
    assert forall i | 0 < i < |lines| :: lines[i] == later[i - 1];
  }

  lemma DropThenTake(lines: seq<LogLine>, n: nat, j: nat, m: nat)
    requires n + j + m <= |lines|
    ensures lines[n..][j..j + m] == lines[n + j..n + j + m]
  {
  }

  lemma {:induction false} BatchInLines(lines: seq<LogLine>, batches: seq<seq<LogLine>>, k: nat) returns (i: nat)
    requires GreedySplit(lines, batches) && k < |batches|
    ensures i + |batches[k]| <= |lines| && lines[i..i + |batches[k]|] == batches[k] && IsBatch(batches[k])
    decreases k
  {
    SplitTail(lines, batches);
    hide Concat, Closed;
    var n := |batches[0]|;
    if k == 0 {
      i := 0;
    } else {
      var j := BatchInLines(lines[n..], batches[1..], k - 1);
      i := n + j;
assert batches[1..][k - 1] == batches[k];
      DropThenTake(lines, n, j, |batches[k]|);
    }
  }

  lemma {:induction false} RecordBytesBelow(lines: seq<LogLine>)
    requires forall i | 0 <= i < |lines| :: |Record(lines[i].text)| <= lines[i].bytes
    ensures RecordBytes(lines) <= Bytes(lines)
  {
    hide Record;
    if lines != [] {
      RecordBytesBelow(lines[..|lines| - 1]);
    }
  }

  /** Of a scanned batch every part without the last line fits. */
  lemma ScannedFits(batch: seq<LogLine>, k: nat)
    requires Scanned(batch) && k + 1 < |batch|
    ensures Fits(batch[..k + 1])
  {
    hide Lines, Pieces, Batches, Readable, Record, RecordBytes, Fits, ScanLines, GreedySplit, Bytes;
    var file: string, start: nat, n: nat :| ScannedFrom(file, start, n, batch);
    var lines := Lines(Pieces(file, start, 0, 0));
    PiecesAreScanLines(file, start, 0, 0);
    BatchesAreGreedy(lines);
    var i := BatchInLines(lines, Batches(lines), n);
    var part := batch[..k + 1];
    BatchPrefixOpen(batch, k + 1);
    assert forall j | 0 <= j < |batch| :: batch[j] == lines[i + j];
    PartFits(lines, start, i, part, batch[k + 1]);
  }

  lemma PartFits(lines: seq<LogLine>, start: nat, i: nat, part: seq<LogLine>, next: LogLine)
    requires ScanLines(lines, start, MAX_LOG_READ_BYTES) && part != [] && !Closed(part)
    requires i + |part| < |lines| && next == lines[i + |part|]
    requires forall j | 0 <= j < |part| :: part[j] == lines[i + j]
    ensures Fits(part)
  {
    hide Readable, Record;
    forall j | 0 <= j < |part| ensures |Record(part[j].text)| <= part[j].bytes && After(part[j]) <= next.offset {
      assert part[j] == lines[i + j];
    }
    RecordBytesBelow(part);
    forall a, b | 0 <= a < b < |part| ensures After(part[a]) <= part[b].offset {
      assert part[a] == lines[i + a] && part[b] == lines[i + b];
    }
    assert part[0] == lines[i];
  }

  lemma ScannedOneLine(batch: seq<LogLine>)
    requires Scanned(batch)
    ensures batch != [] && AllOneLine(batch)
  {
    hide Lines, Pieces, Batches, Record;
    var file: string, start: nat, n: nat :| ScannedFrom(file, start, n, batch);
    var lines := Lines(Pieces(file, start, 0, 0));
    PiecesAreScanLines(file, start, 0, 0);
    BatchesAreGreedy(lines);
    var i := BatchInLines(lines, Batches(lines), n);
    assert forall j | 0 <= j < |batch| :: batch[j] == lines[i + j];
  }

  // ----- a file that holds given lines

  function Newlines(n: nat): (s: string)
    ensures |s| == n && forall i | 0 <= i < n :: s[i] == '\n'
  {
    seq(n, _ => '\n')
  }

  /** The lines at their offsets, from p on, with empty records between them, and what follows. */
  function Layout(lines: seq<LogLine>, p: nat, tail: string): string {
    if lines == [] then tail
    else
      var gap := if p < lines[0].offset then lines[0].offset - p else 0;
      Newlines(gap) + (Record(lines[0].text) + Layout(lines[1..], After(lines[0]), tail))
  }

  predicate Ordered(lines: seq<LogLine>, p: nat) {
    && (forall i | 0 <= i < |lines| :: Readable(lines[i].text) && p <= lines[i].offset)
    && (forall i, j | 0 <= i < j < |lines| :: After(lines[i]) <= lines[j].offset)
  }

  lemma {:induction false} RecordEndIs(file: string, p: nat, e: nat)
    requires p < e <= |file| && file[e - 1] == '\n' && forall k | p <= k < e - 1 :: file[k] != '\n'
    ensures RecordEnd(file, p) == e
    decreases e - p
  {
    if p + 1 < e {
      RecordEndIs(file, p + 1, e);
    }
  }

  /** A whole record within the bounds is the next piece. */
  lemma OneRecord(file: string, p: nat, e: nat, lines: nat, read: nat)
    requires p < e <= |file| && RecordEnd(file, p) == e && file[e - 1] == '\n'
    requires lines < MAX_LOG_LINES_PER_SCAN && read + (e - p) <= MAX_LOG_READ_BYTES
    ensures var piece := Piece(p, file[p..e], false);
            Lines(Pieces(file, p, lines, read))
            == piece.Yield() + Lines(Pieces(file, e, lines + |piece.Yield()|, read + (e - p)))
  {
    hide RecordEnd, Pieces, Lines, Piece.Yield, NextPiece;
    var piece := Piece(p, file[p..e], false);
    var next := NextPiece(file, p, MAX_LOG_READ_BYTES - read);
    assert |next| == 1 && next[0] == piece;
    var rest := PiecesStep(file, p, lines, read);
    LinesCons(piece, rest);
  }

  /** An empty record yields nothing. */
  lemma SkipNewline(file: string, p: nat, lines: nat, read: nat)
    requires p < |file| && file[p] == '\n' && lines < MAX_LOG_LINES_PER_SCAN && read < MAX_LOG_READ_BYTES
    ensures Lines(Pieces(file, p, lines, read)) == Lines(Pieces(file, p + 1, lines, read + 1))
  {
    hide RecordEnd, Pieces, Lines;
    RecordEndIs(file, p, p + 1);
    OneRecord(file, p, p + 1, lines, read);
    var piece := Piece(p, file[p..p + 1], false);
    assert piece.raw == "\n" && "\n"[..0] == "" && piece.Skipped();
  }

  lemma {:induction false} SkipNewlines(file: string, p: nat, q: nat, lines: nat, read: nat)
    requires p <= q <= |file| && (forall k | p <= k < q :: file[k] == '\n')
    requires lines < MAX_LOG_LINES_PER_SCAN && read + (q - p) <= MAX_LOG_READ_BYTES
    ensures Lines(Pieces(file, p, lines, read)) == Lines(Pieces(file, q, lines, read + (q - p)))
    decreases q - p
  {
    hide Lines, Pieces;
    if p < q {
      SkipNewline(file, p, lines, read);
      SkipNewlines(file, p + 1, q, lines, read + 1);
    }
  }

  lemma RecordReads(text: string)
    requires Readable(text)
    ensures var raw := Record(text);
            LineText(raw) == text && raw[|raw| - 1] == '\n' && forall k | 0 <= k < |raw| - 1 :: raw[k] != '\n'
  {
    hide Blank, LeadingSpace;
    var raw := Record(text);
    if TrimRightNewlines(text) == text {
      TrimNewline(text);
    } else {
      TrimNewline(text + "x");
      assert raw == (text + "x") + "\n";
      assert (text + "x")[..MAX_LOG_LINE_BYTES] == text;
    }
  }

  lemma TrimNewline(s: string)
    requires s != "" ==> TrimRightNewlines(s) == s || (s[|s| - 1] != '\n' && s[|s| - 1] != '\r')
    ensures TrimRightNewlines(s + "\n") == s
  {
    assert (s + "\n")[..|s|] == s;
    if s != "" && s[|s| - 1] != '\n' && s[|s| - 1] != '\r' {
      TrimTwice(s);
    }
  }

  /** A record of a readable text yields its line. */
  lemma TakeRecord(file: string, p: nat, text: string, lines: nat, read: nat) returns (line: LogLine)
    requires Readable(text) && p + |Record(text)| <= |file| && file[p..p + |Record(text)|] == Record(text)
    requires lines < MAX_LOG_LINES_PER_SCAN && read + |Record(text)| <= MAX_LOG_READ_BYTES
    ensures line.offset == p && line.text == text && line.bytes == |Record(text)|
    ensures line.truncated <==> |TrimRightNewlines(Record(text))| > MAX_LOG_LINE_BYTES
    ensures Lines(Pieces(file, p, lines, read))
         == [line] + Lines(Pieces(file, p + |Record(text)|, lines + 1, read + |Record(text)|))
  {
    hide RecordEnd, Pieces, LineText, Blank, Lines;
    var raw := Record(text);
    var e := p + |raw|;
    RecordReads(text);
    hide Record;
    assert forall k | p <= k < e :: file[k] == raw[k - p];
    RecordEndIs(file, p, e);
    OneRecord(file, p, e, lines, read);
    line := Piece(p, raw, false).Line();
    assert Piece(p, raw, false).Yield() == [line];
  }

  const TAIL := "zz\n"

  /** Two more letters at the end are read as a line even where the scan bound leaves room for only one. */
  lemma TakeTail(file: string, p: nat, lines: nat, read: nat) returns (line: LogLine)
    requires p + 3 == |file| && file[p..] == TAIL && lines < MAX_LOG_LINES_PER_SCAN && read < MAX_LOG_READ_BYTES
    ensures line.offset == p && Readable(line.text) && Lines(Pieces(file, p, lines, read)) == [line]
  {
    assert file[p] == file[p..][0] == 'z' && file[p + 1] == file[p..][1] == 'z' && file[p + 2] == file[p..][2] == '\n';
    RecordEndIs(file, p, p + 3);
    var room := MAX_LOG_READ_BYTES - read;
    var n := if room < 3 then room else 3;
    var piece := Piece(p, file[p..p + n], n < 3);
    TailReads(piece);
    RawIsReadable(piece);
    line := piece.Line();
    hide RecordEnd, LineText, Blank, Readable;
    assert NextPiece(file, p, room) == [piece];
    var rest := PiecesStep(file, p, lines, read);
    assert rest == [] by {
      if n == 3 {
        PiecesAtEnd(file, p + 3, lines + |piece.Yield()|, read + 3);
      }
    }
    LinesCons(piece, rest);
    LinesEmpty();
  }

  lemma TailReads(piece: Piece)
    requires piece.raw == "z" || piece.raw == "zz" || piece.raw == "zz\n"
    ensures !piece.Skipped() && forall k | 0 <= k < |piece.raw| - 1 :: piece.raw[k] != '\n'
  {
    TrimTwice("z");
    TrimTwice("zz");
    TrimNewline("zz");
    assert "zz" + "\n" == "zz\n";
    assert LeadingSpace("z") == 0 && LeadingSpace("zz") == 0;
  }

  /** What a scan of the layout of lines reads: those lines, and one more. */
  predicate ReadBack(lines: seq<LogLine>, p: nat, found: seq<LogLine>) {
    && |found| == |lines| + 1
    && (forall i | 0 <= i < |lines| :: found[i].offset == lines[i].offset && found[i].text == lines[i].text
                                       && found[i].bytes == |Record(lines[i].text)|)
    && found[|lines|].offset == (if lines == [] then p else After(lines[|lines| - 1]))
    && Readable(found[|lines|].text)
  }

  lemma {:induction false} LayoutScan(file: string, p: nat, lines: seq<LogLine>, count: nat, read: nat)
    requires p <= |file| && file[p..] == Layout(lines, p, TAIL) && Ordered(lines, p)
    requires count + |lines| < MAX_LOG_LINES_PER_SCAN
    requires read + (if lines == [] then 0 else After(lines[|lines| - 1]) - p) < MAX_LOG_READ_BYTES
    ensures ReadBack(lines, p, Lines(Pieces(file, p, count, read)))
    decreases |lines|
  {
    hide Readable, Record, Pieces, Lines, Layout, ReadBack;
    if lines == [] {
      assert Layout([], p, TAIL) == TAIL by { EmptyLayout(p); }
      var line := TakeTail(file, p, count, read);
      assert ReadBack([], p, [line]) by { OnlyTail(p, line); }
    } else {
      var q, to, rest := lines[0].offset, After(lines[0]), lines[1..];
      LayoutParts(file, p, lines);
      LastAfter(lines);
      SkipNewlines(file, p, q, count, read);
      var line := TakeRecord(file, q, lines[0].text, count, read + (q - p));
      LayoutScan(file, to, rest, count + 1, read + (to - p));
      ReadBackCons(lines, p, line, Lines(Pieces(file, to, count + 1, read + (to - p))));
    }
  }

  lemma EmptyLayout(p: nat)
    ensures Layout([], p, TAIL) == TAIL
  {
  }

  lemma OnlyTail(p: nat, line: LogLine)
    requires line.offset == p && Readable(line.text)
    ensures ReadBack([], p, [line])
  {
    hide Readable;
  }

  lemma ReadBackCons(lines: seq<LogLine>, p: nat, line: LogLine, found: seq<LogLine>)
    requires lines != [] && ReadBack(lines[1..], After(lines[0]), found)
    requires line.offset == lines[0].offset && line.text == lines[0].text && line.bytes == |Record(lines[0].text)|
    ensures ReadBack(lines, p, [line] + found)
  {
    hide Readable, Record;
    assert forall i | 0 < i < |lines| :: lines[i] == lines[1..][i - 1] && ([line] + found)[i] == found[i - 1];
  }

  lemma LastAfter(lines: seq<LogLine>)
    requires lines != [] && Ordered(lines, 0)
    ensures After(lines[0]) <= After(lines[|lines| - 1]) && Ordered(lines[1..], After(lines[0]))
  {
    hide Readable, Record;
  }

  lemma LayoutParts(file: string, p: nat, lines: seq<LogLine>)
    requires p <= |file| && lines != [] && p <= lines[0].offset && file[p..] == Layout(lines, p, TAIL)
    ensures var q, to := lines[0].offset, After(lines[0]);
            && q <= to <= |file| && (forall k | p <= k < q :: file[k] == '\n') && file[q..to] == Record(lines[0].text)
            && file[to..] == Layout(lines[1..], to, TAIL)
  {
    hide Readable, Record;
    var q, to, w := lines[0].offset, After(lines[0]), file[p..];
    var gap, raw, rest := Newlines(q - p), Record(lines[0].text), Layout(lines[1..], to, TAIL);
    assert w == gap + (raw + rest);
    hide Layout;
    forall k | p <= k < q ensures file[k] == '\n' {
      assert file[k] == w[k - p] == gap[k - p];
    }
    SuffixSlices(file, p, q, to);
    ConcatSlices(gap, raw, rest);
  }

  lemma SuffixSlices(s: string, p: nat, q: nat, to: nat)
    requires p <= q <= to <= |s|
    ensures s[p..][q - p..to - p] == s[q..to] && s[p..][to - p..] == s[to..]
  {
  }

  lemma ConcatSlices(a: string, b: string, c: string)
    ensures (a + (b + c))[|a|..|a| + |b|] == b && (a + (b + c))[|a| + |b|..] == c
  {
  }

  // ----- lines that fit are read in one batch

  lemma OneBatch(lines: seq<LogLine>)
    requires IsBatch(lines)
    ensures Batches(lines) == [lines]
  {
    hide Batches, Bytes;
    BatchesAreGreedy(lines);
    assert Concat([lines]) == lines + Concat([]) == lines;
    SplitIsUnique(lines, Batches(lines), [lines]);
  }

  lemma {:induction false} BytesAreRecordBytes(lines: seq<LogLine>, found: seq<LogLine>)
    requires |found| == |lines| && forall i | 0 <= i < |lines| :: found[i].bytes == |Record(lines[i].text)|
    ensures Bytes(found) == RecordBytes(lines)
  {
    hide Record;
    if lines != [] {
      BytesAreRecordBytes(lines[..|lines| - 1], found[..|lines| - 1]);
    }
  }

  lemma ReadBackIsBatch(lines: seq<LogLine>, p: nat, found: seq<LogLine>)
    requires Fits(lines) && ReadBack(lines, p, found)
    ensures IsBatch(found)
  {
    hide Record, Readable, Bytes, RecordBytes;
    var init := found[..|found| - 1];
    BytesAreRecordBytes(lines, init);
  }

  lemma ScannedIs(file: string, start: nat, batch: seq<LogLine>)
    requires start <= |file| && Lines(Pieces(file, start, 0, 0)) == batch && IsBatch(batch)
    ensures Scanned(batch)
  {
    OneBatch(batch);
    hide Lines, Pieces, Batches;
    assert ScannedFrom(file, start, 0, batch);
  }

  /** Some scan reads lines that fit, in a batch with one more line. */
  lemma LinesOfSomeScan(lines: seq<LogLine>) returns (batch: seq<LogLine>)
    requires Fits(lines)
    ensures Scanned(batch) && ReadBack(lines, lines[0].offset, batch)
  {
    hide Readable, Record, Lines, Pieces, Scanned, IsBatch, RecordBytes, ReadBack;
    var start := lines[0].offset;
    var head, body := Newlines(start), Layout(lines, start, TAIL);
    var file := head + body;
    hide Layout;
    assert file[start..] == body;
    FitsInOrder(lines);
    LayoutScan(file, start, lines, 0, 0);
    batch := Lines(Pieces(file, start, 0, 0));
    ReadBackIsBatch(lines, start, batch);
    ScannedIs(file, start, batch);
  }

  lemma FitsInOrder(lines: seq<LogLine>)
    requires Fits(lines)
    ensures Ordered(lines, lines[0].offset)
  {
    hide Readable, Record;
  }

  /** Some scan reads a single line, at any offset. */
  lemma LineOfSomeScan(offset: nat, text: string) returns (line: LogLine)
    requires Readable(text)
    ensures line.offset == offset && line.text == text && Scanned([line])
  {
    assert |Record(text)| <= MAX_LOG_READ_BYTES;
    hide Readable, Record, Lines, Pieces, Scanned, IsBatch, Newlines;
    var head, raw := Newlines(offset), Record(text);
    var file := head + raw;
    assert file[offset..offset + |raw|] == raw;
    line := TakeRecord(file, offset, text, 0, 0);
    PiecesAtEnd(file, offset + |raw|, 1, |raw|);
    LinesEmpty();
    assert [line] + [] == [line];
    OneLineIsBatch(line);
    ScannedIs(file, offset, [line]);
  }

  lemma OneLineIsBatch(line: LogLine)
    ensures IsBatch([line])
  {
    assert [line][..0] == [];
  }
}
