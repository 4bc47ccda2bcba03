/** How the lines of one file become queued batches, and the identifiers those batches get (enqueueLogLineBatches). */
module LogBatches {
  import opened Decimals
  import opened LogReader

  const MAX_LOG_EVENTS_PER_BATCH: nat := 100
  const MAX_LOG_BATCH_BYTES: nat := 262_144

  function Bytes(chunk: seq<LogLine>): nat {
    if chunk == [] then 0 else Bytes(chunk[..|chunk| - 1]) + chunk[|chunk| - 1].bytes
  }

  /** A chunk that is flushed as soon as it has grown this far. */
  predicate Closed(chunk: seq<LogLine>) {
    |chunk| >= MAX_LOG_EVENTS_PER_BATCH || Bytes(chunk) >= MAX_LOG_BATCH_BYTES
  }

  /** Not empty, and not closed before its last line came. */
  predicate IsBatch(chunk: seq<LogLine>) {
    chunk != [] && !Closed(chunk[..|chunk| - 1])
  }

  function Concat(batches: seq<seq<LogLine>>): seq<LogLine> {
    if batches == [] then [] else batches[0] + Concat(batches[1..])
  }

  /** The batches of a list of lines: they concatenate to the lines, none is empty or overfull, all but the last are
      closed. SplitIsUnique shows that this leaves no choice. */
  predicate GreedySplit(lines: seq<LogLine>, batches: seq<seq<LogLine>>) {
    && Concat(batches) == lines
    && (forall i | 0 <= i < |batches| :: IsBatch(batches[i]))
    && (forall i | 0 <= i < |batches| - 1 :: Closed(batches[i]))
  }

  // ----- closing

  lemma {:induction false} BytesOfPrefix(a: seq<LogLine>, n: nat)
    requires n <= |a|
    ensures Bytes(a[..n]) <= Bytes(a)
    decreases |a| - n
  {
    if n < |a| {
      assert a[..n + 1][..n] == a[..n];
      BytesOfPrefix(a, n + 1);
    } else {
      assert a[..n] == a;
    }
  }

  lemma ClosedStaysClosed(a: seq<LogLine>, n: nat)
    requires n <= |a| && Closed(a[..n])
    ensures Closed(a)
  {
    BytesOfPrefix(a, n);
  }

  /** No proper prefix of a batch is closed, so a batch holds at most 100 events. */
  lemma BatchPrefixOpen(chunk: seq<LogLine>, n: nat)
    requires IsBatch(chunk) && n < |chunk|
    ensures !Closed(chunk[..n])
    ensures |chunk| <= MAX_LOG_EVENTS_PER_BATCH
  {
    if Closed(chunk[..n]) {
      assert chunk[..|chunk| - 1][..n] == chunk[..n];
      ClosedStaysClosed(chunk[..|chunk| - 1], n);
    }
  }

  // ----- a rescan of a longer file

  lemma SplitTail(lines: seq<LogLine>, batches: seq<seq<LogLine>>)
    requires GreedySplit(lines, batches) && batches != []
    ensures |batches[0]| <= |lines| && lines[..|batches[0]|] == batches[0]
    ensures GreedySplit(lines[|batches[0]|..], batches[1..])
    ensures !Closed(batches[0]) ==> batches == [batches[0]] && lines == batches[0]
  {
    assert batches[0] == (batches[0] + Concat(batches[1..]))[..|batches[0]|];
    assert Concat(batches[1..]) == (batches[0] + Concat(batches[1..]))[|batches[0]|..];
    if !Closed(batches[0]) {
      assert |batches| == 1;
      assert Concat(batches[1..]) == [];
    }
  }

  lemma NonemptySplit(lines: seq<LogLine>, batches: seq<seq<LogLine>>)
    requires GreedySplit(lines, batches)
    ensures batches == [] <==> lines == []
  {
    if batches != [] {
      assert IsBatch(batches[0]);
    }
  }

  /** Batching a longer list of lines reproduces every closed batch; only the last, open one can grow. */
  lemma {:induction false} ClosedBatchesAreStable(
      lines: seq<LogLine>, batches: seq<seq<LogLine>>, longer: seq<LogLine>, more: seq<seq<LogLine>>)
    requires lines <= longer && GreedySplit(lines, batches) && GreedySplit(longer, more)
    ensures |batches| <= |more|
    ensures forall i | 0 <= i < |batches| && Closed(batches[i]) :: more[i] == batches[i]
    ensures forall i | 0 <= i < |batches| :: batches[i] <= more[i]
    decreases |batches|
  {
    if batches != [] {
      NonemptySplit(lines, batches);
      NonemptySplit(longer, more);
      SplitTail(lines, batches);
      SplitTail(longer, more);
      FirstBatchStable(longer, batches[0], more[0], |more| == 1, |lines|);
      if Closed(batches[0]) {
        var rest, restMore := lines[|batches[0]|..], longer[|batches[0]|..];
        assert rest <= restMore;
        ClosedBatchesAreStable(rest, batches[1..], restMore, more[1..]);
        forall i | 0 < i < |batches|
          ensures Closed(batches[i]) ==> more[i] == batches[i]
          ensures batches[i] <= more[i]
        {
          assert batches[i] == batches[1..][i - 1] && more[i] == more[1..][i - 1];
        }
      }
    }
  }

  lemma FirstBatchStable(lines: seq<LogLine>, a: seq<LogLine>, b: seq<LogLine>, lastOne: bool, known: nat)
    requires IsBatch(a) && IsBatch(b) && a <= lines && b <= lines
    requires |a| <= known <= |lines|
    requires Closed(b) || b == lines
    requires !Closed(a) ==> known == |a|
    ensures a <= b && (Closed(a) ==> a == b)
  {
    if |b| < |a| {
      assert b == a[..|b|];
      BatchPrefixOpen(a, |b|);
    } else if |a| < |b| {
      assert a == b[..|a|];
      BatchPrefixOpen(b, |a|);
    }
  }

  lemma SplitIsUnique(lines: seq<LogLine>, a: seq<seq<LogLine>>, b: seq<seq<LogLine>>)
    requires GreedySplit(lines, a) && GreedySplit(lines, b)
    ensures a == b
  {
    ClosedBatchesAreStable(lines, a, lines, b);
    ClosedBatchesAreStable(lines, b, lines, a);
    assert forall i | 0 <= i < |a| :: a[i] == b[i];
  }

  // ----- the split as a function

  function FirstBatch(lines: seq<LogLine>, n: nat): (k: nat)
    requires 1 <= n <= |lines|
    ensures n <= k <= |lines|
    decreases |lines| - n
  {
    if n == |lines| || Closed(lines[..n]) then n else FirstBatch(lines, n + 1)
  }

  function Batches(lines: seq<LogLine>): seq<seq<LogLine>> {
    if lines == [] then []
    else
      var n := FirstBatch(lines, 1);
      [lines[..n]] + Batches(lines[n..])
  }

  lemma {:induction false} FirstBatchIsBatch(lines: seq<LogLine>, n: nat)
    requires 1 <= n <= |lines| && !Closed(lines[..n - 1])
    ensures var k := FirstBatch(lines, n);
            IsBatch(lines[..k]) && (k < |lines| ==> Closed(lines[..k]))
    decreases |lines| - n
  {
    if n == |lines| || Closed(lines[..n]) {
      assert lines[..n][..n - 1] == lines[..n - 1];
    } else {
      FirstBatchIsBatch(lines, n + 1);
    }
  }

  lemma {:induction false} BatchesAreGreedy(lines: seq<LogLine>)
    ensures GreedySplit(lines, Batches(lines))
  {
    if lines != [] {
      var n := FirstBatch(lines, 1);
      assert lines[..0] == [];
      FirstBatchIsBatch(lines, 1);
      BatchesAreGreedy(lines[n..]);
      var rest := Batches(lines[n..]);
      var all := Batches(lines);
      assert all == [lines[..n]] + rest && all[1..] == rest;
      assert lines == lines[..n] + lines[n..];
      if rest == [] {
        assert |all| == 1;
      } else {
        NonemptySplit(lines[n..], rest);
      }
      forall i | 0 <= i < |all|
        ensures IsBatch(all[i]) && (i < |all| - 1 ==> Closed(all[i]))
      {
        assert i > 0 ==> all[i] == rest[i - 1];
      }
    }
  }

  /** A batch has at most a hundred lines, reaches 256 KiB with its last line at the earliest, and all but the last batch
      reach one of the two. */
  lemma BatchLimits(lines: seq<LogLine>, k: nat)
    requires k < |Batches(lines)|
    ensures var batch := Batches(lines)[k];
            && 0 < |batch| <= 100 && Bytes(batch[..|batch| - 1]) < 262_144
            && (k < |Batches(lines)| - 1 ==> |batch| == 100 || Bytes(batch) >= 262_144)
  {
    hide Batches, Bytes;
    BatchesAreGreedy(lines);
    assert IsBatch(Batches(lines)[k]);
    BatchPrefixOpen(Batches(lines)[k], |Batches(lines)[k]| - 1);
  }

  // ----- batch identifiers

  /** What a batch says about a line, apart from what the parser derives from it. */
  datatype LineKey = LineKey(offset: nat, text: string)

  function Keys(lines: seq<LogLine>): (keys: seq<LineKey>)
    ensures |keys| == |lines|
    ensures forall i | 0 <= i < |lines| :: keys[i] == LineKey(lines[i].offset, lines[i].text)
  {
    seq(|lines|, i requires 0 <= i < |lines| => LineKey(lines[i].offset, lines[i].text))
  }

  function LineImage(line: LogLine): string {
    Decimal(line.offset) + "\n" + (line.text + "\n")
  }

  function LinesImage(lines: seq<LogLine>): string {
    if lines == [] then "" else LineImage(lines[0]) + LinesImage(lines[1..])
  }

  function ImageHeader(path: string, generation: nat): string {
    path + "\n" + (Decimal(generation) + "\n")
  }

  /** The bytes that are hashed into the batch identifier. The hash itself is modelled as the identity, that is, as a
      function without collisions. */
  function BatchImage(path: string, generation: nat, lines: seq<LogLine>): string {
    ImageHeader(path, generation) + LinesImage(lines)
  }

  lemma {:induction false} LinesImageSnoc(lines: seq<LogLine>, line: LogLine)
    ensures LinesImage(lines + [line]) == LinesImage(lines) + LineImage(line)
  {
    hide LineImage;
    if lines == [] {
      assert [line][1..] == [];
    } else {
      LinesImageSnoc(lines[1..], line);
      assert (lines + [line])[1..] == lines[1..] + [line];
    }
  }

  predicate OneLine(s: string) {
    forall i | 0 <= i < |s| :: s[i] != '\n'
  }

  function FirstNewline(s: string): (n: nat)
    ensures n <= |s|
  {
    if s == [] || s[0] == '\n' then 0 else 1 + FirstNewline(s[1..])
  }

  lemma {:induction false} FirstNewlineEnds(a: string, x: string)
    requires OneLine(a)
    ensures FirstNewline(a + "\n" + x) == |a|
  {
    if a != [] {
      FirstNewlineEnds(a[1..], x);
      assert (a + "\n" + x)[1..] == a[1..] + "\n" + x;
    }
  }

  lemma CutAtNewline(a: string, x: string, b: string, y: string)
    requires a + "\n" + x == b + "\n" + y && OneLine(a) && OneLine(b)
    ensures a == b && x == y
  {
    var s := a + "\n" + x;
    FirstNewlineEnds(a, x);
    FirstNewlineEnds(b, y);
    assert a == s[..|a|] && b == (b + "\n" + y)[..|b|];
    assert x == s[|a| + 1..] && y == (b + "\n" + y)[|b| + 1..];
  }

  lemma DecimalOneLine(n: nat)
    ensures OneLine(Decimal(n))
  {
    assert AllDigits(Decimal(n));
    assert forall i | 0 <= i < |Decimal(n)| :: IsDigit(Decimal(n)[i]);
  }

  predicate AllOneLine(lines: seq<LogLine>) {
    forall i | 0 <= i < |lines| :: OneLine(lines[i].text)
  }

  lemma {:induction false} LinesImageInjective(a: seq<LogLine>, b: seq<LogLine>)
    requires LinesImage(a) == LinesImage(b) && AllOneLine(a) && AllOneLine(b)
    ensures Keys(a) == Keys(b)
  {
    hide LineImage, Decimal;
    if a != [] && b != [] {
      LineImageParts(a[0], LinesImage(a[1..]), b[0], LinesImage(b[1..]));
      LinesImageInjective(a[1..], b[1..]);
      assert Keys(a) == [Keys(a)[0]] + Keys(a[1..]);
      assert Keys(b) == [Keys(b)[0]] + Keys(b[1..]);
    } else {
      LineImageNotEmpty(a);
      LineImageNotEmpty(b);
    }
  }

  lemma LineImageNotEmpty(lines: seq<LogLine>)
    ensures LinesImage(lines) == "" <==> lines == []
  {
    if lines != [] {
      assert |LineImage(lines[0])| > 0;
    }
  }

  lemma LineImageParts(a: LogLine, x: string, b: LogLine, y: string)
    requires LineImage(a) + x == LineImage(b) + y && OneLine(a.text) && OneLine(b.text)
    ensures a.offset == b.offset && a.text == b.text && x == y
  {
    assert LineImage(a) + x == Decimal(a.offset) + "\n" + (a.text + "\n" + x);
    assert LineImage(b) + y == Decimal(b.offset) + "\n" + (b.text + "\n" + y);
    DecimalOneLine(a.offset);
    DecimalOneLine(b.offset);
    CutAtNewline(Decimal(a.offset), a.text + "\n" + x, Decimal(b.offset), b.text + "\n" + y);
    DecimalInjective(a.offset, b.offset);
    CutAtNewline(a.text, x, b.text, y);
  }

  /** A batch identifier determines the generation and the offset and text of every line of a given path, and the path too
      as long as paths have no newline in them. LogCollisions says when batches of different paths can have one. */
  lemma BatchImageInjective(path: string, generation: nat, lines: seq<LogLine>,
                            path': string, generation': nat, lines': seq<LogLine>)
    requires BatchImage(path, generation, lines) == BatchImage(path', generation', lines')
    requires path == path' || (OneLine(path) && OneLine(path'))
    requires AllOneLine(lines) && AllOneLine(lines')
    ensures path == path' && generation == generation' && Keys(lines) == Keys(lines')
  {
    var x, y := LinesImage(lines), LinesImage(lines');
    var s, t := Decimal(generation) + "\n" + x, Decimal(generation') + "\n" + y;
    assert BatchImage(path, generation, lines) == path + "\n" + s;
    assert BatchImage(path', generation', lines') == path' + "\n" + t;
    if path == path' {
      assert s == (path + "\n" + s)[|path| + 1..] == (path' + "\n" + t)[|path| + 1..] == t;
    } else {
      CutAtNewline(path, s, path', t);
    }
    DecimalOneLine(generation);
    DecimalOneLine(generation');
    CutAtNewline(Decimal(generation), x, Decimal(generation'), y);
    DecimalInjective(generation, generation');
    LinesImageInjective(lines, lines');
  }

  /** A rescan of the same start, after a crash and whatever was appended meanwhile, gives every batch but the last the
      identifier it had, and the last one too if it was closed. */
  lemma RescanReproducesBatchIds(path: string, generation: nat, file: string, longer: string, start: nat)
    requires start <= |file| && file <= longer
    ensures var before := Batches(Lines(Pieces(file, start, 0, 0)));
            var after := Batches(Lines(Pieces(longer, start, 0, 0)));
            && |before| <= |after|
            && (forall i | 0 <= i < |before| && (i < |before| - 1 || Closed(before[i])) ::
                  BatchImage(path, generation, before[i]) == BatchImage(path, generation, after[i]))
            && (forall i | 0 <= i < |before| :: before[i] <= after[i])
  {
    hide Lines, Pieces, Batches;
    var lines, longerLines := Lines(Pieces(file, start, 0, 0)), Lines(Pieces(longer, start, 0, 0));
    LinesOfExtension(file, longer, start);
    BatchesAreGreedy(lines);
    BatchesAreGreedy(longerLines);
    ClosedBatchesAreStable(lines, Batches(lines), longerLines, Batches(longerLines));
  }
}
