/** When batches of two different files can get one identifier. */
module LogCollisions {
  import opened Decimals
  import opened GoText
  import opened LogBatches
  import opened LogReader
  import opened LogLayouts

  /** Batches of p and of q, each made by a scan, are hashed into identifiers from the same bytes. */
  ghost predicate Collide(p: string, q: string) {
    exists g: nat, h: nat, a, b :: SameImage(p, g, a, q, h, b)
  }

  ghost predicate SameImage(p: string, g: nat, a: seq<LogLine>, q: string, h: nat, b: seq<LogLine>) {
    g >= 1 && h >= 1 && Scanned(a) && Scanned(b) && BatchImage(p, g, a) == BatchImage(q, h, b)
  }

  /** q reads like the start of a batch of p: path, generation, lines and the offset of one more line, which has the
      smallest text a generation has. */
  ghost predicate Nested(p: string, q: string) {
    exists g: nat, m, o: nat :: NestedBy(p, q, g, m, o)
  }

  predicate NestedBy(p: string, q: string, g: nat, m: seq<LogLine>, o: nat) {
    g >= 1 && Fits(m + [One(o)]) && q == BatchImage(p, g, m) + Decimal(o)
  }

  function One(o: nat): LogLine {
    LogLine(o, 2, "1", false)
  }

  // ----- cutting images from the back

  lemma ShorterEndHidesNewline(x: string, s: string, y: string, t: string)
    requires x + "\n" + s == y + "\n" + t && |s| < |t|
    ensures !OneLine(t)
  {
    assert (x + "\n" + s)[|x|] == '\n' && (y + "\n" + t)[|x|] == t[|x| - |y| - 1];
  }

  lemma CutAtLastNewline(x: string, s: string, y: string, t: string)
    requires x + "\n" + s == y + "\n" + t && OneLine(s) && OneLine(t)
    ensures x == y && s == t
  {
    var w := x + "\n" + s;
    if |s| < |t| {
      ShorterEndHidesNewline(x, s, y, t);
    } else if |t| < |s| {
      ShorterEndHidesNewline(y, t, x, s);
    } else {
      assert x == w[..|x|] && y == (y + "\n" + t)[..|y|];
      assert s == w[|x| + 1..] && t == (y + "\n" + t)[|y| + 1..];
    }
  }

  /** x followed by a line and y followed by a line, when the texts are one-line. */
  lemma CutLastLine(x: string, a: LogLine, y: string, b: LogLine)
    requires x + LineImage(a) == y + LineImage(b) && OneLine(a.text) && OneLine(b.text)
    requires x != "" ==> x[|x| - 1] == '\n'
    requires y != "" ==> y[|y| - 1] == '\n'
    requires x != "" && y != ""
    ensures x == y && a.offset == b.offset && a.text == b.text
  {
    var xo, yo := x + Decimal(a.offset), y + Decimal(b.offset);
    assert x + LineImage(a) == (xo + "\n" + a.text) + "\n";
    assert y + LineImage(b) == (yo + "\n" + b.text) + "\n";
    CutAtLastNewline(xo + "\n" + a.text, "", yo + "\n" + b.text, "");
    CutAtLastNewline(xo, a.text, yo, b.text);
    DecimalOneLine(a.offset);
    DecimalOneLine(b.offset);
    var x', y' := x[..|x| - 1], y[..|y| - 1];
    assert x == x' + "\n" && y == y' + "\n";
    CutAtLastNewline(x', Decimal(a.offset), y', Decimal(b.offset));
    DecimalInjective(a.offset, b.offset);
  }

  lemma ImageSnoc(p: string, g: nat, lines: seq<LogLine>, line: LogLine)
    ensures BatchImage(p, g, lines + [line]) == BatchImage(p, g, lines) + LineImage(line)
  {
    hide LineImage, ImageHeader;
    LinesImageSnoc(lines, line);
  }

  lemma {:induction false} ImageEnds(p: string, g: nat, lines: seq<LogLine>)
    ensures var w := BatchImage(p, g, lines); w != "" && w[|w| - 1] == '\n'
    ensures lines == [] ==> BatchImage(p, g, lines) == p + "\n" + Decimal(g) + "\n"
  {
    hide Decimal;
    if lines != [] {
      var n := |lines| - 1;
      assert lines == lines[..n] + [lines[n]];
      ImageSnoc(p, g, lines[..n], lines[n]);
    } else {
      assert BatchImage(p, g, []) == p + "\n" + Decimal(g) + "\n";
    }
  }

  /** Equal images of as many lines have equal paths; otherwise the path of the shorter list reads like the start of the
      longer one. */
  lemma {:induction false} StripLines(p: string, g: nat, a: seq<LogLine>, q: string, h: nat, b: seq<LogLine>)
    requires BatchImage(p, g, a) == BatchImage(q, h, b) && AllOneLine(a) && AllOneLine(b) && |b| <= |a|
    ensures |a| == |b| ==> p == q
    ensures |b| < |a| ==>
              var k := |a| - |b| - 1;
              q == BatchImage(p, g, a[..k]) + Decimal(a[k].offset) && a[k].text == Decimal(h)
    decreases |b|
  {
    hide Decimal, LineImage, BatchImage;
    DecimalOneLine(g);
    DecimalOneLine(h);
    if b == [] {
      ImageEnds(q, h, []);
      if a == [] {
        ImageEnds(p, g, []);
        CutAtLastNewline(p + "\n" + Decimal(g), "", q + "\n" + Decimal(h), "");
        CutAtLastNewline(p, Decimal(g), q, Decimal(h));
      } else {
        LastLineIsHeader(p, g, a, q, h);
      }
    } else {
      var m, n := |a| - 1, |b| - 1;
      assert a == a[..m] + [a[m]] && b == b[..n] + [b[n]];
      ImageSnoc(p, g, a[..m], a[m]);
      ImageSnoc(q, h, b[..n], b[n]);
      ImageEnds(p, g, a[..m]);
      ImageEnds(q, h, b[..n]);
      CutLastLine(BatchImage(p, g, a[..m]), a[m], BatchImage(q, h, b[..n]), b[n]);
      StripLines(p, g, a[..m], q, h, b[..n]);
      if n < m {
        var k := m - n - 1;
        assert a[..m][..k] == a[..k];
      }
    }
  }

  lemma LastLineIsHeader(p: string, g: nat, a: seq<LogLine>, q: string, h: nat)
    requires a != [] && AllOneLine(a) && BatchImage(p, g, a) == q + "\n" + Decimal(h) + "\n"
    ensures var k := |a| - 1;
            q == BatchImage(p, g, a[..k]) + Decimal(a[k].offset) && a[k].text == Decimal(h)
  {
    hide Decimal, BatchImage;
    var k := |a| - 1;
    var x := BatchImage(p, g, a[..k]) + Decimal(a[k].offset);
    assert a == a[..k] + [a[k]];
    ImageSnoc(p, g, a[..k], a[k]);
    assert BatchImage(p, g, a) == x + "\n" + a[k].text + "\n";
    CutAtLastNewline(x + "\n" + a[k].text, "", q + "\n" + Decimal(h), "");
    DecimalOneLine(h);
    CutAtLastNewline(x, a[k].text, q, Decimal(h));
  }

  /** The last text may be replaced by the smallest one. */
  lemma FitsWithOne(lines: seq<LogLine>, k: nat, h: nat)
    requires Fits(lines) && |lines| == k + 1 && lines[k].text == Decimal(h)
    ensures Fits(lines[..k] + [One(lines[k].offset)])
  {
    hide Record, Readable, Decimal;
    var l := lines[..k] + [One(lines[k].offset)];
    OneIsSmall(h);
    assert l[..k] == lines[..k];
    assert forall i | 0 <= i < k :: l[i] == lines[i];
  }

  lemma OneIsSmall(h: nat)
    ensures Readable("1") && |Record("1")| == 2 && |Record("1")| <= |Record(Decimal(h))|
  {
    assert LeadingSpace("1") == 0;
    TrimTwice("1");
  }

  lemma CollisionIsNested(p: string, g: nat, a: seq<LogLine>, q: string, h: nat, b: seq<LogLine>)
    requires SameImage(p, g, a, q, h, b) && |b| <= |a| && p != q
    ensures Nested(p, q)
  {
    hide BatchImage, Fits, Scanned, Decimal, AllOneLine, Nested, NestedBy, OneLine;
    ScannedOneLine(a);
    ScannedOneLine(b);
    StripLines(p, g, a, q, h, b);
    var k := |a| - |b| - 1;
    ScannedFits(a, k);
    assert a[..k + 1][..k] == a[..k];
    FitsWithOne(a[..k + 1], k, h);
    NestedIs(p, q, g, a[..k], a[k].offset);
  }

  lemma NestedIs(p: string, q: string, g: nat, m: seq<LogLine>, o: nat)
    requires g >= 1 && Fits(m + [One(o)]) && q == BatchImage(p, g, m) + Decimal(o)
    ensures Nested(p, q)
  {
    hide Fits, BatchImage, Decimal;
    assert NestedBy(p, q, g, m, o);
  }

  // ----- nested paths collide

  lemma {:induction false} SameKeysSameImage(a: seq<LogLine>, b: seq<LogLine>)
    requires |a| == |b| && forall i | 0 <= i < |a| :: a[i].offset == b[i].offset && a[i].text == b[i].text
    ensures LinesImage(a) == LinesImage(b)
  {
    hide Decimal;
    if a != [] {
      SameKeysSameImage(a[1..], b[1..]);
    }
  }

  lemma NestedImages(p: string, g: nat, m: seq<LogLine>, o: nat, z: LogLine)
    ensures BatchImage(p, g, m + [One(o)] + [z]) == BatchImage(BatchImage(p, g, m) + Decimal(o), 1, [z])
  {
    var q := BatchImage(p, g, m) + Decimal(o);
    ImageSnoc(p, g, m + [One(o)], z);
    ImageSnoc(p, g, m, One(o));
    ImageEnds(q, 1, []);
    ImageSnoc(q, 1, [], z);
    assert Decimal(1) == "1";
    hide BatchImage, Decimal;
    assert [] + [z] == [z];
    assert LineImage(One(o)) == Decimal(o) + "\n" + ("1" + "\n");
    assert BatchImage(p, g, m) + LineImage(One(o)) == q + "\n" + "1" + "\n" == BatchImage(q, 1, []);
  }

  lemma NestedCollides(p: string, q: string)
    requires Nested(p, q)
    ensures Collide(p, q)
  {
    hide BatchImage, Fits, Scanned, Readable, Record, Decimal;
    var g: nat, m, o: nat :| NestedBy(p, q, g, m, o);
    var lines := m + [One(o)];
    var a := LinesOfSomeScan(lines);
    assert Readable(a[|lines|].text) && |a| == |lines| + 1;
    var z := LineOfSomeScan(a[|lines|].offset, a[|lines|].text);
    assert forall i | 0 <= i < |a| :: a[i].offset == (lines + [z])[i].offset && a[i].text == (lines + [z])[i].text;
    SameImages(p, g, a, lines + [z]);
    NestedImages(p, g, m, o, z);
    assert SameImage(p, g, a, q, 1, [z]);
  }

  lemma SameImages(p: string, g: nat, a: seq<LogLine>, b: seq<LogLine>)
    requires |a| == |b| && forall i | 0 <= i < |a| :: a[i].offset == b[i].offset && a[i].text == b[i].text
    ensures BatchImage(p, g, a) == BatchImage(p, g, b)
  {
    hide LinesImage;
    SameKeysSameImage(a, b);
  }

  lemma CollideBothWays(p: string, q: string)
    requires Collide(p, q)
    ensures Collide(q, p)
  {
    hide Scanned, BatchImage;
    var g: nat, h: nat, a, b :| SameImage(p, g, a, q, h, b);
    assert SameImage(q, h, b, p, g, a);
  }

  /** Two different paths can have batches with one identifier if and only if one of them reads like the start of a batch
      of the other: its path, a generation, lines a scan can read, and the offset of one more. */
  lemma PathsCollideIff(p: string, q: string)
    requires p != q
    ensures Collide(p, q) <==> Nested(p, q) || Nested(q, p)
  {
    hide Nested, Scanned, BatchImage;
    if Collide(p, q) {
      var g: nat, h: nat, a, b :| SameImage(p, g, a, q, h, b);
      if |b| <= |a| {
        CollisionIsNested(p, g, a, q, h, b);
      } else {
        CollisionIsNested(q, h, b, p, g, a);
      }
    }
    if Nested(p, q) {
      NestedCollides(p, q);
    }
    if Nested(q, p) {
      NestedCollides(q, p);
      CollideBothWays(q, p);
    }
  }

  /** Without a newline in it a path reads like the start of no batch. */
  lemma NestedHasNewline(p: string, q: string)
    requires Nested(p, q)
    ensures !OneLine(q)
  {
    hide Fits, Decimal;
    var g: nat, m, o: nat :| NestedBy(p, q, g, m, o);
    var image := BatchImage(p, g, m);
    assert image == p + "\n" + (Decimal(g) + "\n" + LinesImage(m));
    assert q[|p|] == image[|p|] == '\n';
  }

  // ----- two files

  const FIRST_FILE := "\n\n\n\n\n9\nz\n"
  const SECOND_FILE := "\n\n\n\n\n\n\nz\n"

  /** The first generation of /a and the ninth of a path with newlines in it: two contents, two scans from zero, two
      different batches, one identifier. */
  lemma NewlineInPathCollides()
    ensures var nine, z := LogLine(5, 2, "9", false), LogLine(7, 2, "z", false);
            && Batches(Lines(Pieces(FIRST_FILE, 0, 0, 0))) == [[nine, z]]
            && Batches(Lines(Pieces(SECOND_FILE, 0, 0, 0))) == [[z]]
            && BatchImage("/a", 1, [nine, z]) == BatchImage("/a\n1\n5", 9, [z])
  {
    var nine, z := LogLine(5, 2, "9", false), LogLine(7, 2, "z", false);
    FirstScan(nine, z);
    SecondScan(z);
    NineImages(nine, z);
  }

  lemma ShortText(text: string)
    requires text == "9" || text == "z"
    ensures Readable(text) && Record(text) == text + "\n"
  {
    TrimTwice(text);
    assert LeadingSpace(text) == 0;
  }

  lemma FirstScan(nine: LogLine, z: LogLine)
    requires nine == LogLine(5, 2, "9", false) && z == LogLine(7, 2, "z", false)
    ensures Batches(Lines(Pieces(FIRST_FILE, 0, 0, 0))) == [[nine, z]]
  {
    hide Pieces, Lines, Batches, Readable, Record;
    var file := FIRST_FILE;
    ShortText("9");
    ShortText("z");
    SkipNewlines(file, 0, 5, 0, 0);
    assert file[5..7] == "9" + "\n" && file[7..9] == "z" + "\n";
    var first := TakeRecord(file, 5, "9", 0, 5);
    var second := TakeRecord(file, 7, "z", 1, 7);
    PiecesAtEnd(file, 9, 2, 9);
    LinesEmpty();
    assert [first] + ([second] + []) == [first, second];
    assert [nine, z][..1] == [nine] && [nine][..0] == [];
    assert Bytes([nine]) == Bytes([]) + 2 == 2;
    OneBatch([nine, z]);
  }

  lemma SecondScan(z: LogLine)
    requires z == LogLine(7, 2, "z", false)
    ensures Batches(Lines(Pieces(SECOND_FILE, 0, 0, 0))) == [[z]]
  {
    hide Pieces, Lines, Batches, Readable, Record;
    var file := SECOND_FILE;
    ShortText("z");
    SkipNewlines(file, 0, 7, 0, 0);
    assert file[7..9] == "z" + "\n";
    var line := TakeRecord(file, 7, "z", 0, 7);
    PiecesAtEnd(file, 9, 1, 9);
    LinesEmpty();
    assert [line] + [] == [line];
    assert [z][..0] == [];
    OneBatch([z]);
  }

  lemma NineImages(nine: LogLine, z: LogLine)
    requires nine == LogLine(5, 2, "9", false)
    ensures BatchImage("/a", 1, [nine, z]) == BatchImage("/a\n1\n5", 9, [z])
  {
    assert Decimal(9) == "9" && Decimal(1) == "1" && Decimal(5) == "5";
    assert [nine, z][1..] == [z];
    assert LineImage(nine) == "5\n9\n";
    hide LineImage, LinesImage, Decimal;
    assert ImageHeader("/a\n1\n5", 9) == "/a\n1\n5\n9\n" == ImageHeader("/a", 1) + LineImage(nine);
    NineImage(nine, z);
  }

  lemma NineImage(nine: LogLine, z: LogLine)
    ensures LinesImage([nine, z]) == LineImage(nine) + LinesImage([z])
  {
    hide LineImage;
    assert [nine, z][1..] == [z];
  }
}
