/** The scanner that pulls the strings out of a PHP-serialized value, and the serialization it undoes. */
module PhpStrings {
  import opened Decimals

  /** The largest length Go's int holds. */
  const MAX_INT := 9_223_372_036_854_775_807

  /** IndexPanic: the length read is so large that the end of the content wraps to a negative index. */
  datatype Scanned = IndexPanic | Strings(items: seq<string>, marker: bool)

  // ----- the scanner

  function DigitsEnd(v: string, i: nat): (e: nat)
    requires i <= |v|
    ensures i <= e <= |v|
    decreases |v| - i
  {
    if i < |v| && IsDigit(v[i]) then DigitsEnd(v, i + 1) else i
  }

  lemma {:induction false} DigitsEndIs(v: string, i: nat, e: nat)
    requires i <= e <= |v| && AllDigits(v[i..e]) && (e < |v| ==> !IsDigit(v[e]))
    ensures DigitsEnd(v, i) == e
    decreases e - i
  {
    if i < e {
      assert IsDigit(v[i..e][0]);
      assert v[i + 1..e] == v[i..e][1..];
      DigitsEndIs(v, i + 1, e);
    }
  }

  lemma {:induction false} DigitsEndAll(v: string, i: nat)
    requires i <= |v|
    ensures AllDigits(v[i..DigitsEnd(v, i)])
    decreases |v| - i
  {
    var e := DigitsEnd(v, i);
    if i < |v| && IsDigit(v[i]) {
      DigitsEndAll(v, i + 1);
      assert v[i..e] == [v[i]] + v[i + 1..e];
    }
  }

  predicate MarkerAt(v: string, i: nat) {
    i + 2 < |v| && v[i] == 's' && v[i + 1] == ':'
  }

  /** A marker with a length that fits an int and an opening quote after it. */
  predicate OpensAt(v: string, i: nat) {
    MarkerAt(v, i)
    && var end := DigitsEnd(v, i + 2);
       && end != i + 2 && end + 2 < |v| && v[end] == ':' && v[end + 1] == '"'
       && Length(v, i) <= MAX_INT
  }

  function Length(v: string, i: nat): nat
    requires MarkerAt(v, i)
  {
    DigitsEndAll(v, i + 2);
    Value(v[i + 2..DigitsEnd(v, i + 2)])
  }

  function ContentStart(v: string, i: nat): (start: nat)
    requires OpensAt(v, i)
    ensures i + 2 < start < |v|
  {
    DigitsEnd(v, i + 2) + 2
  }

  function ContentEnd(v: string, i: nat): (end: nat)
    requires OpensAt(v, i)
    ensures end > i
  {
    ContentStart(v, i) + Length(v, i)
  }

  predicate Wraps(v: string, i: nat) {
    OpensAt(v, i) && ContentEnd(v, i) > MAX_INT
  }

  predicate StringAt(v: string, i: nat) {
    OpensAt(v, i) && ContentEnd(v, i) < |v| && v[ContentEnd(v, i)] == '"'
  }

  function Next(v: string, i: nat): (n: nat)
    requires i < |v|
    ensures i < n
  {
    if StringAt(v, i) then ContentEnd(v, i) + 1 else i + 1
  }

  function With(found: seq<string>, marker: bool, rest: Scanned): Scanned {
    if rest.IndexPanic? then rest else Strings(found + rest.items, marker || rest.marker)
  }

  /** parsePHPSerializedStrings from position i on */
  function Scan(v: string, i: nat): Scanned
    decreases |v| - i
  {
    if i >= |v| then Strings([], false)
    else if Wraps(v, i) then IndexPanic
    else
      With(if StringAt(v, i) then [v[ContentStart(v, i)..ContentEnd(v, i)]] else [], MarkerAt(v, i), Scan(v, Next(v, i)))
  }

  /** The loop. */
  method ParsePhpSerializedStrings(v: string) returns (result: Scanned)
    requires |v| <= MAX_INT
    ensures result == Scan(v, 0)
  {
    hide DigitsEnd, AllDigits, Value, Scan;
    var items: seq<string> := [];
    var marker := false;
    var i := 0;
    while i < |v|
      invariant Scan(v, 0) == With(items, marker, Scan(v, i))
      decreases |v| - i
    {
      ghost var before := marker;
      if v[i] != 's' || i + 2 >= |v| || v[i + 1] != ':' {
        SkipStep(v, i, items, before);
        i := i + 1;
        continue;
      }
      marker := true;
      var lengthStart := i + 2;
      var lengthEnd := FindDigitsEnd(v, lengthStart);
      if lengthEnd == lengthStart || lengthEnd + 2 >= |v| || v[lengthEnd] != ':' || v[lengthEnd + 1] != '"' {
        SkipStep(v, i, items, before);
        i := i + 1;
        continue;
      }
      DigitsEndAll(v, lengthStart);
      var length := Value(v[lengthStart..lengthEnd]);
      if length > MAX_INT {
        SkipStep(v, i, items, before);
        i := i + 1;
        continue;
      }
      var contentStart := lengthEnd + 2;
      if contentStart + length > MAX_INT {
        ScanStep(v, i);
        return IndexPanic;
      }
      var contentEnd := contentStart + length;
      if contentEnd >= |v| || v[contentEnd] != '"' {
        SkipStep(v, i, items, before);
        i := i + 1;
        continue;
      }
      ScanStep(v, i);
      WithWith(items, before, [v[contentStart..contentEnd]], true, Scan(v, contentEnd + 1));
      items := items + [v[contentStart..contentEnd]];
      i := contentEnd + 1;
    }
    ScanEnd(v, i);
    result := Strings(items, marker);
  }

  method FindDigitsEnd(v: string, start: nat) returns (end: nat)
    requires start <= |v|
    ensures end == DigitsEnd(v, start)
  {
    end := start;
    while end < |v| && '0' <= v[end] <= '9'
      invariant start <= end <= |v| && DigitsEnd(v, start) == DigitsEnd(v, end)
    {
      end := end + 1;
    }
  }

  lemma ScanStep(v: string, i: nat)
    requires i < |v|
    ensures Scan(v, i)
         == if Wraps(v, i) then IndexPanic
            else With(if StringAt(v, i) then [v[ContentStart(v, i)..ContentEnd(v, i)]] else [], MarkerAt(v, i),
                      Scan(v, Next(v, i)))
  {
  }

  lemma SkipStep(v: string, i: nat, items: seq<string>, marker: bool)
    requires i < |v| && !StringAt(v, i) && !Wraps(v, i)
    ensures With(items, marker, Scan(v, i)) == With(items, marker || MarkerAt(v, i), Scan(v, i + 1))
  {
    ScanStep(v, i);
    hide StringAt, Wraps, MarkerAt, Scan;
    WithWith(items, marker, [], MarkerAt(v, i), Scan(v, i + 1));
    assert items + [] == items;
  }

  lemma ScanEnd(v: string, i: nat)
    requires i >= |v|
    ensures Scan(v, i) == Strings([], false)
  {
  }

  lemma WithWith(a: seq<string>, m: bool, b: seq<string>, n: bool, rest: Scanned)
    ensures With(a, m, With(b, n, rest)) == With(a + b, m || n, rest)
  {
    if rest.Strings? {
      assert a + (b + rest.items) == (a + b) + rest.items;
    }
  }

  // ----- PHP's serialization

  datatype Php =
    | Text(text: string)
    | Number(n: int)
    | Bool(b: bool)
    | Null
    | Array(entries: Entries)

  datatype Key = Index(n: int) | Name(name: string)

  /** The entries of an array, in order. */
  datatype Entries = NoMore | Entry(key: Key, value: Php, rest: Entries)

  function Signed(n: int): string {
    if n >= 0 then Decimal(n) else "-" + Decimal(-n)
  }

  function SerializedText(text: string): string {
    "s:" + (Decimal(|text|) + (":\"" + (text + "\";")))
  }

  function Serialized(x: Php): string {
    match x
    case Text(text) => SerializedText(text)
    case Number(n) => "i:" + Signed(n) + ";"
    case Bool(b) => "b:" + (if b then "1" else "0") + ";"
    case Null => "N;"
    case Array(entries) => "a:" + Decimal(Count(entries)) + ":{" + SerializedEntries(entries) + "}"
  }

  function SerializedKey(key: Key): string {
    match key
    case Index(n) => "i:" + Signed(n) + ";"
    case Name(name) => SerializedText(name)
  }

  function Count(entries: Entries): nat {
    if entries.NoMore? then 0 else 1 + Count(entries.rest)
  }

  function SerializedEntries(entries: Entries): string {
    match entries
    case NoMore => ""
    case Entry(key, value, rest) => SerializedKey(key) + (Serialized(value) + SerializedEntries(rest))
  }

  /** The strings of a value, keys and values, in document order. */
  function Texts(x: Php): seq<string> {
    match x
    case Text(text) => [text]
    case Number(_) => []
    case Bool(_) => []
    case Null => []
    case Array(entries) => EntryTexts(entries)
  }

  function KeyTexts(key: Key): seq<string> {
    if key.Name? then [key.name] else []
  }

  function EntryTexts(entries: Entries): seq<string> {
    match entries
    case NoMore => []
    case Entry(key, value, rest) => KeyTexts(key) + (Texts(value) + EntryTexts(rest))
  }

  // ----- scanning a serialized value wherever it stands

  predicate At(v: string, p: nat, w: string) {
    p + |w| <= |v| && v[p..p + |w|] == w
  }

  lemma AtConcat(v: string, p: nat, a: string, b: string)
    requires At(v, p, a + b)
    ensures At(v, p, a) && At(v, p + |a|, b)
  {
    var w := v[p..p + |a + b|];
    assert v[p..p + |a|] == w[..|a|] == a;
    assert v[p + |a|..p + |a| + |b|] == w[|a|..] == b;
  }

  /** No marker can start inside w. */
  predicate Plain(w: string) {
    forall k | 0 <= k < |w| :: w[k] != 's'
  }

  lemma PlainDigits(n: nat)
    ensures Plain(Decimal(n))
  {
    hide Decimal;
    forall k | 0 <= k < |Decimal(n)| ensures Decimal(n)[k] != 's' {
      assert IsDigit(Decimal(n)[k]);
    }
  }

  lemma PlainSigned(n: int)
    ensures Plain(Signed(n))
  {
    PlainDigits(if n >= 0 then n else -n);
    hide Decimal;
  }

  /** found is what the scanner finds in w, wherever w stands. */
  ghost predicate Yields(w: string, found: seq<string>) {
    forall v, p: nat | At(v, p, w) && |v| <= MAX_INT :: Scan(v, p) == With(found, found != [], Scan(v, p + |w|))
  }

  lemma YieldsConcat(a: string, foundA: seq<string>, b: string, foundB: seq<string>)
    requires Yields(a, foundA) && Yields(b, foundB)
    ensures Yields(a + b, foundA + foundB)
  {
    hide Scan;
    forall v, p: nat | At(v, p, a + b) && |v| <= MAX_INT
      ensures Scan(v, p) == With(foundA + foundB, foundA + foundB != [], Scan(v, p + |a + b|))
    {
      AtConcat(v, p, a, b);
      assert p + |a| + |b| == p + |a + b|;
      WithWith(foundA, foundA != [], foundB, foundB != [], Scan(v, p + |a + b|));
    }
  }

  lemma {:induction false} PlainScan(v: string, p: nat, q: nat)
    requires p <= q <= |v| && forall k | p <= k < q :: v[k] != 's'
    ensures Scan(v, p) == With([], false, Scan(v, q))
    decreases q - p
  {
    hide Scan, DigitsEnd, AllDigits, Value;
    if p == q {
      WithNothing(Scan(v, q));
    } else {
      PlainScan(v, p + 1, q);
      ScanStep(v, p);
      WithWith([], false, [], false, Scan(v, q));
    }
  }

  lemma WithNothing(rest: Scanned)
    ensures With([], false, rest) == rest
  {
    if rest.Strings? {
      assert [] + rest.items == rest.items;
    }
  }

  lemma PlainYields(w: string)
    requires Plain(w)
    ensures Yields(w, [])
  {
    hide Scan;
    forall v, p: nat | At(v, p, w) && |v| <= MAX_INT ensures Scan(v, p) == With([], false, Scan(v, p + |w|)) {
      forall k | p <= k < p + |w| ensures v[k] != 's' {
        assert v[k] == v[p..p + |w|][k - p];
      }
      PlainScan(v, p, p + |w|);
    }
  }

  /** Where a string begins, given the places of its parts. */
  lemma OpensHere(v: string, p: nat, e: nat, n: nat)
    requires p + 2 < e && e + 2 < |v| && v[p] == 's' && v[p + 1] == ':' && v[e] == ':' && v[e + 1] == '"'
    requires v[p + 2..e] == Decimal(n) && n <= MAX_INT
    ensures OpensAt(v, p) && ContentStart(v, p) == e + 2 && ContentEnd(v, p) == e + 2 + n
  {
    ValueOfDecimal(n);
    hide Decimal, Value;
    DigitsEndIs(v, p + 2, e);
    hide DigitsEnd;
  }

  lemma StringFound(v: string, p: nat, c: nat, n: nat)
    requires OpensAt(v, p) && ContentStart(v, p) == c && ContentEnd(v, p) == c + n
    requires c + n + 1 < |v| <= MAX_INT && v[c + n] == '"' && v[c + n + 1] == ';'
    ensures Scan(v, p) == With([v[c..c + n]], true, Scan(v, c + n + 2))
  {
    assert MarkerAt(v, p);
    hide OpensAt, MarkerAt, ContentStart, ContentEnd, Scan;
    assert StringAt(v, p) && !Wraps(v, p);
    ScanStep(v, p);
    hide StringAt, Wraps;
    PlainScan(v, c + n + 1, c + n + 2);
    WithNothing(Scan(v, c + n + 2));
  }

  /** A string is found whole, whatever it holds. */
  lemma TextScan(v: string, p: nat, text: string)
    requires At(v, p, SerializedText(text)) && |v| <= MAX_INT
    ensures Scan(v, p) == With([text], true, Scan(v, p + |SerializedText(text)|))
  {
    hide At, Decimal, SerializedText, OpensAt, ContentStart, ContentEnd, Scan;
    var e := p + 2 + |Decimal(|text|)|;
    SplitText(v, p, text);
    OpensHere(v, p, e, |text|);
    StringFound(v, p, e + 2, |text|);
  }

  lemma SplitText(v: string, p: nat, text: string)
    requires At(v, p, SerializedText(text))
    ensures var digits := Decimal(|text|);
            var e := p + 2 + |digits|;
            && p + |SerializedText(text)| == e + 2 + |text| + 2 <= |v|
            && v[p] == 's' && v[p + 1] == ':' && v[p + 2..e] == digits && v[e] == ':' && v[e + 1] == '"'
            && v[e + 2..e + 2 + |text|] == text && v[e + 2 + |text|] == '"' && v[e + 2 + |text| + 1] == ';'
  {
    hide Decimal, At;
    var digits := Decimal(|text|);
    var e := p + 2 + |digits|;
    AtConcat(v, p, "s:", digits + (":\"" + (text + "\";")));
    AtConcat(v, p + 2, digits, ":\"" + (text + "\";"));
    AtConcat(v, e, ":\"", text + "\";");
    AtConcat(v, e + 2, text, "\";");
    AtTwo(v, p, 's', ':');
    AtTwo(v, e, ':', '"');
    AtTwo(v, e + 2 + |text|, '"', ';');
    AtWord(v, p + 2, digits);
    AtWord(v, e + 2, text);
  }

  lemma AtWord(v: string, p: nat, w: string)
    requires At(v, p, w)
    ensures p + |w| <= |v| && v[p..p + |w|] == w
  {
  }

  lemma AtTwo(v: string, p: nat, a: char, b: char)
    requires At(v, p, [a, b])
    ensures p + 2 <= |v| && v[p] == a && v[p + 1] == b
  {
    assert v[p..p + 2][0] == v[p] && v[p..p + 2][1] == v[p + 1];
  }

  lemma TextYields(text: string)
    ensures Yields(SerializedText(text), [text])
  {
    hide Scan, SerializedText;
    forall v, p: nat | At(v, p, SerializedText(text)) && |v| <= MAX_INT
      ensures Scan(v, p) == With([text], true, Scan(v, p + |SerializedText(text)|))
    {
      TextScan(v, p, text);
    }
  }

  lemma KeyYields(key: Key)
    ensures Yields(SerializedKey(key), KeyTexts(key))
  {
    hide Yields, Signed, SerializedText;
    match key
    case Index(n) =>
      PlainSigned(n);
      PlainYields("i:" + Signed(n) + ";");
    case Name(name) => TextYields(name);
  }

  lemma {:induction false} ValueYields(x: Php)
    ensures Yields(Serialized(x), Texts(x))
    decreases x
  {
    hide Yields, Signed, SerializedText, Decimal, SerializedEntries, EntryTexts;
    match x
    case Text(text) => TextYields(text);
    case Number(n) =>
      PlainSigned(n);
      PlainYields("i:" + Signed(n) + ";");
    case Bool(b) => PlainYields(Serialized(x));
    case Null => PlainYields(Serialized(x));
    case Array(entries) =>
      PlainDigits(Count(entries));
      var head := "a:" + Decimal(Count(entries)) + ":{";
      PlainYields(head);
      PlainYields("}");
      EntriesYield(entries);
      YieldsConcat(head, [], SerializedEntries(entries), EntryTexts(entries));
      YieldsConcat(head + SerializedEntries(entries), [] + EntryTexts(entries), "}", []);
      assert [] + EntryTexts(entries) + [] == EntryTexts(entries);
  }

  lemma {:induction false} EntriesYield(entries: Entries)
    ensures Yields(SerializedEntries(entries), EntryTexts(entries))
    decreases entries
  {
    hide Yields, SerializedKey, KeyTexts, Serialized, Texts;
    match entries
    case NoMore => PlainYields("");
    case Entry(key, value, rest) =>
      KeyYields(key);
      ValueYields(value);
      EntriesYield(rest);
      YieldsConcat(Serialized(value), Texts(value), SerializedEntries(rest), EntryTexts(rest));
      YieldsConcat(SerializedKey(key), KeyTexts(key), Serialized(value) + SerializedEntries(rest),
                   Texts(value) + EntryTexts(rest));
  }

  /** Scanning a serialized value gives its strings, keys and values, in document order; the marker is found exactly when
      there is one. */
  lemma RoundTrip(x: Php)
    requires |Serialized(x)| <= MAX_INT
    ensures Scan(Serialized(x), 0) == Strings(Texts(x), Texts(x) != [])
  {
    var w := Serialized(x);
    ValueYields(x);
    ScanEnd(w, |w|);
    hide Scan, Serialized, Texts;
    assert w[0..0 + |w|] == w;
    assert At(w, 0, w);
    assert Texts(x) + [] == Texts(x);
  }

  // ----- the scanner does not accept every input

  /** Position p is one the scanner looks at, starting from i. */
  predicate Visits(v: string, i: nat, p: nat)
    decreases |v| - i
  {
    i < |v| && (p == i || (!Wraps(v, i) && Visits(v, Next(v, i), p)))
  }

  /** The scan fails exactly when it comes to a length so large that its content would end past the largest int. */
  lemma {:induction false} PanicsIff(v: string, i: nat)
    ensures Scan(v, i) == IndexPanic <==> exists p :: Visits(v, i, p) && Wraps(v, p)
    decreases |v| - i
  {
    hide Wraps, Next, StringAt, MarkerAt;
    if i < |v| {
      if Wraps(v, i) {
        assert Visits(v, i, i);
      } else {
        PanicsIff(v, Next(v, i));
        if p :| Visits(v, Next(v, i), p) && Wraps(v, p) {
          assert Visits(v, i, p);
        }
      }
    }
  }

  lemma {:induction false} VisitsInside(v: string, i: nat, p: nat)
    requires Visits(v, i, p)
    ensures p < |v|
    decreases |v| - i
  {
    hide Wraps, Next;
    if p != i {
      VisitsInside(v, Next(v, i), p);
    }
  }

  /** In particular it does not fail on a value that nowhere has such a length. */
  lemma NoWrapNoPanic(v: string)
    requires forall p | 0 <= p < |v| :: !Wraps(v, p)
    ensures Scan(v, 0) != IndexPanic
  {
    PanicsIff(v, 0);
    hide Wraps, Scan, Visits;
    if p: nat :| Visits(v, 0, p) && Wraps(v, p) {
      VisitsInside(v, 0, p);
    }
  }

  /** Such an input: a string said to be as long as an int allows. */
  lemma LongestLengthPanics()
    ensures Scan("s:" + Decimal(MAX_INT) + ":\"\"", 0) == IndexPanic
  {
    var digits := Decimal(MAX_INT);
    hide Decimal;
    var v := "s:" + digits + ":\"\"";
    var e := 2 + |digits|;
    assert v[2..e] == digits;
    assert v[0] == 's' && v[1] == ':' && v[e] == ':' && v[e + 1] == '"';
    OpensHere(v, 0, e, MAX_INT);
    hide OpensAt, ContentStart, ContentEnd;
    ScanStep(v, 0);
  }
}
