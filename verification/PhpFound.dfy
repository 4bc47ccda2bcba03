/** What the scanner finds in any text, well-formed or not: the leftmost strings that do not overlap. */
module PhpFound {
  import opened Decimals
  import opened PhpStrings

  function Spelling(digits: string, text: string): string {
    "s:" + (digits + (":\"" + (text + "\"")))
  }

  /** At position i a string is spelled out: a marker, its length in digits, and the text between quotes. */
  predicate SpelledAt(v: string, i: nat, digits: string, text: string) {
    digits != "" && AllDigits(digits) && Value(digits) == |text| && At(v, i, Spelling(digits, text))
  }

  /** The parts of the spelling stand where they should. */
  predicate Parts(v: string, i: nat, digits: string, text: string) {
    var e := i + 2 + |digits|;
    && e + 2 + |text| < |v| && v[i] == 's' && v[i + 1] == ':' && v[i + 2..e] == digits && v[e] == ':'
    && v[e + 1] == '"' && v[e + 2..e + 2 + |text|] == text && v[e + 2 + |text|] == '"'
  }

  lemma SplitSpelling(v: string, i: nat, digits: string, text: string)
    requires At(v, i, Spelling(digits, text))
    ensures Parts(v, i, digits, text)
  {
    hide At;
    var e := i + 2 + |digits|;
    AtConcat(v, i, "s:", digits + (":\"" + (text + "\"")));
    AtConcat(v, i + 2, digits, ":\"" + (text + "\""));
    AtConcat(v, e, ":\"", text + "\"");
    AtConcat(v, e + 2, text, "\"");
    AtTwo(v, i, 's', ':');
    AtTwo(v, e, ':', '"');
    AtWord(v, i + 2, digits);
    AtWord(v, e + 2, text);
    AtWord(v, e + 2 + |text|, "\"");
    assert v[e + 2 + |text|..e + 2 + |text| + 1][0] == v[e + 2 + |text|];
  }

  lemma AtJoin(v: string, p: nat, a: string, b: string)
    requires At(v, p, a) && At(v, p + |a|, b)
    ensures At(v, p, a + b)
  {
    assert v[p..p + |a + b|] == v[p..p + |a|] + v[p + |a|..p + |a| + |b|];
  }

  lemma JoinSpelling(v: string, i: nat, digits: string, text: string)
    requires Parts(v, i, digits, text)
    ensures At(v, i, Spelling(digits, text))
  {
    var e := i + 2 + |digits|;
    assert At(v, e + 2, text) && At(v, i + 2, digits);
    assert At(v, e + 2 + |text|, "\"") && At(v, e, ":\"") && At(v, i, "s:");
    hide At;
    AtJoin(v, e + 2, text, "\"");
    AtJoin(v, e, ":\"", text + "\"");
    AtJoin(v, i + 2, digits, ":\"" + (text + "\""));
    AtJoin(v, i, "s:", digits + (":\"" + (text + "\"")));
  }

  lemma SpelledIsFound(v: string, i: nat, digits: string, text: string)
    requires |v| <= MAX_INT && SpelledAt(v, i, digits, text)
    ensures StringAt(v, i) && v[ContentStart(v, i)..ContentEnd(v, i)] == text
            && ContentEnd(v, i) + 1 == i + |Spelling(digits, text)|
  {
    hide AllDigits, Value, DigitsEnd;
    var e := i + 2 + |digits|;
    SplitSpelling(v, i, digits, text);
    hide At;
    assert DigitsEnd(v, i + 2) == e by { DigitsEndIs(v, i + 2, e); }
  }

  lemma FoundIsSpelled(v: string, i: nat) returns (digits: string, text: string)
    requires StringAt(v, i)
    ensures SpelledAt(v, i, digits, text)
  {
    hide AllDigits, Value, DigitsEnd;
    DigitsEndAll(v, i + 2);
    digits, text := v[i + 2..DigitsEnd(v, i + 2)], v[ContentStart(v, i)..ContentEnd(v, i)];
    JoinSpelling(v, i, digits, text);
  }

  /** No string is spelled out at positions lo to hi - 1. */
  ghost predicate NoneSpelled(v: string, lo: nat, hi: nat) {
    forall p, digits, text | lo <= p < hi :: !SpelledAt(v, p, digits, text)
  }

  /** From position i on the items are spelled out one after the other, each at the first place that spells a string. */
  ghost predicate Leftmost(v: string, i: nat, items: seq<string>)
    decreases |items|
  {
    if items == [] then NoneSpelled(v, i, |v|)
    else
      exists p: nat, digits ::
        && i <= p && NoneSpelled(v, i, p) && SpelledAt(v, p, digits, items[0])
        && Leftmost(v, p + |Spelling(digits, items[0])|, items[1..])
  }

  lemma LeftmostSkips(v: string, i: nat, items: seq<string>)
    requires Leftmost(v, i + 1, items) && NoneSpelled(v, i, i + 1)
    ensures Leftmost(v, i, items)
  {
    hide SpelledAt;
    if items != [] {
      var p: nat, digits :|
        && i + 1 <= p && NoneSpelled(v, i + 1, p) && SpelledAt(v, p, digits, items[0])
        && Leftmost(v, p + |Spelling(digits, items[0])|, items[1..]);
      assert NoneSpelled(v, i, p);
    }
  }

  lemma {:induction false} ScanIsLeftmost(v: string, i: nat)
    requires |v| <= MAX_INT && Scan(v, i).Strings?
    ensures Leftmost(v, i, Scan(v, i).items)
    decreases |v| - i
  {
    hide SpelledAt, Wraps, OpensAt, ContentStart, ContentEnd, Leftmost, Scan;
    if i >= |v| {
      ScanEnd(v, i);
      EndIsLeftmost(v, i);
    } else {
      ScanStep(v, i);
      var rest := Scan(v, Next(v, i));
      ScanIsLeftmost(v, Next(v, i));
      if StringAt(v, i) {
        var digits, text := FoundIsSpelled(v, i);
        SpelledIsFound(v, i, digits, text);
        LeftmostHere(v, i, digits, text, rest.items);
      } else {
        forall digits, text ensures !SpelledAt(v, i, digits, text) {
          if SpelledAt(v, i, digits, text) {
            SpelledIsFound(v, i, digits, text);
          }
        }
        LeftmostSkips(v, i, rest.items);
        assert [] + rest.items == rest.items;
      }
    }
  }

  lemma EndIsLeftmost(v: string, i: nat)
    requires i >= |v|
    ensures Leftmost(v, i, [])
  {
  }

  lemma LeftmostHere(v: string, i: nat, digits: string, text: string, rest: seq<string>)
    requires SpelledAt(v, i, digits, text) && Leftmost(v, i + |Spelling(digits, text)|, rest)
    ensures Leftmost(v, i, [text] + rest)
  {
    hide SpelledAt;
    var items := [text] + rest;
    assert items[1..] == rest && items[0] == text;
    assert NoneSpelled(v, i, i) && SpelledAt(v, i, digits, items[0]);
    assert Leftmost(v, i + |Spelling(digits, items[0])|, items[1..]);
  }

  /** On any text the scanner, if it does not fail, returns the leftmost strings that do not overlap, in order, each as long
      as its length says. */
  lemma FindsLeftmost(v: string)
    requires |v| <= MAX_INT && Scan(v, 0) != IndexPanic
    ensures Leftmost(v, 0, Scan(v, 0).items)
  {
    ScanIsLeftmost(v, 0);
  }

  /** The items and the first place after i tell each other: no other list is leftmost. */
  lemma {:induction false} LeftmostIsUnique(v: string, i: nat, a: seq<string>, b: seq<string>)
    requires |v| <= MAX_INT && Leftmost(v, i, a) && Leftmost(v, i, b)
    ensures a == b
    decreases |a|
  {
    hide SpelledAt;
    if a != [] && b != [] {
      var p: nat, d :| i <= p && NoneSpelled(v, i, p) && SpelledAt(v, p, d, a[0])
                       && Leftmost(v, p + |Spelling(d, a[0])|, a[1..]);
      var q: nat, e :| i <= q && NoneSpelled(v, i, q) && SpelledAt(v, q, e, b[0])
                       && Leftmost(v, q + |Spelling(e, b[0])|, b[1..]);
      SpelledIsFound(v, p, d, a[0]);
      SpelledIsFound(v, q, e, b[0]);
      assert p == q;
      LeftmostIsUnique(v, p + |Spelling(d, a[0])|, a[1..], b[1..]);
      assert a == [a[0]] + a[1..] && b == [b[0]] + b[1..];
    } else if a != [] {
      AnySpelledInside(v, i, a);
    } else if b != [] {
      AnySpelledInside(v, i, b);
    }
  }

  lemma AnySpelledInside(v: string, i: nat, items: seq<string>)
    requires Leftmost(v, i, items) && items != []
    ensures !NoneSpelled(v, i, |v|)
  {
    var p: nat, digits :| i <= p && NoneSpelled(v, i, p) && SpelledAt(v, p, digits, items[0])
                          && Leftmost(v, p + |Spelling(digits, items[0])|, items[1..]);
    assert p < |v|;
  }

  predicate IsMarker(v: string, p: nat) {
    p + 2 < |v| && v[p] == 's' && v[p + 1] == ':'
  }

  /** The marker flag says whether s: stands anywhere before the last byte. */
  lemma {:induction false} MarkerIff(v: string, i: nat)
    requires Scan(v, i).Strings?
    ensures Scan(v, i).marker <==> exists p: nat :: i <= p && IsMarker(v, p)
    decreases |v| - i
  {
    if i < |v| {
      ScanStep(v, i);
      MarkerIff(v, Next(v, i));
      hide DigitsEnd, Scan, ContentStart, ContentEnd, Value, AllDigits;
      assert MarkerAt(v, i) == IsMarker(v, i);
      assert Next(v, i) == i + 1 || IsMarker(v, i);
    } else {
      ScanEnd(v, i);
    }
  }
}
