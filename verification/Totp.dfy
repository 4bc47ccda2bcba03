/** Single use of time-based one-time passwords (RFC 6238). Times are in nanoseconds since 1970. */
module Totp {
  import opened Basics

  const SECOND := 1_000_000_000
  const STEP := 30
  const RETENTION := 90_000_000_000

  datatype Key = Key(user: string, counter: int)

  /** base32 decoding, and the code of a secret at a counter */
  datatype Codes = Codes(decode: string -> Option<string>, generate: (string, int) -> string)

  datatype Attempt = Attempt(user: string, secret: string, code: string, at: int)

  /** Go's integer division truncates toward zero. */
  function Truncated(a: int, b: int): int
    requires b > 0
  {
    if a >= 0 then a / b else -((-a) / b)
  }

  /** Unix seconds round down, the division by the step does not. */
  function CounterAt(at: int): int {
    Truncated(at / SECOND, STEP)
  }

  /** The first of n counters from c on whose code it is. */
  function First(codes: Codes, bytes: string, code: string, c: int, n: nat): Option<int>
    decreases n
  {
    if n == 0 then None
    else if codes.generate(bytes, c) == code then Some(c)
    else First(codes, bytes, code, c + 1, n - 1)
  }

  /** verifyTOTPCodeCounter: the counter before, the current and the next one are tried. */
  function Match(codes: Codes, secret: string, code: string, at: int): Option<int> {
    match codes.decode(secret)
    case None => None
    case Some(bytes) => First(codes, bytes, code, CounterAt(at) - 1, 3)
  }

  function Live(store: map<Key, int>, at: int): map<Key, int> {
    map k | k in store && store[k] > at :: store[k]
  }

  /** consumeTOTPCode: whether the counter is new, and the store after. */
  function Consume(store: map<Key, int>, k: Key, at: int): (bool, map<Key, int>) {
    var live := Live(store, at);
    if k in live then (false, live) else (true, live[k := at + RETENTION])
  }

  /** verifyAndConsumeTOTPCode */
  function Verify(codes: Codes, store: map<Key, int>, a: Attempt): (bool, map<Key, int>) {
    match Match(codes, a.secret, a.code, a.at)
    case None => (false, store)
    case Some(counter) => Consume(store, Key(a.user, counter), a.at)
  }

  // ----- runs

  function After(codes: Codes, run: seq<Attempt>): map<Key, int> {
    if run == [] then map[] else Verify(codes, After(codes, run[..|run| - 1]), run[|run| - 1]).1
  }

  predicate Accepted(codes: Codes, run: seq<Attempt>, i: nat)
    requires i < |run|
  {
    Verify(codes, After(codes, run[..i]), run[i]).0
  }

  predicate AcceptedAs(codes: Codes, run: seq<Attempt>, i: nat, k: Key)
    requires i < |run|
  {
    && Accepted(codes, run, i) && run[i].user == k.user
    && Match(codes, run[i].secret, run[i].code, run[i].at) == Some(k.counter)
  }

  predicate InOrder(run: seq<Attempt>) {
    forall i, j | 0 <= i < j < |run| :: run[i].at <= run[j].at
  }

  lemma {:induction false} FirstIsNear(codes: Codes, bytes: string, code: string, c: int, n: nat)
    ensures First(codes, bytes, code, c, n).Some? ==> c <= First(codes, bytes, code, c, n).value < c + n
    decreases n
  {
    if n > 0 {
      FirstIsNear(codes, bytes, code, c + 1, n - 1);
    }
  }

  lemma MatchIsNear(codes: Codes, secret: string, code: string, at: int)
    ensures Match(codes, secret, code, at).Some? ==>
              CounterAt(at) - 1 <= Match(codes, secret, code, at).value <= CounterAt(at) + 1
  {
    hide CounterAt, First;
    if codes.decode(secret).Some? {
      FirstIsNear(codes, codes.decode(secret).value, code, CounterAt(at) - 1, 3);
    }
  }

  /** From 1970 on an attempt's counter is the first of the one before, the current and the next thirty-second step whose
      code it is. */
  lemma MatchIs(codes: Codes, a: Attempt, c: int)
    requires a.at >= 0
    ensures var now := a.at / 30_000_000_000;
            Match(codes, a.secret, a.code, a.at) == Some(c) <==>
              && codes.decode(a.secret).Some? && now - 1 <= c <= now + 1
              && codes.generate(codes.decode(a.secret).value, c) == a.code
              && forall d | now - 1 <= d < c :: codes.generate(codes.decode(a.secret).value, d) != a.code
  {
    StepsAre(a.at);
    hide CounterAt;
    if codes.decode(a.secret).Some? {
      FirstIs(codes, codes.decode(a.secret).value, a.code, CounterAt(a.at) - 1, 3, c);
    }
  }

  lemma StepsAre(at: int)
    requires at >= 0
    ensures CounterAt(at) == at / 30_000_000_000
  {
    var s, k := at / SECOND, at / SECOND / STEP;
    assert SECOND * s <= at < SECOND * (s + 1) && STEP * k <= s < STEP * (k + 1);
    assert 30_000_000_000 * k <= at < 30_000_000_000 * (k + 1);
  }

  lemma {:induction false} FirstIs(codes: Codes, bytes: string, code: string, c: int, n: nat, k: int)
    ensures First(codes, bytes, code, c, n) == Some(k) <==>
              c <= k < c + n && codes.generate(bytes, k) == code && forall d | c <= d < k :: codes.generate(bytes, d) != code
    decreases n
  {
    if n > 0 {
      FirstIs(codes, bytes, code, c + 1, n - 1, k);
    }
  }

  ghost predicate OnlyAccepted(codes: Codes, run: seq<Attempt>, store: map<Key, int>) {
    forall k | k in store :: exists i :: 0 <= i < |run| && RememberedFrom(codes, run, i, k, store[k])
  }

  ghost predicate AllRecent(codes: Codes, run: seq<Attempt>, store: map<Key, int>, at: int) {
    forall i, k | 0 <= i < |run| && AcceptedAs(codes, run, i, k) && run[i].at + RETENTION > at ::
      k in store && store[k] == run[i].at + RETENTION
  }

  /** The store holds what was accepted and has not expired: nothing else. */
  ghost predicate Remembers(codes: Codes, run: seq<Attempt>, store: map<Key, int>, at: int) {
    OnlyAccepted(codes, run, store) && AllRecent(codes, run, store, at)
  }

  lemma Origin(codes: Codes, run: seq<Attempt>, store: map<Key, int>, k: Key) returns (i: nat)
    requires OnlyAccepted(codes, run, store) && k in store
    ensures i < |run| && RememberedFrom(codes, run, i, k, store[k])
  {
    hide RememberedFrom;
    i :| 0 <= i < |run| && RememberedFrom(codes, run, i, k, store[k]);
  }

  predicate RememberedFrom(codes: Codes, run: seq<Attempt>, i: nat, k: Key, expiry: int)
    requires i < |run|
  {
    AcceptedAs(codes, run, i, k) && expiry == run[i].at + RETENTION
  }

  lemma AfterSnoc(codes: Codes, run: seq<Attempt>, a: Attempt)
    ensures After(codes, run + [a]) == Verify(codes, After(codes, run), a).1
    ensures Accepted(codes, run + [a], |run|) == Verify(codes, After(codes, run), a).0
    ensures forall i | 0 <= i < |run| :: Accepted(codes, run + [a], i) == Accepted(codes, run, i)
  {
    hide Verify;
    assert (run + [a])[..|run|] == run;
    forall i | 0 <= i < |run| ensures Accepted(codes, run + [a], i) == Accepted(codes, run, i) {
      assert (run + [a])[..i] == run[..i];
    }
  }

  lemma AcceptedAsSnoc(codes: Codes, run: seq<Attempt>, a: Attempt)
    ensures forall i, k | 0 <= i < |run| :: AcceptedAs(codes, run + [a], i, k) == AcceptedAs(codes, run, i, k)
    ensures forall k :: AcceptedAs(codes, run + [a], |run|, k)
                    <==> Verify(codes, After(codes, run), a).0 && a.user == k.user
                         && Match(codes, a.secret, a.code, a.at) == Some(k.counter)
  {
    hide Accepted, Verify, Match;
    AfterSnoc(codes, run, a);
    assert (run + [a])[|run|] == a && forall i | 0 <= i < |run| :: (run + [a])[i] == run[i];
  }

  lemma {:induction false} StoreRemembers(codes: Codes, run: seq<Attempt>, at: int)
    requires InOrder(run) && (run != [] ==> at >= run[|run| - 1].at)
    ensures Remembers(codes, run, After(codes, run), at)
  {
    if run != [] {
      var before, a := run[..|run| - 1], run[|run| - 1];
      assert run == before + [a];
      StoreRemembers(codes, before, a.at);
      RemembersSnoc(codes, before, a, at);
    }
  }

  lemma RemembersSnoc(codes: Codes, run: seq<Attempt>, a: Attempt, at: int)
    requires InOrder(run + [a]) && at >= a.at && Remembers(codes, run, After(codes, run), a.at)
    ensures Remembers(codes, run + [a], After(codes, run + [a]), at)
  {
    hide After, Match, AcceptedAs, InOrder;
    var all, store, after := run + [a], After(codes, run), After(codes, run + [a]);
    AfterSnoc(codes, run, a);
    AcceptedAsSnoc(codes, run, a);
    assert all[|run|] == a && forall i | 0 <= i < |run| :: all[i] == run[i];
    var n := |run|;
    forall k | k in after ensures exists i :: 0 <= i < |all| && RememberedFrom(codes, all, i, k, after[k]) {
      if k in store && after[k] == store[k] {
        var i :| 0 <= i < |run| && RememberedFrom(codes, run, i, k, store[k]);
        assert RememberedFrom(codes, all, i, k, after[k]);
      } else {
        assert RememberedFrom(codes, all, n, k, after[k]);
      }
    }
    forall i, k | 0 <= i < |all| && AcceptedAs(codes, all, i, k) && all[i].at + RETENTION > at
      ensures k in after && after[k] == all[i].at + RETENTION
    {
      if i < n {
        assert AcceptedAs(codes, run, i, k);
      }
    }
  }

  // ----- ninety seconds span the three steps, from 1970 on

  lemma NoReuseAfterRetention(a: int, b: int)
    requires 0 <= a && a + RETENTION <= b
    ensures CounterAt(b) - 1 > CounterAt(a) + 1
  {
    assert b / SECOND >= a / SECOND + 90;
    assert (b / SECOND) / STEP >= (a / SECOND) / STEP + 3;
  }

  /** From times not before 1970 on, no (user, counter) pair is accepted twice. */
  lemma SingleUse(codes: Codes, run: seq<Attempt>, i: nat, j: nat, k: Key)
    requires InOrder(run) && i < j < |run| && run[0].at >= 0
    requires AcceptedAs(codes, run, i, k)
    ensures !AcceptedAs(codes, run, j, k)
  {
    var before := run[..j];
    assert before[i] == run[i] && before[..i] == run[..i];
    assert AcceptedAs(codes, before, i, k);
    StoreRemembers(codes, before, run[j].at);
    hide After, CounterAt;
    assert run[i].at >= 0;
    if run[i].at + RETENTION > run[j].at {
      assert k in After(codes, before);
    } else {
      NoReuseAfterRetention(run[i].at, run[j].at);
      MatchIsNear(codes, run[i].secret, run[i].code, run[i].at);
      MatchIsNear(codes, run[j].secret, run[j].code, run[j].at);
    }
  }

  lemma RefusedWasUsed(codes: Codes, run: seq<Attempt>, j: nat, k: Key) returns (i: nat)
    requires InOrder(run) && j < |run| && !Accepted(codes, run, j)
    requires Match(codes, run[j].secret, run[j].code, run[j].at) == Some(k.counter) && k.user == run[j].user
    ensures i < j && AcceptedAs(codes, run, i, k)
  {
    var before := run[..j];
    StoreRemembers(codes, before, run[j].at);
    hide After, CounterAt, Match, First, OnlyAccepted, AllRecent;
    assert Key(k.user, k.counter) == k;
    i := Origin(codes, before, After(codes, before), k);
    assert before[i] == run[i] && before[..i] == run[..i];
  }

  /** An attempt is accepted exactly when its code is that of a counter in the window and that counter of the user was
      never accepted before. */
  lemma AcceptedIff(codes: Codes, run: seq<Attempt>, j: nat)
    requires InOrder(run) && j < |run| && run[0].at >= 0
    ensures Accepted(codes, run, j)
       <==> var m := Match(codes, run[j].secret, run[j].code, run[j].at);
            m.Some? && forall i | 0 <= i < j :: !AcceptedAs(codes, run, i, Key(run[j].user, m.value))
  {
    var m := Match(codes, run[j].secret, run[j].code, run[j].at);
    if m.Some? {
      hide After, CounterAt, Match, Verify, InOrder, Accepted;
      var k := Key(run[j].user, m.value);
      if Accepted(codes, run, j) {
        forall i | 0 <= i < j ensures !AcceptedAs(codes, run, i, k) {
          if AcceptedAs(codes, run, i, k) {
            SingleUse(codes, run, i, j, k);
          }
        }
      } else {
        var i := RefusedWasUsed(codes, run, j, k);
      }
    } else {
      NoMatchNoEntry(codes, run, j);
    }
  }

  lemma NoMatchNoEntry(codes: Codes, run: seq<Attempt>, j: nat)
    requires j < |run| && Match(codes, run[j].secret, run[j].code, run[j].at).None?
    ensures !Accepted(codes, run, j)
  {
    hide After, Match;
  }

  /** Every run from start on uses each counter once. */
  ghost predicate SingleUseFrom(start: int) {
    forall codes: Codes, run: seq<Attempt>, i: nat, j: nat, k: Key
      | InOrder(run) && i < j < |run| && run[0].at >= start && AcceptedAs(codes, run, i, k) ::
      !AcceptedAs(codes, run, j, k)
  }

  /** Single use is guaranteed exactly from 1970 on: just before, counters next to zero are good for longer than they are
      remembered. */
  lemma SingleUseIff(start: int)
    ensures SingleUseFrom(start) <==> start >= 0
  {
    if start >= 0 {
      forall codes: Codes, run: seq<Attempt>, i: nat, j: nat, k: Key
        | InOrder(run) && i < j < |run| && run[0].at >= start && AcceptedAs(codes, run, i, k)
        ensures !AcceptedAs(codes, run, j, k)
      {
        SingleUse(codes, run, i, j, k);
      }
    } else {
      var codes, run := UsedTwice();
      assert AcceptedAs(codes, run, 0, Key("u", 1)) && AcceptedAs(codes, run, 1, Key("u", 1));
    }
  }

  /** One code, a nanosecond before 1970 and ninety seconds later. */
  lemma UsedTwice() returns (codes: Codes, run: seq<Attempt>)
    ensures && |run| == 2 && run[0].at == -1 && InOrder(run)
            && AcceptedAs(codes, run, 0, Key("u", 1)) && AcceptedAs(codes, run, 1, Key("u", 1))
  {
    codes := Codes(secret => Some(secret), (secret, counter) => if counter == 1 then "1" else "");
    var first, second := Attempt("u", "s", "1", -1), Attempt("u", "s", "1", RETENTION - 1);
    run := [first, second];
    assert CounterAt(-1) == 0 && CounterAt(RETENTION - 1) == 2;
    assert run[..0] == [] && run[..1] == [first] && [first][..0] == [];
  }

  // ----- the store stays small

  lemma RecentCounters(a: int, at: int)
    requires a <= at < a + RETENTION
    ensures CounterAt(at) - 3 <= CounterAt(a) <= CounterAt(at)
  {
    assert at / SECOND - 90 <= a / SECOND <= at / SECOND;
  }

  function Counters(store: map<Key, int>, user: string): set<int> {
    set k | k in store && k.user == user :: k.counter
  }

  function Range(lo: int, n: nat): (r: set<int>)
    ensures |r| == n && forall c :: c in r <==> lo <= c < lo + n
  {
    if n == 0 then {} else Range(lo, n - 1) + {lo + n - 1}
  }

  lemma RememberedIsRecent(codes: Codes, run: seq<Attempt>, at: int, i: nat, k: Key, expiry: int)
    requires InOrder(run) && i < |run| && run[|run| - 1].at == at && RememberedFrom(codes, run, i, k, expiry) && expiry > at
    ensures CounterAt(at) - 4 <= k.counter <= CounterAt(at) + 1
  {
    hide CounterAt, Match, Accepted;
    MatchIsNear(codes, run[i].secret, run[i].code, run[i].at);
    RecentCounters(run[i].at, at);
  }

  lemma AllLive(codes: Codes, store: map<Key, int>, a: Attempt)
    requires Match(codes, a.secret, a.code, a.at).Some?
    ensures var after := Verify(codes, store, a).1; forall k | k in after :: after[k] > a.at
  {
    hide Match;
  }

  lemma LiveIsRecent(codes: Codes, run: seq<Attempt>, a: Attempt, k: Key)
    requires InOrder(run + [a]) && Match(codes, a.secret, a.code, a.at).Some? && k in After(codes, run + [a])
    ensures CounterAt(a.at) - 4 <= k.counter <= CounterAt(a.at) + 1
  {
    hide CounterAt, Match, InOrder, RememberedFrom, OnlyAccepted, AllRecent, AcceptedAs, Accepted, Verify;
    var all, after := run + [a], After(codes, run + [a]);
    assert all[|all| - 1] == a;
    StoreRemembers(codes, all, a.at);
    AfterSnoc(codes, run, a);
    AllLive(codes, After(codes, run), a);
    hide After;
    var i := Origin(codes, all, after, k);
    RememberedIsRecent(codes, all, a.at, i, k, after[k]);
  }

  /** Whatever the times, right after a counter was looked up at most six counters of a user are remembered. */
  lemma AtMostSixLive(codes: Codes, run: seq<Attempt>, a: Attempt, user: string)
    requires InOrder(run + [a]) && Match(codes, a.secret, a.code, a.at).Some?
    ensures |Counters(After(codes, run + [a]), user)| <= 6
  {
    hide After, CounterAt, Match, InOrder;
    var used, range := Counters(After(codes, run + [a]), user), Range(CounterAt(a.at) - 4, 6);
    forall c | c in used ensures c in range {
      LiveIsRecent(codes, run, a, Key(user, c));
    }
    SubsetSize(used, range);
  }

  // ----- the code

  method VerifyTotpCodeCounter(codes: Codes, secret: string, code: string, at: int) returns (found: Option<int>)
    ensures found == Match(codes, secret, code, at)
  {
    hide CounterAt;
    var decoded := codes.decode(secret);
    if decoded.None? {
      return None;
    }
    var counter := CounterAt(at);
    for offset := -1 to 2
      invariant Match(codes, secret, code, at) == First(codes, decoded.value, code, counter + offset, 2 - offset)
    {
      if codes.generate(decoded.value, counter + offset) == code {
        return Some(counter + offset);
      }
    }
    return None;
  }

  class ReplayStore {
    var used: map<Key, int>

    constructor ()
      ensures used == map[]
    {
      used := map[];
    }

    method Purge(now: int)
      modifies this
      ensures used == Live(old(used), now)
    {
      var left := used.Keys;
      while left != {}
        invariant left <= used.Keys <= old(used).Keys
        invariant forall k | k in used :: used[k] == old(used)[k] && (k in left || used[k] > now)
        invariant forall k | k in old(used) && old(used)[k] > now :: k in used
        decreases left
      {
        var k :| k in left;
        left := left - {k};
        if used[k] <= now {
          used := used - {k};
        }
      }
    }

    method ConsumeTotpCode(user: string, counter: int, at: int) returns (ok: bool)
      modifies this
      ensures (ok, used) == Consume(old(used), Key(user, counter), at)
    {
      Purge(at);
      var k := Key(user, counter);
      if k in used && used[k] > at {
        return false;
      }
      used := used[k := at + RETENTION];
      return true;
    }

    method VerifyAndConsumeTotpCode(codes: Codes, a: Attempt) returns (ok: bool)
      modifies this
      ensures (ok, used) == Verify(codes, old(used), a)
    {
      var found := VerifyTotpCodeCounter(codes, a.secret, a.code, a.at);
      if found.None? {
        return false;
      }
      ok := ConsumeTotpCode(a.user, found.value, a.at);
    }
  }
}
