/** What each chain of the admin passes takes: a plain filter of the sorted requests, in place of the searches. */
module AdminTaken {
  import opened ChainIds
  import opened AdminChains
  import opened AdminCoverage
  import opened AdminSlots

  predicate Failing(rules: Rules, o: Observation) {
    o.status in {401, 403, 404, 429} && rules.adminPath(o.path)
  }

  predicate Resetting(rules: Rules, o: Observation) {
    o.verb in {"GET", "POST"} && rules.resetText(o.path, o.text)
  }

  predicate LoggingIn(rules: Rules, o: Observation) {
    o.verb == "POST" && rules.adminPath(o.path) && !Resetting(rules, o) && rules.loginText(o.path, o.text)
  }

  predicate LoggedIn(rules: Rules, o: Observation) {
    LoggingIn(rules, o) && 300 <= o.status <= 399
  }

  /** Requests that a rule puts beside head. */
  predicate Wanted(rules: Rules, rule: Rule, head: Observation, o: Observation) {
    match rule
    case SuccessAfterFailures => o.remote == head.remote && Failing(rules, o)
    case FailureBurst => o.remote == head.remote && Failing(rules, o)
    case LoginBurst => o.remote == head.remote && LoggingIn(rules, o)
    case ToolProbe => false
    case ResetRequest => o.remote + ":" + o.path == head.remote + ":" + head.path && o.known && Resetting(rules, o)
    case LoginRequest => o.remote + ":" + o.path == head.remote + ":" + head.path && o.known && LoggedIn(rules, o)
  }

  /** Requests that a rule makes a chain around. */
  predicate IsHead(rules: Rules, rule: Rule, o: Observation) {
    match rule
    case SuccessAfterFailures => o.known && LoggedIn(rules, o)
    case FailureBurst => o.known && Failing(rules, o)
    case LoginBurst => o.known && LoggingIn(rules, o)
    case ToolProbe => rules.toolPath(o.path) && o.status in {401, 403, 404, 429}
    case ResetRequest => o.known && Resetting(rules, o)
    case LoginRequest => o.known && LoggedIn(rules, o)
  }

  /** At most ten minutes from head, and not covered before. */
  predicate Near(rules: Rules, rule: Rule, before: set<string>, head: Observation, o: Observation) {
    && Wanted(rules, rule, head, o) && o.key !in before
    && head.time - 600_000_000_000 <= o.time <= head.time + 600_000_000_000
  }

  /** Those of all[lo..hi], in order. */
  function Beside(rules: Rules, rule: Rule, all: seq<Observation>, lo: nat, hi: nat, before: set<string>, head: Observation)
    : seq<Observation>
    requires lo <= hi <= |all|
  {
    if lo == hi then []
    else Beside(rules, rule, all, lo, hi - 1, before, head)
         + if Near(rules, rule, before, head, all[hi - 1]) then [all[hi - 1]] else []
  }

  /** The chain made around request h when the keys in before are covered. A success takes all failures before it, three or
      more; a burst the first ones after it, three failures or five login posts in all; a tool probe stands alone; reset
      requests and logins take all like them that follow. */
  predicate MadeAround(rules: Rules, all: seq<Observation>, before: set<string>, c: Chain, h: nat)
    requires h < |all|
  {
    var o := all[h];
    var earlier := Beside(rules, c.rule, all, 0, h, before, o);
    var later := Beside(rules, c.rule, all, h + 1, |all|, before, o);
    && IsHead(rules, c.rule, o) && o.key !in before && c.window == o.time / 600_000_000_000 * 600_000_000_000
    && match c.rule
       case SuccessAfterFailures => c.group == o.remote && |earlier| >= 3 && c.events == earlier + [o]
       case FailureBurst => c.group == o.remote && |later| >= 2 && c.events == [o] + later[..2]
       case LoginBurst => c.group == o.remote && |later| >= 4 && c.events == [o] + later[..4]
       case ToolProbe => c.group == o.remote + ":" + o.path && c.events == [o]
       case ResetRequest => c.group == o.remote + ":" + o.path && c.events == [o] + later
       case LoginRequest => c.group == o.remote + ":" + o.path && c.events == [o] + later
  }

  // ----- the searches are filters

  lemma PicksIs(rules: Rules, rule: Rule, covered: set<string>, head: Observation, o: Observation)
    requires rule != ToolProbe && rule != SuccessAfterFailures
    ensures Picks(rules, rule, Group(rule, head), covered, o) <==> o.key !in covered && Wanted(rules, rule, head, o)
  {
  }

  lemma {:induction false} BesideCons(rules: Rules, rule: Rule, all: seq<Observation>, lo: nat, hi: nat,
                                      before: set<string>, head: Observation)
    requires lo < hi <= |all|
    ensures Beside(rules, rule, all, lo, hi, before, head)
         == (if Near(rules, rule, before, head, all[lo]) then [all[lo]] else [])
            + Beside(rules, rule, all, lo + 1, hi, before, head)
  {
    hide Near;
    if lo + 1 < hi {
      BesideCons(rules, rule, all, lo, hi - 1, before, head);
    } else {
      assert Beside(rules, rule, all, lo, lo, before, head) == [];
    }
  }

  lemma {:induction false} NoneBeside(rules: Rules, rule: Rule, all: seq<Observation>, lo: nat, hi: nat,
                                      before: set<string>, head: Observation)
    requires lo <= hi <= |all| && forall k | lo <= k < hi :: !Near(rules, rule, before, head, all[k])
    ensures Beside(rules, rule, all, lo, hi, before, head) == []
  {
    hide Near;
    if lo < hi {
      NoneBeside(rules, rule, all, lo, hi - 1, before, head);
    }
  }

  lemma {:induction false} FollowingIsFilter(rules: Rules, rule: Rule, all: seq<Observation>, j: nat, head: Observation,
                                             covered: set<string>)
    requires Sorted(all) && j <= |all| && (j < |all| ==> head.time <= all[j].time)
    requires rule != ToolProbe && rule != SuccessAfterFailures
    ensures Following(rules, rule, all, j, head, covered) == Beside(rules, rule, all, j, |all|, covered, head)
    decreases |all| - j
  {
    hide Wanted, Picks, Group;
    if j == |all| {
    } else if all[j].time > head.time + WINDOW {
      NoneBeside(rules, rule, all, j, |all|, covered, head);
    } else {
      FollowingIsFilter(rules, rule, all, j + 1, head, covered);
      BesideCons(rules, rule, all, j, |all|, covered, head);
      PicksIs(rules, rule, covered, head, all[j]);
    }
  }

  lemma {:induction false} PrecedingIsFilter(rules: Rules, all: seq<Observation>, j: nat, last: Observation,
                                             covered: set<string>)
    requires Sorted(all) && j <= |all| && (j > 0 ==> all[j - 1].time <= last.time)
    ensures Preceding(rules, all, j, last, covered)
         == Beside(rules, SuccessAfterFailures, all, 0, j, covered, last)
  {
    hide Failing;
    if j > 0 {
      if all[j - 1].time < last.time - WINDOW {
        NoneBeside(rules, SuccessAfterFailures, all, 0, j, covered, last);
      } else {
        PrecedingIsFilter(rules, all, j - 1, last, covered);
        FailingIs(rules, all[j - 1]);
      }
    }
  }

  lemma FailingIs(rules: Rules, o: Observation)
    ensures rules.Matches(FailureBurst, o) <==> Failing(rules, o)
  {
  }

  lemma HeadIs(rules: Rules, rule: Rule, o: Observation)
    ensures IsHead(rules, rule, o)
       <==> rules.Matches(rule, o) && (rule == FailureBurst || rule == LoginBurst ==> o.known)
  {
  }

  lemma SlotIs(time: int)
    ensures WindowOf(time) == time / 600_000_000_000 * 600_000_000_000
  {
  }

  /** A step that makes a chain makes it so. */
  lemma StepTakes(rules: Rules, rule: Rule, all: seq<Observation>, i: nat, s: Pass)
    requires Sorted(all) && i < |all| && Step(rules, rule, all, i, s) != s
    ensures var after := Step(rules, rule, all, i, s);
            && |after.chains| == |s.chains| + 1 && after.chains == s.chains + [after.chains[|s.chains|]]
            && after.chains[|s.chains|].rule == rule
            && MadeAround(rules, all, s.covered, after.chains[|s.chains|], i)
  {
    var o := all[i];
    HeadIs(rules, rule, o);
    SlotIs(o.time);
    if rule == SuccessAfterFailures {
      PrecedingIsFilter(rules, all, i, o, s.covered);
    } else if rule != ToolProbe {
      FollowingIsFilter(rules, rule, all, i + 1, o, s.covered);
    }
    hide Following, Preceding, Beside, WindowOf, IsHead, Rules.Matches, Sorted;
  }

  // ----- all passes

  /** Every chain is made around some request when the keys of the chains before it are covered. */
  ghost predicate AllMade(rules: Rules, all: seq<Observation>, base: set<string>, chains: seq<Chain>) {
    forall k | 0 <= k < |chains| :: MadeAfter(rules, all, base + AllKeys(chains[..k]), chains[k])
  }

  ghost predicate MadeAfter(rules: Rules, all: seq<Observation>, before: set<string>, c: Chain) {
    exists h: nat :: h < |all| && MadeAround(rules, all, before, c, h)
  }

  lemma AllMadeSnoc(rules: Rules, all: seq<Observation>, base: set<string>, chains: seq<Chain>, c: Chain)
    requires AllMade(rules, all, base, chains) && MadeAfter(rules, all, base + AllKeys(chains), c)
    ensures AllMade(rules, all, base, chains + [c])
  {
    hide MadeAfter, AllKeys;
    var more := chains + [c];
    forall k | 0 <= k < |more| ensures MadeAfter(rules, all, base + AllKeys(more[..k]), more[k]) {
      assert more[..k] == chains[..k];
      if k == |chains| {
        assert chains[..k] == chains;
      }
    }
  }

  lemma {:induction false} PassTakes(rules: Rules, rule: Rule, all: seq<Observation>, n: nat, covered: set<string>)
    requires Sorted(all) && n <= |all|
    ensures AllMade(rules, all, covered, Scan(rules, rule, all, n, covered).chains)
  {
    hide Step, AllMade, MadeAround, Sorted, AllKeys, Accounted, WellMade;
    if n == 0 {
      NothingMade(rules, all, covered);
    } else {
      var s := Scan(rules, rule, all, n - 1, covered);
      PassTakes(rules, rule, all, n - 1, covered);
      PassAccounts(rules, rule, all, n - 1, covered);
      if Step(rules, rule, all, n - 1, s) != s {
        StepTakes(rules, rule, all, n - 1, s);
        CoveredIs(covered, s);
        AllMadeSnoc(rules, all, covered, s.chains, Step(rules, rule, all, n - 1, s).chains[|s.chains|]);
      }
    }
  }

  lemma CoveredIs(base: set<string>, s: Pass)
    requires Accounted(base, s.chains, s.covered)
    ensures s.covered == base + AllKeys(s.chains)
  {
  }

  lemma NothingMade(rules: Rules, all: seq<Observation>, base: set<string>)
    ensures AllMade(rules, all, base, [])
  {
  }

  lemma AllMadeConcat(rules: Rules, all: seq<Observation>, a: seq<Chain>, b: seq<Chain>)
    requires AllMade(rules, all, {}, a) && AllMade(rules, all, AllKeys(a), b)
    ensures AllMade(rules, all, {}, a + b)
  {
    hide MadeAfter, AllKeys;
    var both := a + b;
    forall k | 0 <= k < |both| ensures MadeAfter(rules, all, {} + AllKeys(both[..k]), both[k]) {
      if k < |a| {
        assert both[..k] == a[..k];
      } else {
        ConcatPrefix(a, b, k);
        AllKeysConcat(a, b[..k - |a|]);
      }
    }
  }

  lemma ConcatPrefix(a: seq<Chain>, b: seq<Chain>, k: nat)
    requires |a| <= k < |a + b|
    ensures (a + b)[..k] == a + b[..k - |a|] && (a + b)[k] == b[k - |a|]
    ensures {} + AllKeys(a + b[..k - |a|]) == AllKeys(a + b[..k - |a|])
  {
  }

  /** The order of the passes. */
  function Rank(rule: Rule): nat {
    match rule
    case SuccessAfterFailures => 0
    case FailureBurst => 1
    case LoginBurst => 2
    case ToolProbe => 3
    case ResetRequest => 4
    case LoginRequest => 5
  }

  predicate InRank(chains: seq<Chain>) {
    forall i, j | 0 <= i < j < |chains| :: Rank(chains[i].rule) <= Rank(chains[j].rule)
  }

  /** Successes after failures, reset requests and logins have one chain per group and ten-minute slot. */
  predicate OncePerSlot(chains: seq<Chain>) {
    forall i, j | 0 <= i < j < |chains| && chains[i].rule == chains[j].rule
                  && chains[i].rule in {SuccessAfterFailures, ResetRequest, LoginRequest} ::
      chains[i].group != chains[j].group || chains[i].window != chains[j].window
  }

  lemma OnceSnoc(rule: Rule, chains: seq<Chain>, c: Chain, seen: set<(string, int)>)
    requires OncePerSlot(chains) && OfRule(rule, chains) && c.rule == rule
    requires Marking(rule) ==> SlotsMarked(chains, seen) && (c.group, c.window) !in seen
    ensures OncePerSlot(chains + [c])
  {
    if Marking(rule) {
      forall i | 0 <= i < |chains| ensures (chains[i].group, chains[i].window) != (c.group, c.window) {
        assert chains[i] in chains;
      }
    }
  }

  lemma {:induction false} SlotsOnce(rules: Rules, rule: Rule, all: seq<Observation>, n: nat, covered: set<string>)
    requires n <= |all|
    ensures var s := Scan(rules, rule, all, n, covered);
            OncePerSlot(s.chains) && (Marking(rule) ==> SlotsMarked(s.chains, s.seen))
  {
    hide Step, OncePerSlot, SlotsMarked, WellMade, Accounted;
    if n == 0 {
      assert OncePerSlot([]) by { NoSlotTwice(); }
      NoSlotsMarked();
    } else {
      var s, after := Scan(rules, rule, all, n - 1, covered), Scan(rules, rule, all, n, covered);
      SlotsOnce(rules, rule, all, n - 1, covered);
      PassAccounts(rules, rule, all, n - 1, covered);
      if Marking(rule) {
        MarkingStep(rules, rule, all, n - 1, s);
      }
      if after != s {
        StepMadeAt(rules, rule, all, n - 1, s);
        MadeAtIs(rules, rule, all, n - 1, after.chains[|s.chains|]);
        OnceSnoc(rule, s.chains, after.chains[|s.chains|], s.seen);
      }
    }
  }

  lemma NoSlotTwice()
    ensures OncePerSlot([])
  {
  }

  lemma MadeAtIs(rules: Rules, rule: Rule, all: seq<Observation>, h: nat, c: Chain)
    requires h < |all| && MadeAt(rules, rule, all, h, c)
    ensures c.rule == rule && c.group == Group(rule, all[h]) && c.window == WindowOf(all[h].time)
  {
  }

  lemma {:induction false} PassesTake(rules: Rules, all: seq<Observation>, k: nat)
    requires Sorted(all) && k <= |ORDER|
    ensures var chains := After(rules, all, k).0;
            && AllMade(rules, all, {}, chains) && InRank(chains) && OncePerSlot(chains)
            && forall c | c in chains :: Rank(c.rule) < k
  {
    hide Scan, AllMade, Sorted, AllKeys, WellMade;
    if k == 0 {
      NothingMade(rules, all, {});
    } else {
      var (chains, covered) := After(rules, all, k - 1);
      var rule := ORDER[k - 1];
      PassesTake(rules, all, k - 1);
      PassesAccount(rules, all, k - 1);
      PassTakes(rules, rule, all, |all|, covered);
      PassAccounts(rules, rule, all, |all|, covered);
      CoveredIs({}, Pass(chains, covered, {}));
      assert covered == AllKeys(chains);
      SlotsOnce(rules, rule, all, |all|, covered);
      AllMadeConcat(rules, all, chains, Scan(rules, rule, all, |all|, covered).chains);
      assert Rank(rule) == k - 1;
    }
  }

  /** On sorted requests the chains made, rule after rule, are each what is left for it by the chains before it. */
  lemma ChainsTakeWhatIsLeft(rules: Rules, all: seq<Observation>)
    requires Sorted(all)
    ensures var made := After(rules, all, |ORDER|).0;
            && InRank(made) && OncePerSlot(made) && AllMade(rules, all, {}, made)
            && AdminRequestChains(rules, all) == Deduped((c: Chain) => rules.ChainId(c), made)
  {
    PassesTake(rules, all, |ORDER|);
  }
}
