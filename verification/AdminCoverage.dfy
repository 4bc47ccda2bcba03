/** What holds after the passes over admin requests: every request is attributed once, and what stays unattributed is
    below the rules' thresholds. */
module AdminCoverage {
  import opened Basics
  import opened ChainIds
  import opened AdminChains

  // ----- attributed once

  ghost predicate WellMade(rules: Rules, all: seq<Observation>, chains: seq<Chain>) {
    forall i | 0 <= i < |chains| :: Shaped(rules, chains[i]) && InOrder(all, chains[i].events)
  }

  ghost predicate OfRule(rule: Rule, chains: seq<Chain>) {
    forall i | 0 <= i < |chains| :: chains[i].rule == rule
  }

  lemma ScanStep(rules: Rules, rule: Rule, all: seq<Observation>, n: nat, covered: set<string>)
    requires n < |all|
    ensures Scan(rules, rule, all, n + 1, covered) == Step(rules, rule, all, n, Scan(rules, rule, all, n, covered))
  {
  }

  /** One pass: newly covered keys are the union of its chains' keys, no key is in two chains or was covered before. */
  lemma {:induction false} PassAccounts(rules: Rules, rule: Rule, all: seq<Observation>, n: nat, covered: set<string>)
    requires n <= |all|
    ensures var s := Scan(rules, rule, all, n, covered);
            Accounted(covered, s.chains, s.covered) && WellMade(rules, all, s.chains) && OfRule(rule, s.chains)
  {
    hide Step, Accounted, WellMade, Shaped, InOrder, Keys;
    if n == 0 {
      EmptyAccounts(rules, all, covered);
    } else {
      var s := Scan(rules, rule, all, n - 1, covered);
      var after := Step(rules, rule, all, n - 1, s);
      PassAccounts(rules, rule, all, n - 1, covered);
      EveryStepOk(rules, rule, all, n - 1, s);
      if after != s {
        var c :| Emitted(rules, rule, all, s, c, after);
        AccountedSnoc(covered, s.chains, s.covered, c);
        WellMadeSnoc(rules, all, s.chains, c);
      }
    }
  }

  lemma EmptyAccounts(rules: Rules, all: seq<Observation>, covered: set<string>)
    ensures Accounted(covered, [], covered) && WellMade(rules, all, [])
  {
  }

  lemma WellMadeSnoc(rules: Rules, all: seq<Observation>, chains: seq<Chain>, c: Chain)
    requires WellMade(rules, all, chains) && Shaped(rules, c) && InOrder(all, c.events)
    ensures WellMade(rules, all, chains + [c])
  {
    hide Shaped, InOrder;
  }

  lemma {:induction false} AllKeysConcat(a: seq<Chain>, b: seq<Chain>)
    ensures AllKeys(a + b) == AllKeys(a) + AllKeys(b)
  {
    hide Keys;
    if b == [] {
      assert a + b == a;
    } else {
      var init, last := b[..|b| - 1], b[|b| - 1];
      assert a + b == (a + init) + [last] && b == init + [last];
      AllKeysConcat(a, init);
      AllKeysSnoc(a + init, last);
      AllKeysSnoc(init, last);
    }
  }

  lemma AccountedConcat(before: set<string>, a: seq<Chain>, middle: set<string>, b: seq<Chain>, covered: set<string>)
    requires Accounted(before, a, middle) && Accounted(middle, b, covered)
    ensures Accounted(before, a + b, covered)
  {
    hide Keys, AllKeys;
    AllKeysConcat(a, b);
    forall i, j | 0 <= i < j < |a + b| ensures Keys((a + b)[i].events) !! Keys((a + b)[j].events) {
      if i < |a| <= j {
        AllKeysHold(a, i);
        AllKeysHold(b, j - |a|);
      }
    }
  }

  lemma WellMadeConcat(rules: Rules, all: seq<Observation>, a: seq<Chain>, b: seq<Chain>)
    requires WellMade(rules, all, a) && WellMade(rules, all, b)
    ensures WellMade(rules, all, a + b)
  {
    hide Shaped, InOrder;
  }

  lemma AfterStep(rules: Rules, all: seq<Observation>, k: nat)
    requires k < |ORDER|
    ensures var (chains, covered) := After(rules, all, k);
            var pass := Scan(rules, ORDER[k], all, |all|, covered);
            After(rules, all, k + 1) == (chains + pass.chains, pass.covered)
  {
  }

  /** All passes: each covered key is in exactly one chain, and all chains are of the shapes their rules promise. */
  lemma {:induction false} PassesAccount(rules: Rules, all: seq<Observation>, k: nat)
    requires k <= |ORDER|
    ensures var (chains, covered) := After(rules, all, k);
            Accounted({}, chains, covered) && WellMade(rules, all, chains)
  {
    hide Scan, Accounted, WellMade, ORDER;
    if k == 0 {
      EmptyAccounts(rules, all, {});
    } else {
      PassesAccount(rules, all, k - 1);
      var (chains, covered) := After(rules, all, k - 1);
      var pass := Scan(rules, ORDER[k - 1], all, |all|, covered);
      PassAccounts(rules, ORDER[k - 1], all, |all|, covered);
      AfterStep(rules, all, k - 1);
      AccountedConcat({}, chains, covered, pass.chains, pass.covered);
      WellMadeConcat(rules, all, chains, pass.chains);
    }
  }

  ghost predicate UniqueKeys(all: seq<Observation>) {
    forall i, j | 0 <= i < j < |all| :: all[i].key != all[j].key
  }

  predicate Sorted(all: seq<Observation>) {
    forall i, j | 0 <= i < j < |all| :: all[i].time <= all[j].time
  }

  predicate NoRepeats(events: seq<Observation>) {
    forall a, b | 0 <= a < b < |events| :: events[a].key != events[b].key
  }

  predicate InTime(c: Chain) {
    && Sorted(c.events)
    && (c.events != [] ==> c.events[|c.events| - 1].time - c.events[0].time <= WINDOW)
  }

  lemma OrderMatters(all: seq<Observation>, events: seq<Observation>)
    requires InOrder(all, events)
    ensures UniqueKeys(all) ==> NoRepeats(events)
    ensures Sorted(all) ==> Sorted(events)
  {
  }

  lemma ShapedInTime(rules: Rules, all: seq<Observation>, c: Chain)
    requires Sorted(all) && Shaped(rules, c) && InOrder(all, c.events)
    ensures InTime(c)
  {
    OrderMatters(all, c.events);
    hide WindowOf, Group, InOrder;
    assert Sorted(c.events);
  }

  /** The chains returned: IDs differ, no request is in two chains or twice in one, each chain has the shape of its rule,
      and on time-sorted requests it is sorted and spans at most the window. */
  lemma DisjointAttribution(rules: Rules, all: seq<Observation>)
    ensures var output := AdminRequestChains(rules, all);
            && DistinctIds(c => rules.ChainId(c), output) && Disjoint(output) && WellMade(rules, all, output)
            && (UniqueKeys(all) ==> forall i | 0 <= i < |output| :: NoRepeats(output[i].events))
            && (Sorted(all) ==> forall i | 0 <= i < |output| :: InTime(output[i]))
  {
    var id := c => rules.ChainId(c);
    var made := After(rules, all, |ORDER|).0;
    var output := AdminRequestChains(rules, all);
    PassesAccount(rules, all, |ORDER|);
    DedupedIds(id, made);
    var indices := DedupedKeepsFirsts(id, made);
    hide After, Deduped, Shaped, Keys, AllKeys, UniqueKeys, NoRepeats, Sorted, InTime, DistinctIds, InOrder;
    assert output == Deduped(id, made);
    forall i | 0 <= i < |output| ensures Shaped(rules, output[i]) && InOrder(all, output[i].events) {
      assert output[i] == made[indices[i]];
    }
    forall i | 0 <= i < |output|
      ensures UniqueKeys(all) ==> NoRepeats(output[i].events)
      ensures Sorted(all) ==> InTime(output[i])
    {
      OrderMatters(all, output[i].events);
      if Sorted(all) {
        ShapedInTime(rules, all, output[i]);
      }
    }
  }

  // ----- what is left over

  /** The observations at or after j, no later than the window allows, that head's chain could take. */
  ghost function Ahead(rules: Rules, rule: Rule, all: seq<Observation>, j: nat, head: Observation, covered: set<string>)
    : set<nat>
  {
    set k: nat | j <= k < |all| && all[k].time <= head.time + WINDOW && Picks(rules, rule, Group(rule, head), covered, all[k])
  }

  /** The failures before j, no earlier than the window allows, that last's chain could take. */
  ghost function Behind(rules: Rules, all: seq<Observation>, j: nat, last: Observation, covered: set<string>): set<nat>
    requires j <= |all|
  {
    set k: nat | k < j && all[k].time >= last.time - WINDOW && Picks(rules, FailureBurst, last.remote, covered, all[k])
  }

  lemma AheadStep(rules: Rules, rule: Rule, all: seq<Observation>, j: nat, head: Observation, covered: set<string>)
    requires Sorted(all)
    ensures j >= |all| || all[j].time > head.time + WINDOW ==> Ahead(rules, rule, all, j, head, covered) == {}
    ensures j < |all| && all[j].time <= head.time + WINDOW ==>
              && j !in Ahead(rules, rule, all, j + 1, head, covered)
              && Ahead(rules, rule, all, j, head, covered)
              == Ahead(rules, rule, all, j + 1, head, covered)
                 + if Picks(rules, rule, Group(rule, head), covered, all[j]) then {j} else {}
  {
    hide Picks, Group;
  }

  lemma BehindStep(rules: Rules, all: seq<Observation>, j: nat, last: Observation, covered: set<string>)
    requires Sorted(all) && j < |all|
    ensures all[j].time < last.time - WINDOW ==> Behind(rules, all, j + 1, last, covered) == {}
    ensures all[j].time >= last.time - WINDOW ==>
              && j !in Behind(rules, all, j, last, covered)
              && Behind(rules, all, j + 1, last, covered)
              == Behind(rules, all, j, last, covered)
                 + if Picks(rules, FailureBurst, last.remote, covered, all[j]) then {j} else {}
  {
    hide Picks;
  }

  /** On sorted input stopping at the first late observation misses nothing. */
  lemma {:induction false} FollowingCounts(rules: Rules, rule: Rule, all: seq<Observation>, j: nat, head: Observation,
                                           covered: set<string>)
    requires Sorted(all)
    ensures |Following(rules, rule, all, j, head, covered)| == |Ahead(rules, rule, all, j, head, covered)|
    decreases |all| - j
  {
    hide Picks, Group, Sorted, Ahead;
    AheadStep(rules, rule, all, j, head, covered);
    if j < |all| && all[j].time <= head.time + WINDOW {
      FollowingCounts(rules, rule, all, j + 1, head, covered);
    }
  }

  lemma {:induction false} PrecedingCounts(rules: Rules, all: seq<Observation>, j: nat, last: Observation,
                                           covered: set<string>)
    requires Sorted(all) && j <= |all|
    ensures |Preceding(rules, all, j, last, covered)| == |Behind(rules, all, j, last, covered)|
  {
    hide Picks, Sorted;
    if j > 0 {
      BehindStep(rules, all, j - 1, last, covered);
      hide Behind;
      if all[j - 1].time >= last.time - WINDOW {
        PrecedingCounts(rules, all, j - 1, last, covered);
      }
    }
  }

  /** Observation i is covered, or too few uncovered observations like it follow it within the window. */
  ghost predicate BurstFine(rules: Rules, rule: Rule, all: seq<Observation>, i: nat, covered: set<string>)
    requires i < |all|
  {
    all[i].known && all[i].key !in covered && rules.Matches(rule, all[i])
    ==> |Ahead(rules, rule, all, i, all[i], covered)| < Threshold(rule)
  }

  ghost predicate NoBurstLeft(rules: Rules, rule: Rule, all: seq<Observation>, n: nat, covered: set<string>)
    requires n <= |all|
  {
    forall i | 0 <= i < n :: BurstFine(rules, rule, all, i, covered)
  }

  lemma NoBurstLeftGrows(rules: Rules, rule: Rule, all: seq<Observation>, n: nat, covered: set<string>, more: set<string>)
    requires n <= |all| && covered <= more && NoBurstLeft(rules, rule, all, n, covered)
    ensures NoBurstLeft(rules, rule, all, n, more)
  {
    hide Group;
    forall i | 0 <= i < n ensures BurstFine(rules, rule, all, i, more) {
      assert BurstFine(rules, rule, all, i, covered);
      SubsetSize(Ahead(rules, rule, all, i, all[i], more), Ahead(rules, rule, all, i, all[i], covered));
    }
  }

  lemma BurstStepFine(rules: Rules, rule: Rule, all: seq<Observation>, i: nat, s: Pass)
    requires Sorted(all) && i < |all| && (rule == FailureBurst || rule == LoginBurst)
    ensures BurstFine(rules, rule, all, i, Step(rules, rule, all, i, s).covered)
  {
    hide Group, Following, Sorted, WindowOf, Threshold, Rules.Matches;
    var o, after := all[i], Step(rules, rule, all, i, s);
    var next := Following(rules, rule, all, i + 1, o, s.covered);
    if o.known && o.key !in s.covered && rules.Matches(rule, o) {
      if |next| + 1 < Threshold(rule) {
        FollowingCounts(rules, rule, all, i + 1, o, s.covered);
        var rest := Ahead(rules, rule, all, i + 1, o, s.covered);
        assert Ahead(rules, rule, all, i, o, s.covered) == rest + {i};
      } else {
        assert o in after.chains[|s.chains|].events;
      }
    }
  }

  lemma ScanGrows(rules: Rules, rule: Rule, all: seq<Observation>, n: nat, covered: set<string>)
    requires n < |all|
    ensures Scan(rules, rule, all, n, covered).covered <= Scan(rules, rule, all, n + 1, covered).covered
  {
    hide Step;
    var s := Scan(rules, rule, all, n, covered);
    EveryStepOk(rules, rule, all, n, s);
    var after := Step(rules, rule, all, n, s);
    if after != s {
      var c :| Emitted(rules, rule, all, s, c, after);
    }
  }

  /** A burst pass leaves no burst: every uncovered observation of a known remote that matches has fewer than the
      threshold of uncovered matching observations of that remote, itself included, in the ten minutes from it on. */
  lemma {:induction false} BurstPassMissesNone(rules: Rules, rule: Rule, all: seq<Observation>, n: nat,
                                               covered: set<string>)
    requires Sorted(all) && n <= |all| && (rule == FailureBurst || rule == LoginBurst)
    ensures NoBurstLeft(rules, rule, all, n, Scan(rules, rule, all, n, covered).covered)
  {
    hide Step, BurstFine, Sorted;
    if n > 0 {
      var s, after := Scan(rules, rule, all, n - 1, covered), Scan(rules, rule, all, n, covered);
      BurstPassMissesNone(rules, rule, all, n - 1, covered);
      ScanGrows(rules, rule, all, n - 1, covered);
      NoBurstLeftGrows(rules, rule, all, n - 1, s.covered, after.covered);
      BurstStepFine(rules, rule, all, n - 1, s);
    }
  }

  /** Success i is covered, has too few uncovered failures before it, or shares its ten-minute slot with a chain. */
  ghost predicate SuccessFine(rules: Rules, all: seq<Observation>, i: nat, covered: set<string>, marks: set<(string, int)>)
    requires i < |all|
  {
    rules.Matches(SuccessAfterFailures, all[i]) && all[i].key !in covered
    ==> || |Behind(rules, all, i, all[i], covered)| < FAILURES
        || (all[i].remote, WindowOf(all[i].time)) in marks
  }

  ghost predicate NoSuccessLeft(rules: Rules, all: seq<Observation>, n: nat, covered: set<string>, marks: set<(string, int)>)
    requires n <= |all|
  {
    forall i | 0 <= i < n :: SuccessFine(rules, all, i, covered, marks)
  }

  lemma NoSuccessLeftGrows(rules: Rules, all: seq<Observation>, n: nat, covered: set<string>, marks: set<(string, int)>,
                           more: set<string>, moreMarks: set<(string, int)>)
    requires n <= |all| && covered <= more && marks <= moreMarks && NoSuccessLeft(rules, all, n, covered, marks)
    ensures NoSuccessLeft(rules, all, n, more, moreMarks)
  {
    hide WindowOf;
    forall i | 0 <= i < n ensures SuccessFine(rules, all, i, more, moreMarks) {
      assert SuccessFine(rules, all, i, covered, marks);
      SubsetSize(Behind(rules, all, i, all[i], more), Behind(rules, all, i, all[i], covered));
    }
  }

  ghost predicate Marked(chains: seq<Chain>, seen: set<(string, int)>) {
    forall m | m in seen :: exists i :: 0 <= i < |chains| && (chains[i].group, chains[i].window) == m
  }

  lemma SuccessStepFine(rules: Rules, all: seq<Observation>, i: nat, s: Pass)
    requires Sorted(all) && i < |all| && Marked(s.chains, s.seen)
    ensures var after := SuccessStep(rules, all, i, s);
            && SuccessFine(rules, all, i, after.covered, after.seen) && Marked(after.chains, after.seen)
            && s.covered <= after.covered && s.seen <= after.seen
  {
    hide Preceding, Sorted, WindowOf, Rules.Matches;
    PrecedingCounts(rules, all, i, all[i], s.covered);
    var after := SuccessStep(rules, all, i, s);
    if after != s {
      assert all[i] in after.chains[|s.chains|].events;
      assert forall k | 0 <= k < |s.chains| :: after.chains[k] == s.chains[k];
    }
  }

  /** The success pass leaves a success that follows three uncovered failures only where another success of the same
      remote in the same ten-minute slot already has a chain. */
  lemma {:induction false} SuccessPassMissesNone(rules: Rules, all: seq<Observation>, n: nat, covered: set<string>)
    requires Sorted(all) && n <= |all|
    ensures var s := Scan(rules, SuccessAfterFailures, all, n, covered);
            NoSuccessLeft(rules, all, n, s.covered, s.seen) && Marked(s.chains, s.seen)
  {
    hide SuccessStep, SuccessFine, Sorted, Marked;
    if n == 0 {
      NothingMarked();
    } else {
      var s := Scan(rules, SuccessAfterFailures, all, n - 1, covered);
      var after := SuccessStep(rules, all, n - 1, s);
      SuccessPassMissesNone(rules, all, n - 1, covered);
      SuccessStepFine(rules, all, n - 1, s);
      NoSuccessLeftGrows(rules, all, n - 1, s.covered, s.seen, after.covered, after.seen);
    }
  }

  lemma NothingMarked()
    ensures Marked([], {})
  {
  }

  // ----- the last three passes leave nothing

  ghost predicate AllCovered(rules: Rules, rule: Rule, all: seq<Observation>, n: nat, covered: set<string>)
    requires n <= |all|
  {
    forall i | 0 <= i < n && rules.Matches(rule, all[i]) :: all[i].key in covered
  }

  /** What is marked as seen has been covered to the end of its ten-minute slot. */
  ghost predicate SlotsCovered(rules: Rules, rule: Rule, all: seq<Observation>, s: Pass, n: nat) {
    forall i | n <= i < |all| && rules.Matches(rule, all[i]) && (Group(rule, all[i]), WindowOf(all[i].time)) in s.seen ::
      all[i].key in s.covered
  }

  lemma {:induction false} FollowingTakes(rules: Rules, rule: Rule, all: seq<Observation>, j: nat, head: Observation,
                                          covered: set<string>, k: nat)
    requires Sorted(all) && j <= k < |all| && all[k].time <= head.time + WINDOW
    requires Picks(rules, rule, Group(rule, head), covered, all[k])
    ensures all[k] in Following(rules, rule, all, j, head, covered)
    decreases |all| - j
  {
    hide Picks, Group;
    if j < k {
      FollowingTakes(rules, rule, all, j + 1, head, covered, k);
    }
  }

  lemma SameSlot(a: int, b: int)
    requires WindowOf(a) == WindowOf(b)
    ensures b <= a + WINDOW
  {
  }

  lemma WindowStepCovers(rules: Rules, rule: Rule, all: seq<Observation>, i: nat, s: Pass)
    requires Sorted(all) && i < |all| && SlotsCovered(rules, rule, all, s, i)
    requires rule == ResetRequest || rule == LoginRequest
    ensures var after := WindowStep(rules, rule, all, i, s);
            && (rules.Matches(rule, all[i]) ==> all[i].key in after.covered) && s.covered <= after.covered
            && SlotsCovered(rules, rule, all, after, i + 1)
  {
    hide Following, Group, Sorted, Rules.Matches, WindowOf;
    var o, after := all[i], WindowStep(rules, rule, all, i, s);
    if after != s {
      var found := Following(rules, rule, all, i + 1, o, s.covered);
      var events := [o] + found;
      assert o in events;
      assert after.covered == s.covered + Keys(events);
      var i' := i + 1;
      forall k | i' <= k < |all| && rules.Matches(rule, all[k])
                 && (Group(rule, all[k]), WindowOf(all[k].time)) in after.seen
        ensures all[k].key in after.covered
      {
        if (Group(rule, all[k]), WindowOf(all[k].time)) !in s.seen && all[k].key !in s.covered {
          SameSlot(o.time, all[k].time);
          FollowingTakes(rules, rule, all, i', o, s.covered, k);
          assert all[k] in events;
        }
      }
    }
  }

  /** A window pass covers every observation it matches: its own rule against repeats never leaves one behind. */
  lemma {:induction false} WindowPassCoversAll(rules: Rules, rule: Rule, all: seq<Observation>, n: nat,
                                               covered: set<string>)
    requires Sorted(all) && n <= |all| && (rule == ResetRequest || rule == LoginRequest)
    ensures var s := Scan(rules, rule, all, n, covered);
            AllCovered(rules, rule, all, n, s.covered) && SlotsCovered(rules, rule, all, s, n)
  {
    hide WindowStep, Sorted, SlotsCovered, Rules.Matches;
    if n == 0 {
      NoSlots(rules, rule, all, covered);
    } else {
      var s := Scan(rules, rule, all, n - 1, covered);
      WindowPassCoversAll(rules, rule, all, n - 1, covered);
      WindowStepCovers(rules, rule, all, n - 1, s);
    }
  }

  lemma NoSlots(rules: Rules, rule: Rule, all: seq<Observation>, covered: set<string>)
    ensures SlotsCovered(rules, rule, all, Pass([], covered, {}), 0)
  {
  }

  lemma {:induction false} ProbePassCoversAll(rules: Rules, all: seq<Observation>, n: nat, covered: set<string>)
    requires n <= |all|
    ensures AllCovered(rules, ToolProbe, all, n, Scan(rules, ToolProbe, all, n, covered).covered)
  {
    hide WindowOf, Group;
    if n > 0 {
      ProbePassCoversAll(rules, all, n - 1, covered);
      var s, o := Scan(rules, ToolProbe, all, n - 1, covered), all[n - 1];
      ProbeStepCovers(rules, all, n - 1, s);
      hide ProbeStep, Rules.Matches;
    }
  }

  lemma ProbeStepCovers(rules: Rules, all: seq<Observation>, i: nat, s: Pass)
    requires i < |all|
    ensures var after := ProbeStep(rules, all, i, s);
            s.covered <= after.covered && (rules.Matches(ToolProbe, all[i]) ==> all[i].key in after.covered)
  {
    hide WindowOf, Group, Rules.Matches;
    assert all[i] in [all[i]];
  }

  // ----- after all passes

  lemma AllCoveredGrows(rules: Rules, rule: Rule, all: seq<Observation>, covered: set<string>, more: set<string>)
    requires covered <= more && AllCovered(rules, rule, all, |all|, covered)
    ensures AllCovered(rules, rule, all, |all|, more)
  {
    hide Rules.Matches;
  }

  lemma PassGrows(rules: Rules, all: seq<Observation>, k: nat)
    requires k < |ORDER|
    ensures After(rules, all, k).1 <= After(rules, all, k + 1).1
    ensures After(rules, all, k + 1).1 == Scan(rules, ORDER[k], all, |all|, After(rules, all, k).1).covered
  {
    AfterStep(rules, all, k);
    PassAccounts(rules, ORDER[k], all, |all|, After(rules, all, k).1);
    hide After, Scan, AllKeys, WellMade, OfRule;
  }

  /** At the end no burst is left uncovered, and every tool probe, password reset request and admin login of a known
      remote is covered. */
  lemma NothingLeftOver(rules: Rules, all: seq<Observation>)
    requires Sorted(all)
    ensures var covered := After(rules, all, |ORDER|).1;
            && NoBurstLeft(rules, FailureBurst, all, |all|, covered)
            && NoBurstLeft(rules, LoginBurst, all, |all|, covered)
            && AllCovered(rules, ToolProbe, all, |all|, covered)
            && AllCovered(rules, ResetRequest, all, |all|, covered)
            && AllCovered(rules, LoginRequest, all, |all|, covered)
            && AllCovered(rules, SuccessAfterFailures, all, |all|, covered)
  {
    hide After, Scan, NoBurstLeft, Sorted, SlotsCovered;
    var n := |all|;
    assert |ORDER| == 6 && ORDER[1] == FailureBurst && ORDER[2] == LoginBurst && ORDER[3] == ToolProbe
           && ORDER[4] == ResetRequest && ORDER[5] == LoginRequest;
    PassGrows(rules, all, 1);
    PassGrows(rules, all, 2);
    PassGrows(rules, all, 3);
    PassGrows(rules, all, 4);
    PassGrows(rules, all, 5);
    BurstPassMissesNone(rules, FailureBurst, all, n, After(rules, all, 1).1);
    BurstPassMissesNone(rules, LoginBurst, all, n, After(rules, all, 2).1);
    ProbePassCoversAll(rules, all, n, After(rules, all, 3).1);
    WindowPassCoversAll(rules, ResetRequest, all, n, After(rules, all, 4).1);
    WindowPassCoversAll(rules, LoginRequest, all, n, After(rules, all, 5).1);
    var covered := After(rules, all, 6).1;
    NoBurstLeftGrows(rules, FailureBurst, all, n, After(rules, all, 2).1, covered);
    NoBurstLeftGrows(rules, LoginBurst, all, n, After(rules, all, 3).1, covered);
    AllCoveredGrows(rules, ToolProbe, all, After(rules, all, 4).1, covered);
    AllCoveredGrows(rules, ResetRequest, all, After(rules, all, 5).1, covered);
    SuccessesAreLogins(rules, all, covered);
  }

  lemma SuccessesAreLogins(rules: Rules, all: seq<Observation>, covered: set<string>)
    requires AllCovered(rules, LoginRequest, all, |all|, covered)
    ensures AllCovered(rules, SuccessAfterFailures, all, |all|, covered)
  {
    hide Rules.Success;
    forall i | 0 <= i < |all| && rules.Matches(SuccessAfterFailures, all[i]) ensures all[i].key in covered {
      assert rules.Matches(LoginRequest, all[i]);
    }
  }

  // ----- covered is not yet shown

  lemma {:induction false} AllKeysIn(chains: seq<Chain>, key: string)
    requires key in AllKeys(chains)
    ensures exists i :: 0 <= i < |chains| && key in Keys(chains[i].events)
  {
    hide Keys;
    var init := chains[..|chains| - 1];
    if key !in Keys(chains[|chains| - 1].events) {
      AllKeysIn(init, key);
      var i :| 0 <= i < |init| && key in Keys(init[i].events);
      assert key in Keys(chains[i].events);
    }
  }

  lemma {:induction false} DistinctStay<T, I>(id: T -> I, chains: seq<T>)
    requires DistinctIds(id, chains)
    ensures Deduped(id, chains) == chains
  {
    if chains != [] {
      var before, last := chains[..|chains| - 1], chains[|chains| - 1];
      assert forall i | 0 <= i < |before| :: before[i] == chains[i];
      DistinctStay(id, before);
      assert id(last) !in Ids(id, before);
      assert chains == before + [last];
    }
  }

  /** The output shows every covered request exactly when no two chains made share an ID. */
  lemma AllShownIff(rules: Rules, all: seq<Observation>)
    ensures var (made, covered) := After(rules, all, |ORDER|);
            AllKeys(AdminRequestChains(rules, all)) == covered <==> DistinctIds((c: Chain) => rules.ChainId(c), made)
  {
    var id := (c: Chain) => rules.ChainId(c);
    var (made, covered) := After(rules, all, |ORDER|);
    PassesAccount(rules, all, |ORDER|);
    hide After;
    if DistinctIds(id, made) {
      DistinctStay(id, made);
    } else {
      var j, k :| 0 <= j < k < |made| && id(made[j]) == id(made[k]);
      HiddenChain(rules, all, made, covered, k);
    }
  }

  /** A chain that is not the first with its ID takes its requests out of the output. */
  lemma HiddenChain(rules: Rules, all: seq<Observation>, made: seq<Chain>, covered: set<string>, k: nat)
    requires Accounted({}, made, covered) && WellMade(rules, all, made) && k < |made|
    requires !FirstWithItsId((c: Chain) => rules.ChainId(c), made, k)
    ensures Keys(made[k].events) <= covered && Keys(made[k].events) != {}
    ensures Keys(made[k].events) !! AllKeys(Deduped((c: Chain) => rules.ChainId(c), made))
  {
    var id := (c: Chain) => rules.ChainId(c);
    var output := Deduped(id, made);
    var indices := DedupedKeepsFirsts(id, made);
    AllKeysHold(made, k);
    assert made[k].events[0].key in Keys(made[k].events);
    hide Deduped, Keys, AllKeys, FirstWithItsId, Shaped;
    forall key | key in AllKeys(output) ensures key !in Keys(made[k].events) {
      AllKeysIn(output, key);
      var i :| 0 <= i < |output| && key in Keys(output[i].events);
      assert output[i] == made[indices[i]] && indices[i] != k;
      assert Disjoint(made);
      if indices[i] < k {
        assert Keys(made[indices[i]].events) !! Keys(made[k].events);
      } else {
        assert Keys(made[k].events) !! Keys(made[indices[i]].events);
      }
    }
  }

  lemma {:induction false} QuietPass(rules: Rules, rule: Rule, all: seq<Observation>, n: nat, covered: set<string>)
    requires n <= |all| && forall i | 0 <= i < |all| :: !rules.Matches(rule, all[i])
    ensures Scan(rules, rule, all, n, covered) == Pass([], covered, {})
  {
    hide Rules.Matches, Following, Preceding, WindowOf, Group;
    if n > 0 {
      QuietPass(rules, rule, all, n - 1, covered);
    }
  }

  const PROBE_A := Observation("a", 0, "r", true, "GET", "/pma", "", 404)
  const PROBE_B := Observation("b", 1, "r", true, "GET", "/pma", "", 404)

  /** Two probes of one path by one remote make two chains with one ID: the second is covered and never shown. */
  lemma RepeatedProbeIsHidden(rules: Rules)
    requires rules.adminPath("/pma") && rules.toolPath("/pma") && !rules.resetText("/pma", "")
    ensures var (made, covered) := After(rules, [PROBE_A, PROBE_B], |ORDER|);
            covered == {"a", "b"} && "b" !in AllKeys(AdminRequestChains(rules, [PROBE_A, PROBE_B]))
  {
    var all := [PROBE_A, PROBE_B];
    ProbesPass(rules, all);
    PassesAccount(rules, all, |ORDER|);
    var (made, covered) := After(rules, all, |ORDER|);
    var one, two := Chain(ToolProbe, "r:/pma", 0, [PROBE_A]), Chain(ToolProbe, "r:/pma", 0, [PROBE_B]);
    assert made == [one, two];
    hide After, Deduped, AllKeys, WellMade;
    var id := (c: Chain) => rules.ChainId(c);
    assert id(made[0]) == id(made[1]);
    assert !FirstWithItsId(id, made, 1);
    HiddenChain(rules, all, made, covered, 1);
    assert Keys(made[1].events) == {"b"};
  }

  lemma ProbesPass(rules: Rules, all: seq<Observation>)
    requires rules.adminPath("/pma") && rules.toolPath("/pma") && !rules.resetText("/pma", "")
    requires all == [PROBE_A, PROBE_B]
    ensures After(rules, all, |ORDER|)
         == ([Chain(ToolProbe, "r:/pma", 0, [PROBE_A]), Chain(ToolProbe, "r:/pma", 0, [PROBE_B])], {"a", "b"})
  {
    QuietPass(rules, SuccessAfterFailures, all, 2, {});
    QuietPass(rules, LoginBurst, all, 2, {});
    QuietPass(rules, ResetRequest, all, 2, {"a", "b"});
    QuietPass(rules, LoginRequest, all, 2, {"a", "b"});
    FewFailures(rules, all, 2, {});
    TwoProbes(rules, all);
    var made := [Chain(ToolProbe, "r:/pma", 0, [PROBE_A]), Chain(ToolProbe, "r:/pma", 0, [PROBE_B])];
    AfterPass(rules, all, 0, [], {}, Pass([], {}, {}));
    AfterPass(rules, all, 1, [], {}, Pass([], {}, {}));
    AfterPass(rules, all, 2, [], {}, Pass([], {}, {}));
    AfterPass(rules, all, 3, [], {}, Pass(made, {"a", "b"}, {}));
    AfterPass(rules, all, 4, made, {"a", "b"}, Pass([], {"a", "b"}, {}));
    AfterPass(rules, all, 5, made, {"a", "b"}, Pass([], {"a", "b"}, {}));
    hide After, Scan;
  }

  lemma AfterPass(rules: Rules, all: seq<Observation>, k: nat, chains: seq<Chain>, covered: set<string>, pass: Pass)
    requires k < |ORDER| && After(rules, all, k) == (chains, covered)
    requires Scan(rules, ORDER[k], all, |all|, covered) == pass
    ensures After(rules, all, k + 1) == (chains + pass.chains, pass.covered)
    ensures chains == [] ==> chains + pass.chains == pass.chains
    ensures pass.chains == [] ==> chains + pass.chains == chains
  {
    hide Scan;
  }

  lemma {:induction false} FewFailures(rules: Rules, all: seq<Observation>, n: nat, covered: set<string>)
    requires |all| < FAILURES && n <= |all|
    ensures Scan(rules, FailureBurst, all, n, covered) == Pass([], covered, {})
  {
    hide Rules.Matches, WindowOf, Following;
    if n > 0 {
      FewFailures(rules, all, n - 1, covered);
      FewFollow(rules, all, n, all[n - 1], covered);
    }
  }

  lemma {:induction false} FewFollow(rules: Rules, all: seq<Observation>, j: nat, head: Observation, covered: set<string>)
    requires j <= |all|
    ensures |Following(rules, FailureBurst, all, j, head, covered)| <= |all| - j
    decreases |all| - j
  {
    hide Rules.Matches, WindowOf;
    if j < |all| {
      FewFollow(rules, all, j + 1, head, covered);
    }
  }

  lemma TwoProbes(rules: Rules, all: seq<Observation>)
    requires rules.toolPath("/pma") && all == [PROBE_A, PROBE_B]
    ensures Scan(rules, ToolProbe, all, 2, {})
         == Pass([Chain(ToolProbe, "r:/pma", 0, [PROBE_A]), Chain(ToolProbe, "r:/pma", 0, [PROBE_B])], {"a", "b"}, {})
  {
    ScanStep(rules, ToolProbe, all, 0, {});
    ScanStep(rules, ToolProbe, all, 1, {});
    assert Scan(rules, ToolProbe, all, 0, {}) == Pass([], {}, {});
    hide Scan;
    assert "r" + ":" + "/pma" == "r:/pma";
    assert Keys([PROBE_A]) == {"a"} && Keys([PROBE_B]) == {"b"};
  }
}
