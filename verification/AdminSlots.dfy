/** Chains of one pass over admin requests, and how two of them come to have the same ID.

    A chain's ID is made of its rule, the trimmed group and the ten-minute slot of the request it was made around. A pass
    over sparse requests makes no two chains around requests of one slot: the passes that mark slots see to it
    themselves, probes are made around one request each, and two bursts headed in one slot take more requests than the
    slot has. */
module AdminSlots {
  import opened Basics
  import opened ChainIds
  import opened AdminChains
  import opened AdminCoverage

  /** Two observations around which a rule would make chains of one ID. */
  predicate SlotMates(rules: Rules, rule: Rule, a: Observation, b: Observation) {
    rules.trim(Group(rule, a)) == rules.trim(Group(rule, b)) && WindowOf(a.time) == WindowOf(b.time)
  }

  /** The observations a rule matches that share the slot of observation i. */
  ghost function Crowd(rules: Rules, rule: Rule, all: seq<Observation>, i: nat): set<nat>
    requires i < |all|
  {
    set j: nat | j < |all| && rules.Matches(rule, all[j]) && SlotMates(rules, rule, all[i], all[j])
  }

  /** How many observations of one slot can give only one chain. */
  function Limit(rule: Rule): nat {
    if rule == ToolProbe then 1 else Threshold(rule)
  }

  predicate Counted(rule: Rule) {
    rule == ToolProbe || rule == FailureBurst || rule == LoginBurst
  }

  /** Trimming keeps groups apart; per group and ten-minute slot there is at most one tool probe, and there are no more
      failures and login posts than one burst takes. */
  ghost predicate Sparse(rules: Rules, all: seq<Observation>) {
    && (forall rule: Rule :: TrimApart(rules, rule, all))
    && (forall rule: Rule, i | Counted(rule) && 0 <= i < |all| :: |Crowd(rules, rule, all, i)| <= Limit(rule))
  }

  predicate TrimApart(rules: Rules, rule: Rule, all: seq<Observation>) {
    forall i, j | 0 <= i < |all| && 0 <= j < |all| && rules.trim(Group(rule, all[i])) == rules.trim(Group(rule, all[j])) ::
      Group(rule, all[i]) == Group(rule, all[j])
  }

  // ----- each chain is made around one observation

  predicate MadeAt(rules: Rules, rule: Rule, all: seq<Observation>, h: nat, c: Chain)
    requires h < |all|
  {
    c.rule == rule && c.group == Group(rule, all[h]) && c.window == WindowOf(all[h].time) && rules.Matches(rule, all[h])
  }

  lemma StepMadeAt(rules: Rules, rule: Rule, all: seq<Observation>, i: nat, s: Pass)
    requires i < |all| && Step(rules, rule, all, i, s) != s
    ensures var after := Step(rules, rule, all, i, s);
            && |after.chains| == |s.chains| + 1 && after.chains == s.chains + [after.chains[|s.chains|]]
            && MadeAt(rules, rule, all, i, after.chains[|s.chains|]) && all[i].key !in s.covered
  {
    hide Following, Preceding, WindowOf, Rules.Matches, Threshold;
  }

  /** The chains of a pass so far, with the observations they were made around. */
  ghost predicate Heads(rules: Rules, rule: Rule, all: seq<Observation>, n: nat, chains: seq<Chain>, heads: seq<nat>) {
    && n <= |all| && |heads| == |chains|
    && (forall a | 0 <= a < |chains| :: heads[a] < n && MadeAt(rules, rule, all, heads[a], chains[a]))
    && (forall a, b | 0 <= a < b < |chains| :: !SlotMates(rules, rule, all[heads[a]], all[heads[b]]))
  }

  lemma HeadsSnoc(rules: Rules, rule: Rule, all: seq<Observation>, n: nat, chains: seq<Chain>, heads: seq<nat>, c: Chain)
    requires n < |all| && Heads(rules, rule, all, n, chains, heads) && MadeAt(rules, rule, all, n, c)
    requires forall a | 0 <= a < |heads| :: heads[a] < |all| && !SlotMates(rules, rule, all[heads[a]], all[n])
    ensures Heads(rules, rule, all, n + 1, chains + [c], heads + [n])
  {
    hide MadeAt, SlotMates;
  }

  lemma HeadsGrow(rules: Rules, rule: Rule, all: seq<Observation>, n: nat, chains: seq<Chain>, heads: seq<nat>)
    requires n < |all| && Heads(rules, rule, all, n, chains, heads)
    ensures Heads(rules, rule, all, n + 1, chains, heads)
  {
    hide MadeAt, SlotMates;
  }

  lemma HeadsDiffer(rules: Rules, rule: Rule, all: seq<Observation>, n: nat, chains: seq<Chain>, heads: seq<nat>)
    requires Heads(rules, rule, all, n, chains, heads)
    ensures DistinctIds((c: Chain) => rules.ChainId(c), chains)
  {
    hide WindowOf, Rules.Matches, Group;
    var id := (c: Chain) => rules.ChainId(c);
    forall a, b | 0 <= a < b < |chains| ensures id(chains[a]) != id(chains[b]) {
      assert MadeAt(rules, rule, all, heads[a], chains[a]) && MadeAt(rules, rule, all, heads[b], chains[b]);
      assert !SlotMates(rules, rule, all[heads[a]], all[heads[b]]);
    }
  }

  // ----- passes that remember their slots

  /** Success and window passes: every slot with a chain is marked. */
  ghost predicate SlotsMarked(chains: seq<Chain>, seen: set<(string, int)>) {
    forall c | c in chains :: (c.group, c.window) in seen
  }

  predicate Marking(rule: Rule) {
    rule == SuccessAfterFailures || rule == ResetRequest || rule == LoginRequest
  }

  lemma MarkingStep(rules: Rules, rule: Rule, all: seq<Observation>, i: nat, s: Pass)
    requires i < |all| && Marking(rule) && SlotsMarked(s.chains, s.seen)
    ensures var after := Step(rules, rule, all, i, s);
            && SlotsMarked(after.chains, after.seen)
            && (after != s ==> (Group(rule, all[i]), WindowOf(all[i].time)) !in s.seen)
  {
    hide Following, Preceding, WindowOf, Rules.Matches;
  }

  lemma {:induction false} MarkingPass(rules: Rules, rule: Rule, all: seq<Observation>, n: nat, covered: set<string>)
    returns (heads: seq<nat>)
    requires n <= |all| && Marking(rule) && TrimApart(rules, rule, all)
    ensures var s := Scan(rules, rule, all, n, covered);
            Heads(rules, rule, all, n, s.chains, heads) && SlotsMarked(s.chains, s.seen)
  {
    hide Step, SlotsMarked, MadeAt, SlotMates, TrimApart;
    if n == 0 {
      heads := [];
      NoSlotsMarked();
    } else {
      var s := Scan(rules, rule, all, n - 1, covered);
      heads := MarkingPass(rules, rule, all, n - 1, covered);
      MarkingStep(rules, rule, all, n - 1, s);
      var after := Step(rules, rule, all, n - 1, s);
      HeadsGrow(rules, rule, all, n - 1, s.chains, heads);
      if after != s {
        StepMadeAt(rules, rule, all, n - 1, s);
        forall a | 0 <= a < |heads| ensures !SlotMates(rules, rule, all[heads[a]], all[n - 1]) {
          MarkedIsOther(rules, rule, all, n - 1, s, heads[a], s.chains[a]);
        }
        HeadsSnoc(rules, rule, all, n - 1, s.chains, heads, after.chains[|s.chains|]);
        heads := heads + [n - 1];
      }
    }
  }

  lemma NoSlotsMarked()
    ensures SlotsMarked([], {})
  {
  }

  lemma MarkedIsOther(rules: Rules, rule: Rule, all: seq<Observation>, i: nat, s: Pass, h: nat, c: Chain)
    requires i < |all| && h < |all| && TrimApart(rules, rule, all) && SlotsMarked(s.chains, s.seen) && c in s.chains
    requires MadeAt(rules, rule, all, h, c) && (Group(rule, all[i]), WindowOf(all[i].time)) !in s.seen
    ensures !SlotMates(rules, rule, all[h], all[i])
  {
    hide WindowOf, Rules.Matches, Group;
  }

  // ----- probes

  lemma ProbeIsOther(rules: Rules, all: seq<Observation>, i: nat, h: nat, c: Chain)
    requires h < i < |all| && MadeAt(rules, ToolProbe, all, h, c) && rules.Matches(ToolProbe, all[i])
    requires |Crowd(rules, ToolProbe, all, i)| <= 1
    ensures !SlotMates(rules, ToolProbe, all[h], all[i])
  {
    hide WindowOf, Rules.Matches, Group;
    if SlotMates(rules, ToolProbe, all[h], all[i]) {
      SubsetSize({h, i}, Crowd(rules, ToolProbe, all, i));
    }
  }

  lemma {:induction false} ProbePass(rules: Rules, all: seq<Observation>, n: nat, covered: set<string>)
    returns (heads: seq<nat>)
    requires n <= |all| && Sparse(rules, all)
    ensures Heads(rules, ToolProbe, all, n, Scan(rules, ToolProbe, all, n, covered).chains, heads)
  {
    hide Step, MadeAt, SlotMates, Crowd, Limit, TrimApart;
    if n == 0 {
      heads := [];
    } else {
      var s := Scan(rules, ToolProbe, all, n - 1, covered);
      heads := ProbePass(rules, all, n - 1, covered);
      var after := Step(rules, ToolProbe, all, n - 1, s);
      HeadsGrow(rules, ToolProbe, all, n - 1, s.chains, heads);
      if after != s {
        StepMadeAt(rules, ToolProbe, all, n - 1, s);
        MadeMatches(rules, ToolProbe, all, n - 1, after.chains[|s.chains|]);
        LimitIs();
        forall a | 0 <= a < |heads| ensures !SlotMates(rules, ToolProbe, all[heads[a]], all[n - 1]) {
          ProbeIsOther(rules, all, n - 1, heads[a], s.chains[a]);
        }
        HeadsSnoc(rules, ToolProbe, all, n - 1, s.chains, heads, after.chains[|s.chains|]);
        heads := heads + [n - 1];
      }
    }
  }

  lemma LimitIs()
    ensures Limit(ToolProbe) == 1 && Counted(ToolProbe)
  {
  }

  lemma MadeMatches(rules: Rules, rule: Rule, all: seq<Observation>, h: nat, c: Chain)
    requires h < |all| && MadeAt(rules, rule, all, h, c)
    ensures rules.Matches(rule, all[h])
  {
  }

  // ----- bursts

  /** Where the observations that Following takes stand. */
  ghost function FollowingIndices(rules: Rules, rule: Rule, all: seq<Observation>, j: nat, head: Observation,
                                  covered: set<string>): seq<nat>
    decreases |all| - j
  {
    if j >= |all| || all[j].time > head.time + WINDOW then []
    else (if Picks(rules, rule, Group(rule, head), covered, all[j]) then [j] else [])
         + FollowingIndices(rules, rule, all, j + 1, head, covered)
  }

  lemma {:induction false} IndicesSelect(rules: Rules, rule: Rule, all: seq<Observation>, j: nat, head: Observation,
                                         covered: set<string>)
    ensures var indices := FollowingIndices(rules, rule, all, j, head, covered);
            Selection(all, indices, Following(rules, rule, all, j, head, covered)) && NoneBelow(indices, j)
    decreases |all| - j
  {
    hide Picks, Group, Selection;
    if j < |all| && all[j].time <= head.time + WINDOW {
      var indices, found := FollowingIndices(rules, rule, all, j + 1, head, covered),
                            Following(rules, rule, all, j + 1, head, covered);
      IndicesSelect(rules, rule, all, j + 1, head, covered);
      if Picks(rules, rule, Group(rule, head), covered, all[j]) {
        SelectionCons(all, j, indices, found);
      } else {
        assert [] + indices == indices && [] + found == found;
      }
    } else {
      assert Selection(all, [], []) by { SelectionOfNone(all); }
    }
  }

  lemma SelectionOfNone(all: seq<Observation>)
    ensures Selection(all, [], [])
  {
  }

  lemma {:induction false} IndicesHaveAll(rules: Rules, rule: Rule, all: seq<Observation>, j: nat, head: Observation,
                                          covered: set<string>, k: nat)
    requires Sorted(all) && j <= k < |all| && all[k].time <= head.time + WINDOW
    requires Picks(rules, rule, Group(rule, head), covered, all[k])
    ensures k in FollowingIndices(rules, rule, all, j, head, covered)
    decreases |all| - j
  {
    hide Picks, Group;
    if j < k {
      IndicesHaveAll(rules, rule, all, j + 1, head, covered, k);
    }
  }

  ghost function IndexSet(indices: seq<nat>): set<nat> {
    set k | k in indices
  }

  lemma {:induction false} IndexSetSize(indices: seq<nat>)
    requires forall a, b | 0 <= a < b < |indices| :: indices[a] < indices[b]
    ensures |IndexSet(indices)| == |indices|
  {
    if indices != [] {
      var init, last := indices[..|indices| - 1], indices[|indices| - 1];
      IndexSetSize(init);
      assert indices == init + [last];
      assert IndexSet(indices) == IndexSet(init) + {last};
      assert forall a | 0 <= a < |init| :: init[a] == indices[a];
    }
  }

  /** A burst around h took the observations ks; any other that it could have taken comes after all of them. */
  ghost predicate BurstTook(rules: Rules, rule: Rule, all: seq<Observation>, covered: set<string>, h: nat, ks: set<nat>) {
    && h < |all| && |ks| == Threshold(rule)
    && (forall k | k in ks :: h <= k < |all| && rules.Matches(rule, all[k]) && Group(rule, all[k]) == Group(rule, all[h]))
    && (forall j, k | h < j < |all| && all[j].time <= all[h].time + WINDOW
                      && Picks(rules, rule, Group(rule, all[h]), covered, all[j]) && k in ks :: k < j)
  }

  lemma BurstTookGrows(rules: Rules, rule: Rule, all: seq<Observation>, covered: set<string>, more: set<string>, h: nat,
                       ks: set<nat>)
    requires covered <= more && BurstTook(rules, rule, all, covered, h, ks)
    ensures BurstTook(rules, rule, all, more, h, ks)
  {
    hide Group, Rules.Matches;
  }

  lemma PicksShrink(rules: Rules, rule: Rule, group: string, less: set<string>, covered: set<string>, o: Observation)
    requires less <= covered && Picks(rules, rule, group, covered, o)
    ensures Picks(rules, rule, group, less, o) && o.key !in covered
  {
    hide Rules.Matches, Group;
  }

  lemma BurstTakes(rules: Rules, rule: Rule, all: seq<Observation>, i: nat, s: Pass) returns (ks: set<nat>)
    requires Sorted(all) && i < |all| && (rule == FailureBurst || rule == LoginBurst)
    requires BurstStep(rules, rule, all, i, s) != s
    ensures BurstTook(rules, rule, all, BurstStep(rules, rule, all, i, s).covered, i, ks)
  {
    hide Following, FollowingIndices, Sorted, WindowOf, Group, Rules.Matches, Keys;
    var o, n := all[i], Threshold(rule) - 1;
    var found := Following(rules, rule, all, i + 1, o, s.covered);
    var indices := FollowingIndices(rules, rule, all, i + 1, o, s.covered);
    IndicesSelect(rules, rule, all, i + 1, o, s.covered);
    assert |indices| == |found| >= n;
    ks := IndexSet([i] + indices[..n]);
    BurstMembers(rules, rule, all, i, s.covered, n, ks);
    BurstOthers(rules, rule, all, i, s.covered, n, BurstStep(rules, rule, all, i, s).covered, ks);
  }

  lemma BurstMembers(rules: Rules, rule: Rule, all: seq<Observation>, i: nat, covered: set<string>, n: nat, ks: set<nat>)
    requires i < |all| && rules.Matches(rule, all[i])
    requires var indices := FollowingIndices(rules, rule, all, i + 1, all[i], covered);
             n <= |indices| && ks == IndexSet([i] + indices[..n])
    ensures |ks| == n + 1
    ensures forall k | k in ks :: i <= k < |all| && rules.Matches(rule, all[k]) && Group(rule, all[k]) == Group(rule, all[i])
  {
    hide Following, FollowingIndices, WindowOf, Group, Rules.Matches, AllPicked, NoneAfter, NoneBelow, Selection;
    var found := Following(rules, rule, all, i + 1, all[i], covered);
    var indices := FollowingIndices(rules, rule, all, i + 1, all[i], covered);
    IndicesSelect(rules, rule, all, i + 1, all[i], covered);
    FollowingPicks(rules, rule, all, i + 1, all[i], covered);
    TakenSize(all, i, indices, found, n);
    forall k | k in ks
      ensures i <= k < |all| && rules.Matches(rule, all[k]) && Group(rule, all[k]) == Group(rule, all[i])
    {
      if k != i {
        TakenIsPicked(rules, rule, all, i, indices, found, covered, n, k);
      }
    }
  }

  lemma BurstOthers(rules: Rules, rule: Rule, all: seq<Observation>, i: nat, covered: set<string>, n: nat,
                    more: set<string>, ks: set<nat>)
    requires Sorted(all) && i < |all|
    requires var indices := FollowingIndices(rules, rule, all, i + 1, all[i], covered);
             var found := Following(rules, rule, all, i + 1, all[i], covered);
             && n <= |indices| == |found| && ks == IndexSet([i] + indices[..n])
             && more == covered + Keys([all[i]] + found[..n])
    ensures forall j, k | i < j < |all| && all[j].time <= all[i].time + WINDOW
                          && Picks(rules, rule, Group(rule, all[i]), more, all[j]) && k in ks :: k < j
  {
    hide Following, FollowingIndices, WindowOf, Group, Picks, NoneBelow, Selection, Sorted, Keys;
    var found := Following(rules, rule, all, i + 1, all[i], covered);
    var indices := FollowingIndices(rules, rule, all, i + 1, all[i], covered);
    IndicesSelect(rules, rule, all, i + 1, all[i], covered);
    forall j, k | i < j < |all| && all[j].time <= all[i].time + WINDOW
                  && Picks(rules, rule, Group(rule, all[i]), more, all[j]) && k in ks
      ensures k < j
    {
      PicksShrink(rules, rule, Group(rule, all[i]), covered, more, all[j]);
      IndicesHaveAll(rules, rule, all, i + 1, all[i], covered, j);
      LateIndex(all, i, indices, found, n, more, j, k);
    }
  }

  lemma TakenIsPicked(rules: Rules, rule: Rule, all: seq<Observation>, i: nat, indices: seq<nat>, found: seq<Observation>,
                      covered: set<string>, n: nat, k: nat)
    requires i < |all| && Selection(all, indices, found) && NoneBelow(indices, i + 1) && n <= |indices|
    requires AllPicked(rules, rule, Group(rule, all[i]), covered, found) && k in indices[..n]
    ensures i <= k < |all| && rules.Matches(rule, all[k]) && Group(rule, all[k]) == Group(rule, all[i])
  {
    hide Group, Rules.Matches;
    var a :| 0 <= a < n && indices[a] == k;
    assert found[a] == all[k] && found[a] in found;
  }

  lemma TakenIsCovered(all: seq<Observation>, i: nat, indices: seq<nat>, found: seq<Observation>, n: nat,
                       covered: set<string>, b: nat)
    requires i < |all| && Selection(all, indices, found) && b < n <= |indices|
    requires Keys([all[i]] + found[..n]) <= covered
    ensures all[indices[b]].key in covered
  {
    assert found[..n][b] == all[indices[b]] && found[..n][b] in [all[i]] + found[..n];
  }

  lemma TakenSize(all: seq<Observation>, i: nat, indices: seq<nat>, found: seq<Observation>, n: nat)
    requires Selection(all, indices, found) && NoneBelow(indices, i + 1) && n <= |indices|
    ensures |IndexSet([i] + indices[..n])| == n + 1
  {
    var taken := [i] + indices[..n];
    assert forall a | 0 < a <= n :: taken[a] == indices[a - 1];
    IndexSetSize(taken);
  }

  /** An observation that is still uncovered stands behind those that were taken. */
  lemma LateIndex(all: seq<Observation>, i: nat, indices: seq<nat>, found: seq<Observation>, n: nat, covered: set<string>,
                  j: nat, k: nat)
    requires i < |all| && Selection(all, indices, found) && NoneBelow(indices, i + 1) && n <= |indices|
    requires j in indices && j < |all| && all[j].key !in covered && k in [i] + indices[..n]
    requires Keys([all[i]] + found[..n]) <= covered
    ensures k < j
  {
    var b :| 0 <= b < |indices| && indices[b] == j;
    if b < n {
      TakenIsCovered(all, i, indices, found, n, covered, b);
    } else if k != i {
      var a :| 0 <= a < n && indices[a] == k;
    }
  }

  lemma WindowBetween(a: int, b: int, c: int)
    requires a <= b <= c && WindowOf(a) == WindowOf(c)
    ensures WindowOf(b) == WindowOf(a)
  {
    assert a / WINDOW <= b / WINDOW <= c / WINDOW;
    assert a / WINDOW == c / WINDOW;
  }

  /** One more burst in the slot of an earlier one takes one more observation than the limit. */
  lemma BurstIsOther(rules: Rules, rule: Rule, all: seq<Observation>, i: nat, covered: set<string>, h: nat, ks: set<nat>)
    requires Sorted(all) && h < i < |all| && TrimApart(rules, rule, all) && BurstTook(rules, rule, all, covered, h, ks)
    requires rules.Matches(rule, all[i]) && all[i].key !in covered
    requires |Crowd(rules, rule, all, i)| <= Threshold(rule)
    ensures !SlotMates(rules, rule, all[h], all[i])
  {
    hide WindowOf, Rules.Matches, Group, Threshold;
    if SlotMates(rules, rule, all[h], all[i]) {
      assert Group(rule, all[h]) == Group(rule, all[i]);
      SameSlot(all[h].time, all[i].time);
      assert Picks(rules, rule, Group(rule, all[h]), covered, all[i]);
      forall k | k in ks ensures k in Crowd(rules, rule, all, i) && k < i {
        assert h <= k < i;
        WindowBetween(all[h].time, all[k].time, all[i].time);
      }
      assert i in Crowd(rules, rule, all, i);
      SubsetSize(ks + {i}, Crowd(rules, rule, all, i));
    }
  }

  ghost predicate Took(rules: Rules, rule: Rule, all: seq<Observation>, covered: set<string>, h: nat) {
    exists ks :: BurstTook(rules, rule, all, covered, h, ks)
  }

  ghost predicate AllTook(rules: Rules, rule: Rule, all: seq<Observation>, covered: set<string>, heads: seq<nat>) {
    forall a | 0 <= a < |heads| :: Took(rules, rule, all, covered, heads[a])
  }

  lemma AllTookSnoc(rules: Rules, rule: Rule, all: seq<Observation>, covered: set<string>, more: set<string>,
                    heads: seq<nat>, i: nat, ks: set<nat>)
    requires covered <= more && AllTook(rules, rule, all, covered, heads) && BurstTook(rules, rule, all, more, i, ks)
    ensures AllTook(rules, rule, all, more, heads + [i])
  {
    hide BurstTook;
    var longer := heads + [i];
    forall a | 0 <= a < |longer| ensures Took(rules, rule, all, more, longer[a]) {
      if a == |heads| {
        assert BurstTook(rules, rule, all, more, longer[a], ks);
      } else {
        assert Took(rules, rule, all, covered, heads[a]);
        var old' :| BurstTook(rules, rule, all, covered, heads[a], old');
        BurstTookGrows(rules, rule, all, covered, more, heads[a], old');
        assert BurstTook(rules, rule, all, more, longer[a], old');
      }
    }
  }

  lemma {:induction false} BurstPass(rules: Rules, rule: Rule, all: seq<Observation>, n: nat, covered: set<string>)
    returns (heads: seq<nat>)
    requires Sorted(all) && n <= |all| && Sparse(rules, all) && (rule == FailureBurst || rule == LoginBurst)
    ensures var s := Scan(rules, rule, all, n, covered);
            Heads(rules, rule, all, n, s.chains, heads) && AllTook(rules, rule, all, s.covered, heads)
  {
    hide BurstStep, MadeAt, SlotMates, Crowd, TrimApart, Sorted, BurstTook;
    if n == 0 {
      heads := [];
    } else {
      var s := Scan(rules, rule, all, n - 1, covered);
      heads := BurstPass(rules, rule, all, n - 1, covered);
      var after := Step(rules, rule, all, n - 1, s);
      HeadsGrow(rules, rule, all, n - 1, s.chains, heads);
      if after != s {
        ScanGrows(rules, rule, all, n - 1, covered);
        StepMadeAt(rules, rule, all, n - 1, s);
        MadeMatches(rules, rule, all, n - 1, after.chains[|s.chains|]);
        var ks := BurstTakes(rules, rule, all, n - 1, s);
        forall a | 0 <= a < |heads| ensures !SlotMates(rules, rule, all[heads[a]], all[n - 1]) {
          assert Took(rules, rule, all, s.covered, heads[a]);
          var old' :| BurstTook(rules, rule, all, s.covered, heads[a], old');
          BurstIsOther(rules, rule, all, n - 1, s.covered, heads[a], old');
        }
        HeadsSnoc(rules, rule, all, n - 1, s.chains, heads, after.chains[|s.chains|]);
        AllTookSnoc(rules, rule, all, s.covered, after.covered, heads, n - 1, ks);
        heads := heads + [n - 1];
      }
    }
  }

  lemma PassDistinct(rules: Rules, rule: Rule, all: seq<Observation>, covered: set<string>)
    requires Sorted(all) && Sparse(rules, all)
    ensures DistinctIds((c: Chain) => rules.ChainId(c), Scan(rules, rule, all, |all|, covered).chains)
  {
    hide Scan, Sorted, DistinctIds, Heads, Crowd, TrimApart;
    var chains := Scan(rules, rule, all, |all|, covered).chains;
    var heads;
    if rule == ToolProbe {
      heads := ProbePass(rules, all, |all|, covered);
    } else if rule == FailureBurst || rule == LoginBurst {
      heads := BurstPass(rules, rule, all, |all|, covered);
    } else {
      heads := MarkingPass(rules, rule, all, |all|, covered);
    }
    HeadsDiffer(rules, rule, all, |all|, chains, heads);
  }
}
