/** The nested loops that build the admin request chains. */
module AdminRequestRules {
  import opened ChainIds
  import opened AdminChains

  function Reversed(values: seq<Observation>): seq<Observation> {
    if values == [] then [] else Reversed(values[1..]) + [values[0]]
  }

  lemma {:induction false} ReversedAt(values: seq<Observation>, k: nat)
    requires k < |values|
    ensures |Reversed(values)| == |values| && Reversed(values)[k] == values[|values| - 1 - k]
  {
    if |values| > 1 {
      ReversedAt(values[1..], if k < |values| - 1 then k else 0);
    }
  }

  lemma {:induction false} ReversedSnoc(values: seq<Observation>, o: Observation)
    ensures Reversed(values + [o]) == [o] + Reversed(values)
  {
    if values == [] {
      assert [] + [o] == [o];
    } else {
      assert (values + [o])[1..] == values[1..] + [o];
      ReversedSnoc(values[1..], o);
    }
  }

  /** Value k when the outer left values on each side have changed places. */
  function HalfAt(was: seq<Observation>, left: int, k: nat): Observation
    requires k < |was|
  {
    if left <= k < |was| - left then was[k] else was[|was| - 1 - k]
  }

  predicate HalfReversed(was: seq<Observation>, now: seq<Observation>, left: int) {
    |now| == |was| && forall k | 0 <= k < |was| :: now[k] == HalfAt(was, left, k)
  }

  lemma SwapStep(was: seq<Observation>, now: seq<Observation>, left: nat, right: nat)
    requires HalfReversed(was, now, left) && left < right && left + right == |was| - 1
    ensures HalfReversed(was, now[left := now[right]][right := now[left]], left + 1)
  {
    var after, more := now[left := now[right]][right := now[left]], left + 1;
    forall k | 0 <= k < |was| ensures after[k] == HalfAt(was, more, k) {
      assert now[k] == HalfAt(was, left, k);
      assert now[left] == HalfAt(was, left, left) && now[right] == HalfAt(was, left, right);
    }
  }

  /** reverseAdminObservations */
  method ReverseAdminObservations(values: array<Observation>)
    modifies values
    ensures values[..] == Reversed(old(values[..]))
  {
    hide Reversed;
    ghost var was := values[..];
    var left, right := 0, values.Length - 1;
    while left < right
      invariant 0 <= left && left + right == values.Length - 1 && left <= right + 1
      invariant HalfReversed(was, values[..], left)
    {
      hide HalfReversed;
      ghost var now := values[..];
      SwapStep(was, now, left, right);
      values[left], values[right] := values[right], values[left];
      assert values[..] == now[left := now[right]][right := now[left]];
      left, right := left + 1, right - 1;
    }
    assert was == old(values[..]);
    IsReversed(was, values[..]);
  }

  lemma IsReversed(was: seq<Observation>, now: seq<Observation>)
    requires |was| == |now| && forall k | 0 <= k < |was| :: now[k] == was[|was| - 1 - k]
    ensures now == Reversed(was)
  {
    if was != [] {
      ReversedAt(was, 0);
      forall k | 0 <= k < |was| ensures now[k] == Reversed(was)[k] {
        ReversedAt(was, k);
      }
    }
  }

  /** The failures collected backwards from a success, put into time order. */
  method FailuresBefore(rules: Rules, all: seq<Observation>, index: nat, covered: set<string>)
    returns (failures: seq<Observation>)
    requires index < |all|
    ensures failures == Preceding(rules, all, index, all[index], covered)
  {
    hide WindowOf, Rules.Failure, Rules.LoginPost, Rules.Reset;
    var o := all[index];
    var start := o.time - WINDOW;
    var found: seq<Observation> := [];
    var previous := index;
    ghost var wanted := Preceding(rules, all, index, o, covered);
    while previous > 0
      invariant previous <= index
      invariant wanted == Preceding(rules, all, previous, o, covered) + Reversed(found)
    {
      if all[previous - 1].time < start {
        break;
      }
      previous := previous - 1;
      if all[previous].key in covered || all[previous].remote != o.remote || !rules.Failure(all[previous]) {
        continue;
      }
      ReversedSnoc(found, all[previous]);
      found := found + [all[previous]];
    }
    assert Preceding(rules, all, previous, o, covered) == [];
    var values := new Observation[|found|](i requires 0 <= i < |found| => found[i]);
    assert values[..] == found;
    ReverseAdminObservations(values);
    failures := values[..];
  }

  function Shown(s: Pass): (seq<Chain>, set<string>) {
    (s.chains, s.covered)
  }

  method CoverAll(events: seq<Observation>, covered: set<string>) returns (covered': set<string>)
    ensures covered' == covered + Keys(events)
  {
    covered' := covered;
    for k := 0 to |events|
      invariant covered' == covered + Keys(events[..k])
    {
      assert events[..k + 1] == events[..k] + [events[k]];
      covered' := covered' + {events[k].key};
    }
    assert events[..|events|] == events;
  }

  /** adminSuccessAfterFailuresChains */
  method SuccessAfterFailuresChains(rules: Rules, all: seq<Observation>, covered: set<string>)
    returns (chains: seq<Chain>, covered': set<string>)
    ensures (chains, covered') == Shown(Scan(rules, SuccessAfterFailures, all, |all|, covered))
  {
    hide Preceding, WindowOf, Keys, Rules.Success;
    chains, covered' := [], covered;
    var seen: set<(string, int)> := {};
    for index := 0 to |all|
      invariant Pass(chains, covered', seen) == Scan(rules, SuccessAfterFailures, all, index, covered)
    {
      var o := all[index];
      if !o.known || !rules.Success(o) || o.key in covered' {
        continue;
      }
      var failures := FailuresBefore(rules, all, index, covered');
      if |failures| < FAILURES {
        continue;
      }
      var events := failures + [o];
      var mark := (o.remote, WindowOf(o.time));
      if mark in seen {
        continue;
      }
      seen := seen + {mark};
      covered' := CoverAll(events, covered');
      chains := chains + [Chain(SuccessAfterFailures, o.remote, WindowOf(o.time), events)];
    }
  }

  /** The group of a burst: the search also stops once the threshold is reached. */
  method BurstGroup(rules: Rules, rule: Rule, all: seq<Observation>, index: nat, covered: set<string>)
    returns (group: seq<Observation>)
    requires index < |all| && (rule == FailureBurst || rule == LoginBurst)
    ensures var found := Following(rules, rule, all, index + 1, all[index], covered);
            if |found| + 1 < Threshold(rule) then group == [all[index]] + found
            else group == [all[index]] + found[..Threshold(rule) - 1]
  {
    hide Rules.Matches;
    var o, threshold := all[index], Threshold(rule);
    var until := o.time + WINDOW;
    group := [o];
    var next := index + 1;
    ghost var wanted := [o] + Following(rules, rule, all, index + 1, o, covered);
    while next < |all|
      invariant index < next <= |all| && |group| < threshold
      invariant wanted == group + Following(rules, rule, all, next, o, covered)
    {
      if all[next].time > until {
        break;
      }
      var candidate := all[next];
      next := next + 1;
      if candidate.key in covered || candidate.remote != o.remote || !rules.Matches(rule, candidate) {
        continue;
      }
      assert wanted == group + [candidate] + Following(rules, rule, all, next, o, covered);
      group := group + [candidate];
      if |group| >= threshold {
        assert wanted[..threshold] == group;
        return;
      }
    }
    assert Following(rules, rule, all, next, o, covered) == [];
    assert wanted == group;
  }

  /** adminBurstChainsByKind */
  method BurstChains(rules: Rules, rule: Rule, all: seq<Observation>, covered: set<string>)
    returns (chains: seq<Chain>, covered': set<string>)
    requires rule == FailureBurst || rule == LoginBurst
    ensures (chains, covered') == Shown(Scan(rules, rule, all, |all|, covered))
  {
    hide Following, WindowOf, Keys, Rules.Matches;
    chains, covered' := [], covered;
    for index := 0 to |all|
      invariant Pass(chains, covered', {}) == Scan(rules, rule, all, index, covered)
    {
      var o := all[index];
      if !o.known || o.key in covered' || !rules.Matches(rule, o) {
        continue;
      }
      var group := BurstGroup(rules, rule, all, index, covered');
      if |group| < Threshold(rule) {
        continue;
      }
      covered' := CoverAll(group, covered');
      chains := chains + [Chain(rule, o.remote, WindowOf(o.time), group)];
    }
  }

  /** adminToolProbeChains */
  method ToolProbeChains(rules: Rules, all: seq<Observation>, covered: set<string>)
    returns (chains: seq<Chain>, covered': set<string>)
    ensures (chains, covered') == Shown(Scan(rules, ToolProbe, all, |all|, covered))
  {
    hide WindowOf, FailureStatus;
    chains, covered' := [], covered;
    for index := 0 to |all|
      invariant Pass(chains, covered', {}) == Scan(rules, ToolProbe, all, index, covered)
    {
      var o := all[index];
      if o.key in covered' || !rules.toolPath(o.path) || !FailureStatus(o.status) {
        continue;
      }
      assert Keys([o]) == {o.key};
      covered' := covered' + {o.key};
      chains := chains + [Chain(ToolProbe, o.remote + ":" + o.path, WindowOf(o.time), [o])];
    }
  }

  method WindowGroup(rules: Rules, rule: Rule, all: seq<Observation>, index: nat, covered: set<string>)
    returns (group: seq<Observation>)
    requires index < |all|
    ensures group == [all[index]] + Following(rules, rule, all, index + 1, all[index], covered)
  {
    hide Rules.Matches, Group;
    var o := all[index];
    var until := o.time + WINDOW;
    group := [o];
    var next := index + 1;
    ghost var wanted := [o] + Following(rules, rule, all, index + 1, o, covered);
    while next < |all|
      invariant index < next <= |all|
      invariant wanted == group + Following(rules, rule, all, next, o, covered)
    {
      if all[next].time > until {
        break;
      }
      var candidate := all[next];
      next := next + 1;
      if candidate.key in covered || !rules.Matches(rule, candidate) || Group(rule, candidate) != Group(rule, o) {
        continue;
      }
      assert wanted == group + [candidate] + Following(rules, rule, all, next, o, covered);
      group := group + [candidate];
    }
    assert Following(rules, rule, all, next, o, covered) == [];
  }

  /** adminRequestWindowChains */
  method WindowChains(rules: Rules, rule: Rule, all: seq<Observation>, covered: set<string>)
    returns (chains: seq<Chain>, covered': set<string>)
    requires rule == ResetRequest || rule == LoginRequest
    ensures (chains, covered') == Shown(Scan(rules, rule, all, |all|, covered))
  {
    hide Following, WindowOf, Keys, Rules.Matches, Group;
    chains, covered' := [], covered;
    var seen: set<(string, int)> := {};
    for index := 0 to |all|
      invariant Pass(chains, covered', seen) == Scan(rules, rule, all, index, covered)
    {
      var o := all[index];
      if o.key in covered' || !rules.Matches(rule, o) {
        continue;
      }
      var mark := (Group(rule, o), WindowOf(o.time));
      if mark in seen {
        continue;
      }
      var group := WindowGroup(rules, rule, all, index, covered');
      seen := seen + {mark};
      covered' := CoverAll(group, covered');
      chains := chains + [Chain(rule, Group(rule, o), WindowOf(o.time), group)];
    }
  }

  method OnePass(rules: Rules, rule: Rule, all: seq<Observation>, covered: set<string>)
    returns (chains: seq<Chain>, covered': set<string>)
    ensures (chains, covered') == Shown(Scan(rules, rule, all, |all|, covered))
  {
    hide Scan;
    match rule {
      case SuccessAfterFailures => chains, covered' := SuccessAfterFailuresChains(rules, all, covered);
      case FailureBurst => chains, covered' := BurstChains(rules, rule, all, covered);
      case LoginBurst => chains, covered' := BurstChains(rules, rule, all, covered);
      case ToolProbe => chains, covered' := ToolProbeChains(rules, all, covered);
      case ResetRequest => chains, covered' := WindowChains(rules, rule, all, covered);
      case LoginRequest => chains, covered' := WindowChains(rules, rule, all, covered);
    }
  }

  /** buildAdminRequestAnomalyChains on the observations */
  method BuildAdminRequestAnomalyChains(rules: Rules, all: seq<Observation>) returns (chains: seq<Chain>)
    ensures chains == AdminRequestChains(rules, all)
  {
    hide Scan, Deduped, Ids;
    var id := (c: Chain) => rules.ChainId(c);
    chains := [];
    var seen: set<Id> := {};
    var covered: set<string> := {};
    NoChains(id);
    for k := 0 to |ORDER|
      invariant covered == After(rules, all, k).1
      invariant chains == Deduped(id, After(rules, all, k).0) && seen == Ids(id, After(rules, all, k).0)
    {
      var made;
      ghost var earlier := After(rules, all, k).0;
      made, covered := OnePass(rules, ORDER[k], all, covered);
      chains, seen := AddCorrelationChains(id, earlier, chains, seen, made);
    }
  }

  lemma NoChains(id: Chain -> Id)
    ensures Deduped(id, []) == [] && Ids(id, []) == {}
  {
  }
}
