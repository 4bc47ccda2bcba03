/** The passes over admin requests: which requests each one attributes, and what is left over. Times are in nanoseconds
    since the zero time. */
module AdminChains {
  import opened ChainIds

  const WINDOW := 600_000_000_000
  const FAILURES := 3
  const LOGINS := 5

  datatype Observation = Observation(key: string, time: int, remote: string, known: bool, verb: string, path: string,
                                     text: string, status: int)

  datatype Rule = SuccessAfterFailures | FailureBurst | LoginBurst | ToolProbe | ResetRequest | LoginRequest

  datatype Chain = Chain(rule: Rule, group: string, window: int, events: seq<Observation>)

  datatype Id = Id(rule: Rule, group: string, window: int)

  /** The string classifiers, and the trimming of an ID's group. */
  datatype Rules = Rules(adminPath: string -> bool, toolPath: string -> bool, loginText: (string, string) -> bool,
                         resetText: (string, string) -> bool, trim: string -> string)
  {
    predicate Failure(o: Observation) {
      FailureStatus(o.status) && adminPath(o.path)
    }

    predicate Reset(o: Observation) {
      (o.verb == "GET" || o.verb == "POST") && resetText(o.path, o.text)
    }

    predicate LoginPost(o: Observation) {
      o.verb == "POST" && adminPath(o.path) && !Reset(o) && loginText(o.path, o.text)
    }

    predicate Success(o: Observation) {
      LoginPost(o) && 300 <= o.status < 400
    }

    /** Which observations a rule's chains are made around. */
    predicate Matches(rule: Rule, o: Observation) {
      match rule
      case SuccessAfterFailures => o.known && Success(o)
      case FailureBurst => Failure(o)
      case LoginBurst => LoginPost(o)
      case ToolProbe => toolPath(o.path) && FailureStatus(o.status)
      case ResetRequest => o.known && Reset(o)
      case LoginRequest => o.known && Success(o)
    }

    function ChainId(c: Chain): Id {
      Id(c.rule, trim(c.group), c.window)
    }
  }

  predicate FailureStatus(status: int) {
    status == 401 || status == 403 || status == 404 || status == 429
  }

  function Group(rule: Rule, o: Observation): string {
    if rule == SuccessAfterFailures || rule == FailureBurst || rule == LoginBurst then o.remote else o.remote + ":" + o.path
  }

  function WindowOf(time: int): int {
    time - time % WINDOW
  }

  function Keys(events: seq<Observation>): set<string> {
    set o | o in events :: o.key
  }

  // ----- one pass

  /** covered is shared by all passes; seen by one. */
  datatype Pass = Pass(chains: seq<Chain>, covered: set<string>, seen: set<(string, int)>)

  predicate Picks(rules: Rules, rule: Rule, group: string, covered: set<string>, o: Observation) {
    o.key !in covered && Group(rule, o) == group && rules.Matches(rule, o)
  }

  /** The observations from j on that a chain headed by head may take; the search stops at the first one too late. */
  function Following(rules: Rules, rule: Rule, all: seq<Observation>, j: nat, head: Observation, covered: set<string>)
    : seq<Observation>
    decreases |all| - j
  {
    if j >= |all| || all[j].time > head.time + WINDOW then []
    else (if Picks(rules, rule, Group(rule, head), covered, all[j]) then [all[j]] else [])
         + Following(rules, rule, all, j + 1, head, covered)
  }

  /** The failures before j, in time order, that a success may take; the search stops at the first one too early. */
  function Preceding(rules: Rules, all: seq<Observation>, j: nat, last: Observation, covered: set<string>)
    : seq<Observation>
    requires j <= |all|
  {
    if j == 0 || all[j - 1].time < last.time - WINDOW then []
    else Preceding(rules, all, j - 1, last, covered)
         + if Picks(rules, FailureBurst, last.remote, covered, all[j - 1]) then [all[j - 1]] else []
  }

  function Emit(s: Pass, c: Chain, mark: set<(string, int)>): Pass {
    Pass(s.chains + [c], s.covered + Keys(c.events), s.seen + mark)
  }

  function Threshold(rule: Rule): nat {
    if rule == LoginBurst then LOGINS else FAILURES
  }

  function SuccessStep(rules: Rules, all: seq<Observation>, i: nat, s: Pass): Pass
    requires i < |all|
  {
    var o := all[i];
    var mark := (o.remote, WindowOf(o.time));
    var failures := Preceding(rules, all, i, o, s.covered);
    if !rules.Matches(SuccessAfterFailures, o) || o.key in s.covered || |failures| < FAILURES || mark in s.seen then s
    else Emit(s, Chain(SuccessAfterFailures, o.remote, WindowOf(o.time), failures + [o]), {mark})
  }

  function BurstStep(rules: Rules, rule: Rule, all: seq<Observation>, i: nat, s: Pass): Pass
    requires i < |all|
  {
    var o := all[i];
    var next := Following(rules, rule, all, i + 1, o, s.covered);
    if !o.known || o.key in s.covered || !rules.Matches(rule, o) || |next| + 1 < Threshold(rule) then s
    else Emit(s, Chain(rule, Group(rule, o), WindowOf(o.time), [o] + next[..Threshold(rule) - 1]), {})
  }

  function ProbeStep(rules: Rules, all: seq<Observation>, i: nat, s: Pass): Pass
    requires i < |all|
  {
    var o := all[i];
    if o.key in s.covered || !rules.Matches(ToolProbe, o) then s
    else Emit(s, Chain(ToolProbe, Group(ToolProbe, o), WindowOf(o.time), [o]), {})
  }

  function WindowStep(rules: Rules, rule: Rule, all: seq<Observation>, i: nat, s: Pass): Pass
    requires i < |all|
  {
    var o := all[i];
    var mark := (Group(rule, o), WindowOf(o.time));
    if o.key in s.covered || !rules.Matches(rule, o) || mark in s.seen then s
    else Emit(s, Chain(rule, Group(rule, o), WindowOf(o.time), [o] + Following(rules, rule, all, i + 1, o, s.covered)),
              {mark})
  }

  function Step(rules: Rules, rule: Rule, all: seq<Observation>, i: nat, s: Pass): Pass
    requires i < |all|
  {
    match rule
    case SuccessAfterFailures => SuccessStep(rules, all, i, s)
    case FailureBurst => BurstStep(rules, rule, all, i, s)
    case LoginBurst => BurstStep(rules, rule, all, i, s)
    case ToolProbe => ProbeStep(rules, all, i, s)
    case ResetRequest => WindowStep(rules, rule, all, i, s)
    case LoginRequest => WindowStep(rules, rule, all, i, s)
  }

  /** A pass up to its n-th observation. */
  function Scan(rules: Rules, rule: Rule, all: seq<Observation>, n: nat, covered: set<string>): Pass
    requires n <= |all|
  {
    if n == 0 then Pass([], covered, {}) else Step(rules, rule, all, n - 1, Scan(rules, rule, all, n - 1, covered))
  }

  const ORDER := [SuccessAfterFailures, FailureBurst, LoginBurst, ToolProbe, ResetRequest, LoginRequest]

  /** All chains and covered keys after the first k passes. */
  function After(rules: Rules, all: seq<Observation>, k: nat): (seq<Chain>, set<string>)
    requires k <= |ORDER|
  {
    if k == 0 then ([], {})
    else
      var (chains, covered) := After(rules, all, k - 1);
      var pass := Scan(rules, ORDER[k - 1], all, |all|, covered);
      (chains + pass.chains, pass.covered)
  }

  /** buildAdminRequestAnomalyChains, given the observations */
  function AdminRequestChains(rules: Rules, all: seq<Observation>): seq<Chain> {
    Deduped(c => rules.ChainId(c), After(rules, all, |ORDER|).0)
  }

  // ----- every observation is attributed once

  function AllKeys(chains: seq<Chain>): set<string> {
    if chains == [] then {} else AllKeys(chains[..|chains| - 1]) + Keys(chains[|chains| - 1].events)
  }

  predicate Disjoint(chains: seq<Chain>) {
    forall i, j | 0 <= i < j < |chains| :: Keys(chains[i].events) !! Keys(chains[j].events)
  }

  /** The newly covered keys are exactly those of the chains, and no key is used twice. */
  predicate Accounted(before: set<string>, chains: seq<Chain>, covered: set<string>) {
    && covered == before + AllKeys(chains) && AllKeys(chains) !! before
    && Disjoint(chains)
  }

  lemma AllKeysSnoc(chains: seq<Chain>, c: Chain)
    ensures AllKeys(chains + [c]) == AllKeys(chains) + Keys(c.events)
  {
    assert (chains + [c])[..|chains|] == chains;
  }

  lemma {:induction false} AllKeysHold(chains: seq<Chain>, i: nat)
    requires i < |chains|
    ensures Keys(chains[i].events) <= AllKeys(chains)
  {
    if i < |chains| - 1 {
      AllKeysHold(chains[..|chains| - 1], i);
    }
  }

  lemma AccountedSnoc(before: set<string>, chains: seq<Chain>, covered: set<string>, c: Chain)
    requires Accounted(before, chains, covered) && Keys(c.events) !! covered
    ensures Accounted(before, chains + [c], covered + Keys(c.events))
  {
    AllKeysSnoc(chains, c);
    hide AllKeys, Keys;
    forall i | 0 <= i < |chains| ensures Keys(chains[i].events) !! Keys(c.events) {
      AllKeysHold(chains, i);
    }
  }

  // ----- what a step does

  ghost predicate Selection(all: seq<Observation>, indices: seq<nat>, events: seq<Observation>) {
    && |indices| == |events|
    && (forall a | 0 <= a < |indices| :: indices[a] < |all| && events[a] == all[indices[a]])
    && (forall a, b | 0 <= a < b < |indices| :: indices[a] < indices[b])
  }

  /** events are some of all, each at most once, in order. */
  ghost predicate InOrder(all: seq<Observation>, events: seq<Observation>) {
    exists indices :: Selection(all, indices, events)
  }

  /** Three or more failures of one remote, and its success no more than the window later. */
  predicate SuccessShaped(rules: Rules, c: Chain)
    requires c.events != []
  {
    var n := |c.events| - 1;
    var last := c.events[n];
    && n >= FAILURES && last.known && rules.Success(last)
    && c.group == last.remote && c.window == WindowOf(last.time)
    && (forall k | 0 <= k < n ::
          rules.Failure(c.events[k]) && c.events[k].remote == last.remote && c.events[k].time >= last.time - WINDOW)
  }

  predicate HeadShaped(rules: Rules, c: Chain)
    requires c.events != []
  {
    var head := c.events[0];
    && c.window == WindowOf(head.time)
    && (forall k | 0 <= k < |c.events| ::
          rules.Matches(c.rule, c.events[k]) && Group(c.rule, c.events[k]) == c.group
          && c.events[k].time <= head.time + WINDOW)
    && (c.rule == FailureBurst || c.rule == LoginBurst ==> head.known && |c.events| == Threshold(c.rule))
    && (c.rule == ToolProbe ==> |c.events| == 1)
  }

  predicate Shaped(rules: Rules, c: Chain) {
    && c.events != []
    && if c.rule == SuccessAfterFailures then SuccessShaped(rules, c) else HeadShaped(rules, c)
  }

  ghost predicate Emitted(rules: Rules, rule: Rule, all: seq<Observation>, s: Pass, c: Chain, after: Pass) {
    && after.chains == s.chains + [c] && after.covered == s.covered + Keys(c.events)
    && c.rule == rule && Keys(c.events) !! s.covered && InOrder(all, c.events) && Shaped(rules, c)
  }

  /** A step changes nothing, or attributes observations not covered before to one new chain. */
  ghost predicate StepOk(rules: Rules, rule: Rule, all: seq<Observation>, s: Pass, after: Pass) {
    after == s || exists c :: Emitted(rules, rule, all, s, c, after)
  }

  /** What a pass may put beside head (after it) or before last. */
  predicate AllPicked(rules: Rules, rule: Rule, group: string, covered: set<string>, found: seq<Observation>) {
    forall e | e in found :: Picks(rules, rule, group, covered, e)
  }

  predicate NoneAfter(found: seq<Observation>, time: int) {
    forall e | e in found :: e.time <= time
  }

  predicate NoneBefore(found: seq<Observation>, time: int) {
    forall e | e in found :: e.time >= time
  }

  lemma {:induction false} FollowingPicks(rules: Rules, rule: Rule, all: seq<Observation>, j: nat, head: Observation,
                                          covered: set<string>)
    ensures var found := Following(rules, rule, all, j, head, covered);
            AllPicked(rules, rule, Group(rule, head), covered, found) && NoneAfter(found, head.time + WINDOW)
    decreases |all| - j
  {
    hide Picks, Group;
    if j < |all| && all[j].time <= head.time + WINDOW {
      FollowingPicks(rules, rule, all, j + 1, head, covered);
    }
  }

  predicate NoneBelow(indices: seq<nat>, j: nat) {
    forall a | 0 <= a < |indices| :: indices[a] >= j
  }

  lemma SelectionCons(all: seq<Observation>, j: nat, indices: seq<nat>, events: seq<Observation>)
    requires j < |all| && Selection(all, indices, events) && NoneBelow(indices, j + 1)
    ensures Selection(all, [j] + indices, [all[j]] + events) && NoneBelow([j] + indices, j)
  {
  }

  lemma {:induction false} FollowingInOrder(rules: Rules, rule: Rule, all: seq<Observation>, j: nat, head: Observation,
                                            covered: set<string>)
    returns (indices: seq<nat>)
    ensures Selection(all, indices, Following(rules, rule, all, j, head, covered)) && NoneBelow(indices, j)
    decreases |all| - j
  {
    if j >= |all| || all[j].time > head.time + WINDOW {
      indices := [];
    } else {
      hide Picks, Group, Selection;
      indices := FollowingInOrder(rules, rule, all, j + 1, head, covered);
      if Picks(rules, rule, Group(rule, head), covered, all[j]) {
        SelectionCons(all, j, indices, Following(rules, rule, all, j + 1, head, covered));
        indices := [j] + indices;
      } else {
        assert [] + Following(rules, rule, all, j + 1, head, covered) == Following(rules, rule, all, j + 1, head, covered);
      }
    }
  }

  lemma {:induction false} PrecedingPicks(rules: Rules, all: seq<Observation>, j: nat, last: Observation,
                                          covered: set<string>)
    returns (indices: seq<nat>)
    requires j <= |all|
    ensures var found := Preceding(rules, all, j, last, covered);
            && Selection(all, indices, found) && (forall a | 0 <= a < |indices| :: indices[a] < j)
            && AllPicked(rules, FailureBurst, last.remote, covered, found) && NoneBefore(found, last.time - WINDOW)
  {
    if j == 0 || all[j - 1].time < last.time - WINDOW {
      indices := [];
    } else {
      hide Picks;
      indices := PrecedingPicks(rules, all, j - 1, last, covered);
      if Picks(rules, FailureBurst, last.remote, covered, all[j - 1]) {
        indices := indices + [j - 1];
      }
    }
  }

  lemma SuccessShape(rules: Rules, failures: seq<Observation>, last: Observation, covered: set<string>, c: Chain)
    requires rules.Matches(SuccessAfterFailures, last) && last.key !in covered && |failures| >= FAILURES
    requires AllPicked(rules, FailureBurst, last.remote, covered, failures) && NoneBefore(failures, last.time - WINDOW)
    requires c == Chain(SuccessAfterFailures, last.remote, WindowOf(last.time), failures + [last])
    ensures Shaped(rules, c) && Keys(c.events) !! covered
  {
    hide WindowOf;
    assert c.events[|c.events| - 1] == last;
    forall k | 0 <= k < |failures|
      ensures Picks(rules, FailureBurst, last.remote, covered, c.events[k]) && c.events[k].time >= last.time - WINDOW {
      assert c.events[k] == failures[k] && failures[k] in failures;
    }
  }

  lemma HeadShape(rules: Rules, rule: Rule, head: Observation, found: seq<Observation>, covered: set<string>, c: Chain)
    requires rule != SuccessAfterFailures && rules.Matches(rule, head) && head.key !in covered
    requires AllPicked(rules, rule, Group(rule, head), covered, found) && NoneAfter(found, head.time + WINDOW)
    requires c == Chain(rule, Group(rule, head), WindowOf(head.time), [head] + found)
    requires rule == FailureBurst || rule == LoginBurst ==> head.known && |found| + 1 == Threshold(rule)
    requires rule == ToolProbe ==> found == []
    ensures Shaped(rules, c) && Keys(c.events) !! covered
  {
    hide WindowOf, Group;
    forall k | 0 < k < |c.events|
      ensures Picks(rules, rule, Group(rule, head), covered, c.events[k]) && c.events[k].time <= head.time + WINDOW {
      assert c.events[k] == found[k - 1] && found[k - 1] in found;
    }
  }

  lemma SuccessStepOk(rules: Rules, all: seq<Observation>, i: nat, s: Pass)
    requires i < |all|
    ensures StepOk(rules, SuccessAfterFailures, all, s, SuccessStep(rules, all, i, s))
  {
    hide Preceding, WindowOf, AllPicked, NoneBefore, Shaped;
    var after, o := SuccessStep(rules, all, i, s), all[i];
    if after != s {
      var indices := PrecedingPicks(rules, all, i, o, s.covered);
      var c := after.chains[|s.chains|];
      assert Selection(all, indices + [i], c.events);
      SuccessShape(rules, Preceding(rules, all, i, o, s.covered), o, s.covered, c);
      hide Selection, Keys;
      assert Emitted(rules, SuccessAfterFailures, all, s, c, after);
    }
  }

  lemma HeadSelection(all: seq<Observation>, i: nat, indices: seq<nat>, found: seq<Observation>, n: nat)
    requires i < |all| && Selection(all, indices, found) && NoneBelow(indices, i + 1) && n <= |found|
    ensures InOrder(all, [all[i]] + found[..n])
  {
    assert Selection(all, [i] + indices[..n], [all[i]] + found[..n]);
  }

  lemma BurstStepOk(rules: Rules, rule: Rule, all: seq<Observation>, i: nat, s: Pass)
    requires i < |all| && (rule == FailureBurst || rule == LoginBurst)
    ensures StepOk(rules, rule, all, s, BurstStep(rules, rule, all, i, s))
  {
    hide Following, WindowOf, Group, InOrder, Selection, NoneBelow, Shaped, Keys;
    var after, o := BurstStep(rules, rule, all, i, s), all[i];
    if after != s {
      var found, n := Following(rules, rule, all, i + 1, o, s.covered), Threshold(rule) - 1;
      FollowingPicks(rules, rule, all, i + 1, o, s.covered);
      var indices := FollowingInOrder(rules, rule, all, i + 1, o, s.covered);
      HeadSelection(all, i, indices, found, n);
      var c := after.chains[|s.chains|];
      HeadShape(rules, rule, o, found[..n], s.covered, c);
      assert Emitted(rules, rule, all, s, c, after);
    }
  }

  lemma ProbeStepOk(rules: Rules, all: seq<Observation>, i: nat, s: Pass)
    requires i < |all|
    ensures StepOk(rules, ToolProbe, all, s, ProbeStep(rules, all, i, s))
  {
    hide WindowOf, Group, Keys, Shaped;
    var after, o := ProbeStep(rules, all, i, s), all[i];
    if after != s {
      var c := after.chains[|s.chains|];
      assert [o] + [] == [o];
      assert Selection(all, [i], c.events);
      HeadShape(rules, ToolProbe, o, [], s.covered, c);
      assert Emitted(rules, ToolProbe, all, s, c, after);
    }
  }

  lemma WindowStepOk(rules: Rules, rule: Rule, all: seq<Observation>, i: nat, s: Pass)
    requires i < |all| && (rule == ResetRequest || rule == LoginRequest)
    ensures StepOk(rules, rule, all, s, WindowStep(rules, rule, all, i, s))
  {
    hide Following, WindowOf, Group, InOrder, Selection, NoneBelow, Shaped, Keys, AllPicked, NoneAfter;
    var after, o := WindowStep(rules, rule, all, i, s), all[i];
    if after != s {
      var found := Following(rules, rule, all, i + 1, o, s.covered);
      FollowingPicks(rules, rule, all, i + 1, o, s.covered);
      var indices := FollowingInOrder(rules, rule, all, i + 1, o, s.covered);
      HeadSelection(all, i, indices, found, |found|);
      assert found[..|found|] == found;
      var c := after.chains[|s.chains|];
      HeadShape(rules, rule, o, found, s.covered, c);
      assert Emitted(rules, rule, all, s, c, after);
    }
  }

  lemma EveryStepOk(rules: Rules, rule: Rule, all: seq<Observation>, i: nat, s: Pass)
    requires i < |all|
    ensures StepOk(rules, rule, all, s, Step(rules, rule, all, i, s))
  {
    hide SuccessStep, BurstStep, ProbeStep, WindowStep, StepOk;
    match rule
    case SuccessAfterFailures => SuccessStepOk(rules, all, i, s);
    case FailureBurst => BurstStepOk(rules, rule, all, i, s);
    case LoginBurst => BurstStepOk(rules, rule, all, i, s);
    case ToolProbe => ProbeStepOk(rules, all, i, s);
    case ResetRequest => WindowStepOk(rules, rule, all, i, s);
    case LoginRequest => WindowStepOk(rules, rule, all, i, s);
  }
}
