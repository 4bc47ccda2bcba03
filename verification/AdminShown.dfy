/** Which admin requests hide each other, told from the requests themselves. */
module AdminShown {
  import opened Basics
  import opened ChainIds
  import opened AdminChains
  import opened AdminCoverage
  import opened AdminSlots

  // ----- all passes

  ghost predicate RulesBelow(chains: seq<Chain>, k: nat)
    requires k <= |ORDER|
  {
    forall c | c in chains :: c.rule in ORDER[..k]
  }

  lemma OrderApart(k: nat)
    requires k < |ORDER|
    ensures ORDER[k] !in ORDER[..k] && ORDER[..k + 1] == ORDER[..k] + [ORDER[k]]
  {
  }

  lemma DistinctConcat(rules: Rules, k: nat, a: seq<Chain>, b: seq<Chain>)
    requires k < |ORDER| && RulesBelow(a, k) && OfRule(ORDER[k], b)
    requires DistinctIds((c: Chain) => rules.ChainId(c), a) && DistinctIds((c: Chain) => rules.ChainId(c), b)
    ensures RulesBelow(a + b, k + 1) && DistinctIds((c: Chain) => rules.ChainId(c), a + b)
  {
    hide ORDER;
    OrderApart(k);
    var id, all := (c: Chain) => rules.ChainId(c), a + b;
    forall i, j | 0 <= i < j < |all| ensures id(all[i]) != id(all[j]) {
      if i < |a| <= j {
        assert all[i] == a[i] && a[i] in a && all[j] == b[j - |a|];
      } else if j < |a| {
        assert id(a[i]) != id(a[j]);
      } else {
        assert id(b[i - |a|]) != id(b[j - |a|]);
      }
    }
    forall c | c in all ensures c.rule in ORDER[..k + 1] {
      if c in b {
        var j :| 0 <= j < |b| && b[j] == c;
      }
    }
  }

  lemma {:induction false} PassesDistinct(rules: Rules, all: seq<Observation>, k: nat)
    requires Sorted(all) && Sparse(rules, all) && k <= |ORDER|
    ensures var made := After(rules, all, k).0;
            RulesBelow(made, k) && DistinctIds((c: Chain) => rules.ChainId(c), made)
  {
    hide Scan, Sorted, Sparse, DistinctIds, RulesBelow, ORDER, WellMade, Accounted, OfRule;
    if k == 0 {
      NothingMade(rules);
    } else {
      PassesDistinct(rules, all, k - 1);
      AfterStep(rules, all, k - 1);
      var (made, covered) := After(rules, all, k - 1);
      PassDistinct(rules, ORDER[k - 1], all, covered);
      PassAccounts(rules, ORDER[k - 1], all, |all|, covered);
      DistinctConcat(rules, k - 1, made, Scan(rules, ORDER[k - 1], all, |all|, covered).chains);
    }
  }

  lemma NothingMade(rules: Rules)
    ensures RulesBelow([], 0) && DistinctIds((c: Chain) => rules.ChainId(c), [])
  {
  }

  /** On sorted requests that are sparse everything that is covered is shown. */
  lemma SparseIsShown(rules: Rules, all: seq<Observation>)
    requires Sorted(all) && Sparse(rules, all)
    ensures AllKeys(AdminRequestChains(rules, all)) == After(rules, all, |ORDER|).1
  {
    PassesDistinct(rules, all, |ORDER|);
    AllShownIff(rules, all);
    hide After, AdminRequestChains, Sparse, Sorted, DistinctIds, RulesBelow;
  }

  // ----- two probes

  lemma {:induction false} ProbeChainOf(rules: Rules, all: seq<Observation>, n: nat, i: nat, covered: set<string>)
    returns (a: nat)
    requires i < n <= |all| && rules.Matches(ToolProbe, all[i]) && all[i].key !in covered
    requires forall j | 0 <= j < i :: all[j].key != all[i].key
    ensures var chains := Scan(rules, ToolProbe, all, n, covered).chains;
            a < |chains| && MadeAt(rules, ToolProbe, all, i, chains[a]) && chains[a].events == [all[i]]
  {
    hide WindowOf, Group, Rules.Matches;
    var s := Scan(rules, ToolProbe, all, n - 1, covered);
    if i < n - 1 {
      a := ProbeChainOf(rules, all, n - 1, i, covered);
      ScanStep(rules, ToolProbe, all, n - 1, covered);
      hide Scan;
      EveryStepOk(rules, ToolProbe, all, n - 1, s);
    } else {
      ProbesCoverOwn(rules, all, i, covered, all[i].key);
      a := |s.chains|;
    }
  }

  lemma {:induction false} ProbesCoverOwn(rules: Rules, all: seq<Observation>, n: nat, covered: set<string>, key: string)
    requires n <= |all| && key !in covered && forall j | 0 <= j < n :: all[j].key != key
    ensures key !in Scan(rules, ToolProbe, all, n, covered).covered
  {
    hide WindowOf, Group, Rules.Matches;
    if n > 0 {
      ProbesCoverOwn(rules, all, n - 1, covered, key);
    }
  }

  /** Two tool probes of one slot that the passes before leave uncovered always hide one. */
  lemma TwoProbesHide(rules: Rules, all: seq<Observation>, i: nat, j: nat)
    requires UniqueKeys(all) && i < j < |all| && SlotMates(rules, ToolProbe, all[i], all[j])
    requires rules.Matches(ToolProbe, all[i]) && rules.Matches(ToolProbe, all[j])
    requires var covered := After(rules, all, 3).1; all[i].key !in covered && all[j].key !in covered
    ensures AllKeys(AdminRequestChains(rules, all)) != After(rules, all, |ORDER|).1
  {
    hide Scan, AdminRequestChains, DistinctIds, WindowOf, Group, Rules.Matches, MadeAt;
    var (before, covered) := After(rules, all, 3);
    var probes := Scan(rules, ToolProbe, all, |all|, covered).chains;
    var a := ProbeChainOf(rules, all, |all|, i, covered);
    var b := ProbeChainOf(rules, all, |all|, j, covered);
    MadeMates(rules, all, i, j, probes[a], probes[b]);
    ProbesAmongMade(rules, all, before, covered, probes);
    AllShownIff(rules, all);
    var made := After(rules, all, |ORDER|).0;
    hide After;
    assert made[|before| + a] == probes[a] && made[|before| + b] == probes[b] && a != b;
    NotDistinct((c: Chain) => rules.ChainId(c), made, |before| + a, |before| + b);
  }

  lemma MadeMates(rules: Rules, all: seq<Observation>, i: nat, j: nat, x: Chain, y: Chain)
    requires i < |all| && j < |all| && SlotMates(rules, ToolProbe, all[i], all[j])
    requires MadeAt(rules, ToolProbe, all, i, x) && MadeAt(rules, ToolProbe, all, j, y)
    ensures rules.ChainId(x) == rules.ChainId(y)
  {
    hide WindowOf, Group, Rules.Matches;
  }

  lemma NotDistinct<T, I>(id: T -> I, chains: seq<T>, a: nat, b: nat)
    requires a < |chains| && b < |chains| && a != b && id(chains[a]) == id(chains[b])
    ensures !DistinctIds(id, chains)
  {
    if a < b {
      assert id(chains[a]) == id(chains[b]);
    } else {
      assert id(chains[b]) == id(chains[a]);
    }
  }

  lemma ProbesAmongMade(rules: Rules, all: seq<Observation>, before: seq<Chain>, covered: set<string>, probes: seq<Chain>)
    requires After(rules, all, 3) == (before, covered) && probes == Scan(rules, ToolProbe, all, |all|, covered).chains
    ensures var made := After(rules, all, |ORDER|).0;
            |made| >= |before| + |probes| && made[|before|..|before| + |probes|] == probes
  {
    hide Scan;
    assert |ORDER| == 6 && ORDER[3] == ToolProbe;
    AfterStep(rules, all, 3);
    AfterStep(rules, all, 4);
    AfterStep(rules, all, 5);
  }
}
