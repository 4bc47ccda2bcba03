/** Which chains the correlation of sorted events reports, told by the events alone. */
module CorrelationLaws {
  import opened Basics
  import opened ChainIds
  import opened Correlation
  import Files = FilePathGroups
  import Admin = AdminChains

  type Event = Files.Event

  /** The output has a chain of c's ID. */
  ghost predicate Shown(config: Config, events: seq<Event>, c: Chain) {
    exists x :: x in Output(config, events) && config.ChainId(x) == config.ChainId(c)
  }

  lemma MadeIsShown(config: Config, events: seq<Event>, c: Chain)
    requires c in Made(config, events)
    ensures Shown(config, events, c)
  {
    hide Made, Deduped, DistinctIds, Config.ChainId;
    var id := (c: Chain) => config.ChainId(c);
    var made, output := Made(config, events), Output(config, events);
    DedupedIds(id, made);
    assert output == Deduped(id, made);
    hide Output;
    var k :| 0 <= k < |made| && made[k] == c;
    assert id(made[k]) in Ids(id, made);
    var m :| 0 <= m < |output| && id(output[m]) == id(c);
    assert output[m] in output;
  }

  lemma WalkedIsMade(config: Config, events: seq<Event>, c: Chain)
    requires c in Walked(config, events, |events|).chains
    ensures c in Made(config, events)
  {
    hide Walked, Files.Chains, Admin.AdminRequestChains, Observations;
  }

  // ----- the walk only adds

  predicate Within(s: Walk, more: Walk) {
    && s.chains <= more.chains && s.suppressed <= more.suppressed
    && s.coveredFiles <= more.coveredFiles && s.coveredWeb <= more.coveredWeb
  }

  lemma StepAdds(config: Config, events: seq<Event>, i: nat, s: Walk)
    requires i < |events|
    ensures var a := DiffStep(config, events[i], s);
            var b := WebStep(config, events, i, a);
            Within(s, a) && Within(a, b) && Within(b, FollowStep(config, events, i, b))
  {
    hide NextAt, PairKey, WebFile, WebChain, Escalation;
  }

  lemma {:induction false} WalkAdds(config: Config, events: seq<Event>, n: nat, m: nat)
    requires n <= m <= |events|
    ensures Within(Walked(config, events, n), Walked(config, events, m))
    decreases m
  {
    hide DiffStep, WebStep, FollowStep;
    if n < m {
      WalkAdds(config, events, n, m - 1);
      StepAdds(config, events, m - 1, Walked(config, events, m - 1));
    }
  }

  /** What step i adds is in the walk at the end. */
  lemma StepStays(config: Config, events: seq<Event>, i: nat)
    requires i < |events|
    ensures var s := Walked(config, events, i);
            var a := DiffStep(config, events[i], s);
            var b := WebStep(config, events, i, a);
            var end := Walked(config, events, |events|);
            Within(a, end) && Within(b, end) && Within(FollowStep(config, events, i, b), end)
  {
    hide DiffStep, WebStep, FollowStep;
    StepAdds(config, events, i, Walked(config, events, i));
    WalkAdds(config, events, i + 1, |events|);
  }

  // ----- what is reported

  /** A database snapshot difference is reported. */
  lemma DiffIsReported(config: Config, events: seq<Event>, i: nat)
    requires i < |events| && config.diff(events[i])
    ensures Shown(config, events, DiffChain(events[i]))
  {
    hide Walked, Made, Output, WebStep, FollowStep, Config.ChainId;
    StepStays(config, events, i);
    var s := Walked(config, events, i);
    var c := DiffChain(events[i]);
    assert DiffStep(config, events[i], s).chains[|s.chains|] == c;
    WalkedIsMade(config, events, c);
    MadeIsShown(config, events, c);
  }

  /** Of the events after i, n is the first that is a follow-up of a file change, and it is in the window. */
  predicate FirstFollowUp(config: Config, events: seq<Event>, i: nat, n: nat) {
    && i < n < |events| && events[i].time < events[n].time <= events[i].time + config.window
    && (config.dbSecurity(events[n]) || config.persistence(events[n]))
    && forall j | i < j < n && events[i].time < events[j].time ::
         !config.dbSecurity(events[j]) && !config.persistence(events[j])
  }

  lemma FollowUpFound(config: Config, events: seq<Event>, i: nat, n: nat)
    requires Sorted(events) && FirstFollowUp(config, events, i, n)
    ensures NextAt(config, events, i + 1, events[i].time + config.window, TailOf(events[i])) == Some(n)
  {
    NextAtIsFirst(config, events, i + 1, events[i].time + config.window, TailOf(events[i]), n);
  }

  /** A probable incident that ends in file change a and follow-up b, as far as their keys tell. */
  predicate IncidentOf(c: Chain, a: Event, b: Event) {
    IsIncident(c) && PairKey(c.events[1], c.events[2]) == PairKey(a, b)
  }

  /** A high-signal file change with a follow-up in time is reported with the first one, persistence before database
      security; unless a probable incident that ends in that pair is. */
  lemma FollowUpIsReported(config: Config, events: seq<Event>, i: nat, n: nat)
    requires Sorted(events) && FirstFollowUp(config, events, i, n) && config.file(events[i])
    ensures var rule := if config.persistence(events[n]) then FileToPersistence else FileToDatabase;
            || Shown(config, events, Correlated(rule, [events[i], events[n]]))
            || exists c :: IncidentOf(c, events[i], events[n]) && c in Made(config, events) && Shown(config, events, c)
  {
    hide Walked, Made, Output, WebStep, DiffStep, Config.ChainId, NextAt, PairKey, WalkSound, Shown;
    FollowUpFound(config, events, i, n);
    StepStays(config, events, i);
    var s := WebStep(config, events, i, DiffStep(config, events[i], Walked(config, events, i)));
    var after, end := FollowStep(config, events, i, s), Walked(config, events, |events|);
    if PairKey(events[i], events[n]) in s.suppressed {
      WalkIsSound(config, events, |events|);
      var c := SuppressedBy(config, events, |events|, end, PairKey(events[i], events[n]));
      WalkedIsMade(config, events, c);
      MadeIsShown(config, events, c);
      assert IncidentOf(c, events[i], events[n]);
    } else {
      var c := after.chains[|s.chains|];
      assert c == Correlated(FollowRule(config, events[n]), [events[i], events[n]]);
      assert c in end.chains;
      WalkedIsMade(config, events, c);
      MadeIsShown(config, events, c);
    }
  }

  /** Of the events after i, f is the first high-signal file change on the same host or in the same app, and it is in the
      window. */
  predicate FirstFile(config: Config, events: seq<Event>, i: nat, f: nat) {
    && i < f < |events| && events[f].time <= events[i].time + config.window
    && config.file(events[f]) && config.sameHostOrApp(events[i], events[f])
    && forall j | i < j < f :: !(config.file(events[j]) && config.sameHostOrApp(events[i], events[j]))
  }

  /** Of the events after f, t is the first that escalates a file change, and it is in the window. */
  predicate FirstEscalation(config: Config, events: seq<Event>, f: nat, t: nat) {
    && f < t < |events| && events[f].time < events[t].time <= events[f].time + config.window
    && (config.dbIdentity(events[t]) || config.persistence(events[t]))
    && forall j | f < j < t && events[f].time < events[j].time ::
         !config.dbIdentity(events[j]) && !config.persistence(events[j])
  }

  /** The web event and the file change are of the kinds incidents have, and t escalates them. */
  predicate Escalates(config: Config, events: seq<Event>, i: nat, f: nat, t: nat)
    requires i < f < |events|
  {
    config.incidentWeb(events[i]) && config.incidentFile(events[f]) && FirstEscalation(config, events, f, t)
  }

  lemma FileFound(config: Config, events: seq<Event>, i: nat, f: nat)
    requires Sorted(events) && FirstFile(config, events, i, f) && config.web(events[i])
    ensures WebFile(config, events, i) == Some(f)
  {
    NextAtIsFirst(config, events, i + 1, events[i].time + config.window, FileNear(events[i]), f);
  }

  lemma WebChainIsShown(config: Config, events: seq<Event>, i: nat, f: nat)
    requires i < |events| && WebFile(config, events, i) == Some(f)
    ensures Shown(config, events, WebChain(config, events, i, f))
  {
    hide Walked, Made, Output, WebFile, FollowStep, DiffStep, Config.ChainId, NextAt, PairKey, WebChain, Shown;
    StepStays(config, events, i);
    var s := DiffStep(config, events[i], Walked(config, events, i));
    var c := WebChain(config, events, i, f);
    assert WebStep(config, events, i, s).chains[|s.chains|] == c;
    WalkedIsMade(config, events, c);
    MadeIsShown(config, events, c);
  }

  /** A suspicious web event with a file change in time is reported with the first one. It is a probable incident, with the
      first escalation, if there is one in time and both events are of the kinds incidents have; otherwise it is web
      activity followed by a file change. */
  lemma WebEventIsReported(config: Config, events: seq<Event>, i: nat, f: nat)
    requires Sorted(events) && FirstFile(config, events, i, f) && config.web(events[i])
    ensures forall t: nat | Escalates(config, events, i, f, t) ::
              Shown(config, events, Correlated(ProbableIncident, [events[i], events[f], events[t]]))
    ensures (forall t: nat :: !Escalates(config, events, i, f, t)) ==>
              Shown(config, events, Correlated(WebToFile, [events[i], events[f]]))
  {
    hide Escalates, Shown, Sorted, Made, Output, Config.ChainId;
    FileFound(config, events, i, f);
    WebChainIsShown(config, events, i, f);
    EscalationFound(config, events, i, f);
  }

  lemma EscalationFound(config: Config, events: seq<Event>, i: nat, f: nat)
    requires Sorted(events) && i < f < |events|
    ensures forall t: nat | Escalates(config, events, i, f, t) :: Escalation(config, events, i, f) == Some(t)
    ensures (forall t: nat :: !Escalates(config, events, i, f, t)) ==> Escalation(config, events, i, f) == None
  {
    var until := events[f].time + config.window;
    var tail := NextAt(config, events, f + 1, until, EscalationOf(events[f]));
    forall t: nat | FirstEscalation(config, events, f, t) ensures tail == Some(t) {
      NextAtIsFirst(config, events, f + 1, until, EscalationOf(events[f]), t);
    }
    if tail.Some? {
      NextAtIsFirst(config, events, f + 1, until, EscalationOf(events[f]), tail.value);
      assert FirstEscalation(config, events, f, tail.value);
      if config.incidentWeb(events[i]) && config.incidentFile(events[f]) {
        assert Escalates(config, events, i, f, tail.value);
      }
    }
  }

  // ----- what is reported is so

  /** a comes before b in the list, and not too long before. */
  predicate InTime(config: Config, events: seq<Event>, a: Event, b: Event) {
    (exists i, j :: 0 <= i < j < |events| && events[i] == a && events[j] == b) && b.time <= a.time + config.window
  }

  predicate IsPair(config: Config, events: seq<Event>, web: Event, file: Event) {
    config.web(web) && config.file(file) && config.sameHostOrApp(web, file) && InTime(config, events, web, file)
  }

  /** The events of a correlation chain are of the kinds its rule names, in order and in time. */
  predicate Justified(config: Config, events: seq<Event>, rule: ChainRule, list: seq<Event>) {
    match rule
    case WebToFile => |list| == 2 && IsPair(config, events, list[0], list[1])
    case ProbableIncident =>
      && |list| == 3 && IsPair(config, events, list[0], list[1])
      && config.incidentWeb(list[0]) && config.incidentFile(list[1])
      && (config.dbIdentity(list[2]) || config.persistence(list[2]))
      && list[1].time < list[2].time && InTime(config, events, list[1], list[2])
    case FileToFollowup => false
    case FileToDatabase =>
      && |list| == 2 && config.file(list[0]) && config.dbSecurity(list[1]) && !config.persistence(list[1])
      && list[0].time < list[1].time && InTime(config, events, list[0], list[1])
    case FileToPersistence =>
      && |list| == 2 && config.file(list[0]) && config.persistence(list[1])
      && list[0].time < list[1].time && InTime(config, events, list[0], list[1])
  }

  predicate ChainSound(config: Config, events: seq<Event>, c: Chain) {
    match c
    case DiffChain(e) => e in events && config.diff(e)
    case Correlated(rule, list) => Justified(config, events, rule, list)
    case FilePathChain(_) => false
    case AdminChain(_) => false
    case TrafficChain(_) => false
  }

  predicate IsWebChain(c: Chain) {
    c.Correlated? && (c.rule == WebToFile || c.rule == ProbableIncident) && |c.events| > 1
  }

  /** The chains are what they say, and each suppressed pair, covered file change and covered web event is in one. */
  predicate WalkSound(config: Config, events: seq<Event>, s: Walk) {
    && (forall c | c in s.chains :: ChainSound(config, events, c))
    && (forall k | k in s.suppressed :: exists c :: c in s.chains && IsIncident(c) && PairKey(c.events[1], c.events[2]) == k)
    && (forall k | k in s.coveredFiles :: exists c :: c in s.chains && FileOf(c).Some? && FileOf(c).value.key == k)
    && (forall k | k in s.coveredWeb :: exists c :: c in s.chains && IsWebChain(c) && c.events[0].key == k)
  }

  lemma SuppressedBy(config: Config, events: seq<Event>, n: nat, s: Walk, k: string) returns (c: Chain)
    requires WalkSound(config, events, s) && k in s.suppressed
    ensures c in s.chains && IsIncident(c) && PairKey(c.events[1], c.events[2]) == k
  {
    hide ChainSound, PairKey;
    c :| c in s.chains && IsIncident(c) && PairKey(c.events[1], c.events[2]) == k;
  }

  /** One more chain, with what it covers. */
  lemma SoundSnoc(config: Config, events: seq<Event>, s: Walk, c: Chain, more: Walk)
    requires WalkSound(config, events, s) && ChainSound(config, events, c) && more.chains == s.chains + [c]
    requires forall k | k in more.suppressed :: k in s.suppressed || (IsIncident(c) && PairKey(c.events[1], c.events[2]) == k)
    requires forall k | k in more.coveredFiles :: k in s.coveredFiles || (FileOf(c).Some? && FileOf(c).value.key == k)
    requires forall k | k in more.coveredWeb :: k in s.coveredWeb || (IsWebChain(c) && c.events[0].key == k)
    ensures WalkSound(config, events, more)
  {
    hide ChainSound, PairKey, IsIncident, FileOf, IsWebChain;
    assert forall x :: x in more.chains <==> x in s.chains || x == c;
  }

  lemma {:induction false} FoundFits(config: Config, events: seq<Event>, start: nat, until: int, goal: Goal)
    ensures var found := NextAt(config, events, start, until, goal);
            found.Some? ==> events[found.value].time <= until && Correlation.Fits(config, goal, events[found.value])
    decreases |events| - start
  {
    if start < |events| {
      FoundFits(config, events, start + 1, until, goal);
    }
  }

  lemma DiffIsSound(config: Config, events: seq<Event>, i: nat, s: Walk)
    requires i < |events| && WalkSound(config, events, s)
    ensures WalkSound(config, events, DiffStep(config, events[i], s))
  {
    hide WalkSound;
    if config.diff(events[i]) {
      SoundSnoc(config, events, s, DiffChain(events[i]), DiffStep(config, events[i], s));
    }
  }

  lemma WebIsSound(config: Config, events: seq<Event>, i: nat, s: Walk)
    requires i < |events| && WalkSound(config, events, s)
    ensures WalkSound(config, events, WebStep(config, events, i, s))
  {
    hide WalkSound, NextAt, PairKey;
    var found := WebFile(config, events, i);
    if found.Some? {
      var f := found.value;
      FoundFits(config, events, i + 1, events[i].time + config.window, FileNear(events[i]));
      FoundFits(config, events, f + 1, events[f].time + config.window, EscalationOf(events[f]));
      var c := WebChain(config, events, i, f);
      assert InTime(config, events, events[i], events[f]);
      SoundSnoc(config, events, s, c, WebStep(config, events, i, s));
    }
  }

  lemma FollowIsSound(config: Config, events: seq<Event>, i: nat, s: Walk)
    requires i < |events| && WalkSound(config, events, s)
    ensures WalkSound(config, events, FollowStep(config, events, i, s))
  {
    hide WalkSound, NextAt, PairKey;
    var e, after := events[i], FollowStep(config, events, i, s);
    if after != s {
      FoundFits(config, events, i + 1, e.time + config.window, TailOf(e));
      var n := NextAt(config, events, i + 1, e.time + config.window, TailOf(e)).value;
      assert InTime(config, events, e, events[n]);
      SoundSnoc(config, events, s, Correlated(FollowRule(config, events[n]), [e, events[n]]), after);
    }
  }

  lemma {:induction false} WalkIsSound(config: Config, events: seq<Event>, n: nat)
    requires n <= |events|
    ensures WalkSound(config, events, Walked(config, events, n))
  {
    hide DiffStep, WebStep, FollowStep, WalkSound;
    if n == 0 {
      NothingIsSound(config, events);
    } else {
      var s := Walked(config, events, n - 1);
      WalkIsSound(config, events, n - 1);
      DiffIsSound(config, events, n - 1, s);
      var a := DiffStep(config, events[n - 1], s);
      WebIsSound(config, events, n - 1, a);
      FollowIsSound(config, events, n - 1, WebStep(config, events, n - 1, a));
    }
  }

  lemma NothingIsSound(config: Config, events: seq<Event>)
    ensures WalkSound(config, events, Walk([], {}, {}, {}))
  {
  }

  /** Every correlation chain of the output is what its rule says. */
  lemma OutputIsJustified(config: Config, events: seq<Event>, c: Chain)
    requires c in Output(config, events)
    ensures c.Correlated? ==> Justified(config, events, c.rule, c.events)
    ensures c.DiffChain? ==> c.event in events && config.diff(c.event)
  {
    OutputIsMade(config, events);
    WalkIsSound(config, events, |events|);
    Origins(config, events, c);
    hide Output, Made, Walked, Justified;
    if c.DiffChain? {
      DiffsAreWalked(config, events, c);
    }
    if c.Correlated? || c.DiffChain? {
      assert ChainSound(config, events, c);
    }
  }

  // ----- the passes after the walk

  /** A file event that matches a path rule is reported: in a chain of the walk about its key, or in a file path chain. */
  lemma FileRuleEventIsReported(config: Config, events: seq<Event>, e: Event)
    requires e in events && config.files.ruleOf(e).Some?
    ensures || (exists c :: c in Made(config, events) && FileOf(c).Some? && FileOf(c).value.key == e.key
                            && Shown(config, events, c))
            || (exists files :: FilePathChain(files) in Made(config, events) && e in files.All()
                                && Shown(config, events, FilePathChain(files)))
  {
    var walk := Walked(config, events, |events|);
    var chains := Files.Chains(config.files, walk.coveredFiles, events);
    WalkIsSound(config, events, |events|);
    Files.GroupingIsPartition(config.files, walk.coveredFiles, events);
    Files.RelevantIs(config.files, walk.coveredFiles, events);
    PassesAreMade(config, events);
    hide Walked, Files.Chains, Files.Relevant, Made, Shown, Files.AllEvents, ChainSound, FileOf;
    if e.key in walk.coveredFiles {
      var c :| c in walk.chains && FileOf(c).Some? && FileOf(c).value.key == e.key;
      WalkedIsMade(config, events, c);
      MadeIsShown(config, events, c);
    } else {
      assert e in multiset(Files.Relevant(config.files, walk.coveredFiles, events));
      var files := ChainWith(chains, e);
      MadeIsShown(config, events, FilePathChain(files));
    }
  }

  lemma {:induction false} ChainWith(chains: seq<Files.Chain>, e: Event) returns (c: Files.Chain)
    requires e in Files.AllEvents(chains)
    ensures c in chains && e in c.All()
  {
    var n := |chains| - 1;
    if e in chains[n].All() {
      c := chains[n];
    } else {
      assert e !in multiset(chains[n].All());
      c := ChainWith(chains[..n], e);
    }
  }

  /** An access event is reported in a chain with the file change it led to, or the admin passes see it. */
  lemma AccessEventIsSeen(config: Config, events: seq<Event>, e: Event)
    requires e in events && e.kind == "log.access" && config.observe(e).Some?
    ensures || (exists c :: c in Made(config, events) && IsWebChain(c) && c.events[0].key == e.key
                            && Shown(config, events, c))
            || config.observe(e).value.(key := e.key)
               in Observations(config, events, Walked(config, events, |events|).coveredWeb)
  {
    var walk := Walked(config, events, |events|);
    WalkIsSound(config, events, |events|);
    hide Walked, Made, Shown, ChainSound, Observations;
    if e.key in walk.coveredWeb {
      var c :| c in walk.chains && IsWebChain(c) && c.events[0].key == e.key;
      WalkedIsMade(config, events, c);
      MadeIsShown(config, events, c);
    } else {
      UncoveredIsObserved(config, events, walk.coveredWeb, e);
    }
  }

  lemma {:induction false} UncoveredIsObserved(config: Config, events: seq<Event>, covered: set<string>, e: Event)
    requires e in events && e.kind == "log.access" && e.key !in covered && config.observe(e).Some?
    ensures config.observe(e).value.(key := e.key) in Observations(config, events, covered)
  {
    var n := |events| - 1;
    if e != events[n] {
      UncoveredIsObserved(config, events[..n], covered, e);
    }
  }

  /** Nothing else is observed, nothing twice more than it is there, and the order is that of the events. */
  lemma {:induction false} ObservedInOrder(config: Config, events: seq<Event>, covered: set<string>)
    returns (indices: seq<nat>)
    ensures var seen := Observations(config, events, covered);
            && |indices| == |seen|
            && (forall a, b | 0 <= a < b < |indices| :: indices[a] < indices[b])
            && (forall a | 0 <= a < |indices| ::
                  && indices[a] < |events| && events[indices[a]].kind == "log.access"
                  && events[indices[a]].key !in covered && config.observe(events[indices[a]]).Some?
                  && seen[a] == config.observe(events[indices[a]]).value.(key := events[indices[a]].key))
  {
    if events == [] {
      indices := [];
    } else {
      var n := |events| - 1;
      var e := events[n];
      indices := ObservedInOrder(config, events[..n], covered);
      if e.kind == "log.access" && e.key !in covered && config.observe(e).Some? {
        indices := indices + [n];
      }
    }
  }

  lemma PassesAreMade(config: Config, events: seq<Event>)
    ensures var walk := Walked(config, events, |events|);
            && (forall c | c in Files.Chains(config.files, walk.coveredFiles, events) ::
                  FilePathChain(c) in Made(config, events))
            && (forall c | c in Admin.AdminRequestChains(config.admin, Observations(config, events, walk.coveredWeb)) ::
                  AdminChain(c) in Made(config, events))
            && (forall id | id in config.traffic(events, walk.coveredWeb) :: TrafficChain(id) in Made(config, events))
  {
    var walk := Walked(config, events, |events|);
    hide Walked, Files.Chains, Admin.AdminRequestChains, Observations;
    var files := Files.Chains(config.files, walk.coveredFiles, events);
    var requests := Admin.AdminRequestChains(config.admin, Observations(config, events, walk.coveredWeb));
    var traffic := config.traffic(events, walk.coveredWeb);
    forall c | c in files ensures FilePathChain(c) in Made(config, events) {
      var k :| 0 <= k < |files| && files[k] == c;
      assert FilePaths(files)[k] == FilePathChain(c);
    }
    forall c | c in requests ensures AdminChain(c) in Made(config, events) {
      var k :| 0 <= k < |requests| && requests[k] == c;
      assert Requests(requests)[k] == AdminChain(c);
    }
    forall id | id in traffic ensures TrafficChain(id) in Made(config, events) {
      var k :| 0 <= k < |traffic| && traffic[k] == id;
      assert Traffic(traffic)[k] == TrafficChain(id);
    }
  }

  /** Every chain of the admin and traffic passes is reported. */
  lemma RequestChainsAreReported(config: Config, events: seq<Event>)
    ensures var covered := Walked(config, events, |events|).coveredWeb;
            && (forall c | c in Admin.AdminRequestChains(config.admin, Observations(config, events, covered)) ::
                  Shown(config, events, AdminChain(c)))
            && (forall id | id in config.traffic(events, covered) :: Shown(config, events, TrafficChain(id)))
  {
    PassesAreMade(config, events);
    hide Walked, Made, Shown, Admin.AdminRequestChains, Observations;
    var covered := Walked(config, events, |events|).coveredWeb;
    forall c | c in Admin.AdminRequestChains(config.admin, Observations(config, events, covered))
      ensures Shown(config, events, AdminChain(c))
    {
      MadeIsShown(config, events, AdminChain(c));
    }
    forall id | id in config.traffic(events, covered) ensures Shown(config, events, TrafficChain(id)) {
      MadeIsShown(config, events, TrafficChain(id));
    }
  }

  lemma DiffsAreWalked(config: Config, events: seq<Event>, c: Chain)
    requires c in Made(config, events) && c.DiffChain?
    ensures c in Walked(config, events, |events|).chains
  {
    hide Walked, Files.Chains, Admin.AdminRequestChains, Observations;
  }
}
