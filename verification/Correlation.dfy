/** The walk that ties web events, file changes and what follows them into chains, and the passes after it. */
module Correlation {
  import opened Basics
  import opened ChainIds
  import opened FilePathGroups
  import Admin = AdminChains
  import AdminLaws = AdminCoverage
  import AdminCode = AdminRequestRules

  datatype ChainRule = WebToFile | ProbableIncident | FileToFollowup | FileToDatabase | FileToPersistence

  datatype Chain =
    | DiffChain(event: Event)
    | Correlated(rule: ChainRule, events: seq<Event>)
    | FilePathChain(files: FilePathGroups.Chain)
    | AdminChain(requests: Admin.Chain)
    | TrafficChain(id: string)

  /** Chain IDs, by the prefix they carry; corr- IDs keep the text that is hashed. */
  datatype Id = Corr(text: string) | FileRule(text: string) | FileGroup(group: GroupId) | WebAdmin(admin: Admin.Id)
              | WebRequest(text: string)

  /** The event predicates and what is left abstract. */
  datatype Config = Config(diff: Event -> bool, web: Event -> bool, file: Event -> bool, sameHostOrApp: (Event, Event) -> bool,
                           incidentWeb: Event -> bool, incidentFile: Event -> bool, dbSecurity: Event -> bool,
                           dbIdentity: Event -> bool, persistence: Event -> bool, diffText: Event -> string,
                           fileRuleText: (string, Event) -> string, files: FilePathGroups.Rules,
                           observe: Event -> Option<Admin.Observation>, admin: Admin.Rules,
                           traffic: (seq<Event>, set<string>) -> seq<string>, window: int)
  {
    function ChainId(c: Chain): Id {
      match c
      case DiffChain(event) => Corr(diffText(event))
      case Correlated(rule, events) =>
        var anchored := if |events| > 1 && web(events[0]) then events[1..] else events;
        Corr(RuleName(rule) + Keys(anchored))
      case FilePathChain(AloneChain(rule, event)) => FileRule(fileRuleText(rule, event))
      case FilePathChain(GroupChain(group, _, _, _)) => FileGroup(group)
      case AdminChain(requests) => WebAdmin(admin.ChainId(requests))
      case TrafficChain(id) => WebRequest(id)
    }
  }

  function RuleName(rule: ChainRule): string {
    match rule
    case WebToFile => "web-to-file-change"
    case ProbableIncident => "probable-incident-chain"
    case FileToFollowup => "file-change-to-sensitive-followup"
    case FileToDatabase => "file-change-to-db-security-change"
    case FileToPersistence => "file-change-to-persistence"
  }

  function Keys(events: seq<Event>): string {
    if events == [] then "" else "\n" + events[0].key + Keys(events[1..])
  }

  // ----- looking ahead

  datatype Goal = FileNear(web: Event) | TailOf(file: Event) | EscalationOf(file: Event)

  predicate Fits(config: Config, goal: Goal, e: Event) {
    match goal
    case FileNear(web) => config.file(e) && config.sameHostOrApp(web, e)
    case TailOf(file) => e.time > file.time && (config.dbSecurity(e) || config.persistence(e))
    case EscalationOf(file) => e.time > file.time && (config.dbIdentity(e) || config.persistence(e))
  }

  /** findNextEventAt: the first fitting event from start on, up to the first one that is too late. */
  function NextAt(config: Config, events: seq<Event>, start: nat, until: int, goal: Goal): (found: Option<nat>)
    ensures found.Some? ==> start <= found.value < |events|
    decreases |events| - start
  {
    if start >= |events| || events[start].time > until then None
    else if Fits(config, goal, events[start]) then Some(start)
    else NextAt(config, events, start + 1, until, goal)
  }

  predicate Sorted(events: seq<Event>) {
    forall i, j | 0 <= i < j < |events| :: events[i].time <= events[j].time
  }

  /** On sorted events the search finds the first fitting event in time, and nothing only when there is none. */
  lemma {:induction false} NextAtIsFirst(config: Config, events: seq<Event>, start: nat, until: int, goal: Goal, k: nat)
    requires Sorted(events) && k < |events|
    ensures NextAt(config, events, start, until, goal) == Some(k)
       <==> && start <= k && events[k].time <= until && Fits(config, goal, events[k])
            && forall j | start <= j < k :: !Fits(config, goal, events[j])
    decreases |events| - start
  {
    hide Fits;
    if start < |events| && events[start].time <= until && !Fits(config, goal, events[start]) {
      NextAtIsFirst(config, events, start + 1, until, goal, k);
    }
  }

  // ----- the walk

  datatype Walk = Walk(chains: seq<Chain>, suppressed: set<string>, coveredFiles: set<string>, coveredWeb: set<string>)

  function PairKey(a: Event, b: Event): string {
    a.key + "->" + b.key
  }

  function DiffStep(config: Config, e: Event, s: Walk): Walk {
    if config.diff(e) then s.(chains := s.chains + [DiffChain(e)]) else s
  }

  function WebFile(config: Config, events: seq<Event>, i: nat): (found: Option<nat>)
    requires i < |events|
    ensures found.Some? ==> i < found.value < |events|
  {
    if !config.web(events[i]) then None
    else NextAt(config, events, i + 1, events[i].time + config.window, FileNear(events[i]))
  }

  /** The escalation that makes a web event and its file change a probable incident. */
  function Escalation(config: Config, events: seq<Event>, i: nat, f: nat): (found: Option<nat>)
    requires i < f < |events|
    ensures found.Some? ==> f < found.value < |events|
  {
    var tail := NextAt(config, events, f + 1, events[f].time + config.window, EscalationOf(events[f]));
    if tail.Some? && config.incidentWeb(events[i]) && config.incidentFile(events[f]) then tail else None
  }

  function WebChain(config: Config, events: seq<Event>, i: nat, f: nat): Chain
    requires i < f < |events|
  {
    match Escalation(config, events, i, f)
    case None => Correlated(WebToFile, [events[i], events[f]])
    case Some(t) => Correlated(ProbableIncident, [events[i], events[f], events[t]])
  }

  function WebStep(config: Config, events: seq<Event>, i: nat, s: Walk): Walk
    requires i < |events|
  {
    match WebFile(config, events, i)
    case None => s
    case Some(f) =>
      Walk(s.chains + [WebChain(config, events, i, f)],
           s.suppressed + (match Escalation(config, events, i, f)
                           case None => {}
                           case Some(t) => {PairKey(events[f], events[t])}),
           s.coveredFiles + {events[f].key}, s.coveredWeb + {events[i].key})
  }

  function FollowRule(config: Config, next: Event): ChainRule {
    if config.persistence(next) then FileToPersistence
    else if config.dbSecurity(next) then FileToDatabase
    else FileToFollowup
  }

  function FollowStep(config: Config, events: seq<Event>, i: nat, s: Walk): Walk
    requires i < |events|
  {
    var e := events[i];
    if !config.file(e) then s
    else
      match NextAt(config, events, i + 1, e.time + config.window, TailOf(e))
      case None => s
      case Some(n) =>
        if PairKey(e, events[n]) in s.suppressed then s
        else s.(chains := s.chains + [Correlated(FollowRule(config, events[n]), [e, events[n]])],
                coveredFiles := s.coveredFiles + {e.key})
  }

  function Step(config: Config, events: seq<Event>, i: nat, s: Walk): Walk
    requires i < |events|
  {
    FollowStep(config, events, i, WebStep(config, events, i, DiffStep(config, events[i], s)))
  }

  function Walked(config: Config, events: seq<Event>, n: nat): Walk
    requires n <= |events|
  {
    if n == 0 then Walk([], {}, {}, {}) else Step(config, events, n - 1, Walked(config, events, n - 1))
  }

  // ----- the passes after the walk

  /** adminRequestObservations */
  function Observations(config: Config, events: seq<Event>, covered: set<string>): seq<Admin.Observation> {
    if events == [] then []
    else
      var e := events[|events| - 1];
      Observations(config, events[..|events| - 1], covered)
      + if e.kind == "log.access" && e.key !in covered && config.observe(e).Some?
        then [config.observe(e).value.(key := e.key)] else []
  }

  function FilePaths(chains: seq<FilePathGroups.Chain>): seq<Chain> {
    seq(|chains|, i requires 0 <= i < |chains| => FilePathChain(chains[i]))
  }

  function Requests(chains: seq<Admin.Chain>): seq<Chain> {
    seq(|chains|, i requires 0 <= i < |chains| => AdminChain(chains[i]))
  }

  function Traffic(ids: seq<string>): seq<Chain> {
    seq(|ids|, i requires 0 <= i < |ids| => TrafficChain(ids[i]))
  }

  function Made(config: Config, events: seq<Event>): seq<Chain> {
    var walk := Walked(config, events, |events|);
    walk.chains + FilePaths(Chains(config.files, walk.coveredFiles, events))
    + Requests(Admin.AdminRequestChains(config.admin, Observations(config, events, walk.coveredWeb)))
    + Traffic(config.traffic(events, walk.coveredWeb))
  }

  /** correlateTimelineEvents, before the chains are sorted by severity, time and ID */
  function Output(config: Config, events: seq<Event>): seq<Chain> {
    Deduped((c: Chain) => config.ChainId(c), Made(config, events))
  }

  // ----- no pair is reported twice

  predicate UniqueKeys(events: seq<Event>) {
    forall i, j | 0 <= i < j < |events| :: events[i].key != events[j].key
  }

  predicate IsIncident(c: Chain) {
    c.Correlated? && c.rule == ProbableIncident && |c.events| == 3
  }

  predicate IsFollowUp(c: Chain) {
    c.Correlated? && c.rule != ProbableIncident && c.rule != WebToFile && |c.events| == 2
  }

  /** Both end in the same file change and the same follow-up. */
  predicate SamePair(incident: Chain, follow: Chain) {
    && IsIncident(incident) && IsFollowUp(follow)
    && incident.events[1] == follow.events[0] && incident.events[2] == follow.events[1]
  }

  predicate NoPairTwice(chains: seq<Chain>) {
    forall a, b | a in chains && b in chains :: !SamePair(a, b)
  }

  /** What a walk's chains have in common with its sets. */
  predicate Recorded(events: seq<Event>, n: nat, s: Walk, c: Chain)
    requires n <= |events|
  {
    match c
    case DiffChain(_) => true
    case Correlated(rule, list) =>
      if rule == WebToFile || rule == ProbableIncident then
        && (if rule == WebToFile then |list| == 2 else |list| == 3 && PairKey(list[1], list[2]) in s.suppressed)
        && list[0].key in s.coveredWeb && list[1].key in s.coveredFiles
      else |list| == 2 && list[0].key in s.coveredFiles && list[0] in events[..n]
    case FilePathChain(_) => false
    case AdminChain(_) => false
    case TrafficChain(_) => false
  }

  predicate WalkOk(events: seq<Event>, n: nat, s: Walk)
    requires n <= |events|
  {
    (forall c | c in s.chains :: Recorded(events, n, s, c)) && NoPairTwice(s.chains)
  }

  lemma RecordedGrows(events: seq<Event>, n: nat, s: Walk, m: nat, more: Walk, c: Chain)
    requires n <= m <= |events| && Recorded(events, n, s, c)
    requires s.suppressed <= more.suppressed && s.coveredFiles <= more.coveredFiles && s.coveredWeb <= more.coveredWeb
    ensures Recorded(events, m, more, c)
  {
    hide PairKey;
    assert forall e | e in events[..n] :: e in events[..m];
  }

  /** One more chain, recorded, that repeats no pair. */
  lemma OneMore(events: seq<Event>, n: nat, s: Walk, m: nat, more: Walk, c: Chain)
    requires n <= m <= |events| && WalkOk(events, n, s) && more.chains == s.chains + [c]
    requires s.suppressed <= more.suppressed && s.coveredFiles <= more.coveredFiles && s.coveredWeb <= more.coveredWeb
    requires Recorded(events, m, more, c)
    requires forall x | x in s.chains :: !SamePair(x, c) && !SamePair(c, x)
    ensures WalkOk(events, m, more)
  {
    hide Recorded, SamePair;
    forall x | x in more.chains ensures Recorded(events, m, more, x) {
      if x != c {
        RecordedGrows(events, n, s, m, more, x);
      }
    }
    assert !SamePair(c, c) by { NotItself(c); }
  }

  lemma NotItself(c: Chain)
    ensures !SamePair(c, c)
  {
  }

  lemma DiffKeeps(config: Config, events: seq<Event>, n: nat, s: Walk)
    requires n < |events| && WalkOk(events, n, s)
    ensures WalkOk(events, n, DiffStep(config, events[n], s))
  {
    if config.diff(events[n]) {
      OneMore(events, n, s, n, DiffStep(config, events[n], s), DiffChain(events[n]));
    }
  }

  lemma LaterIsNew(events: seq<Event>, n: nat, f: nat)
    requires UniqueKeys(events) && n <= f < |events|
    ensures events[f] !in events[..n]
  {
  }

  lemma WebKeeps(config: Config, events: seq<Event>, n: nat, s: Walk)
    requires UniqueKeys(events) && n < |events| && WalkOk(events, n, s)
    ensures WalkOk(events, n, WebStep(config, events, n, s))
  {
    hide NextAt, PairKey, NoPairTwice, Config.ChainId;
    var found := WebFile(config, events, n);
    if found.Some? {
      var f := found.value;
      var c, after := WebChain(config, events, n, f), WebStep(config, events, n, s);
      LaterIsNew(events, n, f);
      forall x | x in s.chains ensures !SamePair(x, c) && !SamePair(c, x) {
        assert Recorded(events, n, s, x);
      }
      OneMore(events, n, s, n, after, c);
    }
  }

  lemma FollowKeeps(config: Config, events: seq<Event>, n: nat, s: Walk)
    requires n < |events| && WalkOk(events, n, s)
    ensures WalkOk(events, n + 1, FollowStep(config, events, n, s))
  {
    hide NextAt, PairKey, NoPairTwice, Config.ChainId;
    var e, after := events[n], FollowStep(config, events, n, s);
    var more := n + 1;
    if after == s {
      forall x | x in s.chains ensures Recorded(events, more, s, x) {
        RecordedGrows(events, n, s, more, s, x);
      }
    } else {
      var c := after.chains[|s.chains|];
      assert events[..more][n] == e;
      forall x | x in s.chains ensures !SamePair(x, c) && !SamePair(c, x) {
        assert Recorded(events, n, s, x);
      }
      OneMore(events, n, s, more, after, c);
    }
  }

  lemma {:induction false} WalkKeeps(config: Config, events: seq<Event>, n: nat)
    requires UniqueKeys(events) && n <= |events|
    ensures WalkOk(events, n, Walked(config, events, n))
  {
    hide DiffStep, WebStep, FollowStep, WalkOk, UniqueKeys;
    if n == 0 {
      NothingWalked(events);
    } else {
      var s := Walked(config, events, n - 1);
      WalkKeeps(config, events, n - 1);
      DiffKeeps(config, events, n - 1, s);
      var a := DiffStep(config, events[n - 1], s);
      WebKeeps(config, events, n - 1, a);
      FollowKeeps(config, events, n - 1, WebStep(config, events, n - 1, a));
    }
  }

  lemma NothingWalked(events: seq<Event>)
    ensures WalkOk(events, 0, Walk([], {}, {}, {}))
  {
  }

  // ----- the output

  lemma {:induction false} ObservationsAreUncovered(config: Config, events: seq<Event>, covered: set<string>)
    ensures forall o | o in Observations(config, events, covered) :: o.key !in covered
  {
    if events != [] {
      ObservationsAreUncovered(config, events[..|events| - 1], covered);
    }
  }

  lemma AdminChainsAreUncovered(config: Config, events: seq<Event>, covered: set<string>, c: Admin.Chain, o: Admin.Observation)
    requires c in Admin.AdminRequestChains(config.admin, Observations(config, events, covered)) && o in c.events
    ensures o.key !in covered
  {
    var all := Observations(config, events, covered);
    ObservationsAreUncovered(config, events, covered);
    AdminLaws.DisjointAttribution(config.admin, all);
    hide Observations, Admin.AdminRequestChains, Admin.Shaped;
    assert Admin.InOrder(all, c.events);
    var indices :| Admin.Selection(all, indices, c.events);
    var a :| 0 <= a < |c.events| && c.events[a] == o;
    assert o == all[indices[a]];
  }

  lemma OutputIsMade(config: Config, events: seq<Event>)
    ensures forall c | c in Output(config, events) :: c in Made(config, events)
  {
    var id := (c: Chain) => config.ChainId(c);
    var made := Made(config, events);
    var indices := DedupedKeepsFirsts(id, made);
    hide Made, Deduped;
    assert Output(config, events) == Deduped(id, made);
  }

  /** Where a chain of the output comes from. */
  lemma Origins(config: Config, events: seq<Event>, c: Chain)
    requires c in Made(config, events)
    ensures var walk := Walked(config, events, |events|);
            match c
            case DiffChain(_) => true
            case Correlated(_, _) => c in walk.chains
            case FilePathChain(files) => files in Chains(config.files, walk.coveredFiles, events)
            case AdminChain(requests) =>
              requests in Admin.AdminRequestChains(config.admin, Observations(config, events, walk.coveredWeb))
            case TrafficChain(_) => true
    ensures c in Walked(config, events, |events|).chains ==> c.DiffChain? || c.Correlated?
  {
    hide Chains, Admin.AdminRequestChains, Observations, Step;
    WalkChains(config, events, |events|);
    var walk := Walked(config, events, |events|);
    var files := FilePaths(Chains(config.files, walk.coveredFiles, events));
    var admin := Requests(Admin.AdminRequestChains(config.admin, Observations(config, events, walk.coveredWeb)));
    var traffic := Traffic(config.traffic(events, walk.coveredWeb));
    assert Made(config, events) == walk.chains + files + admin + traffic;
    hide Walked, Made;
  }

  lemma {:induction false} WalkChains(config: Config, events: seq<Event>, n: nat)
    requires n <= |events|
    ensures forall c | c in Walked(config, events, n).chains :: c.DiffChain? || c.Correlated?
  {
    hide NextAt, PairKey;
    if n > 0 {
      WalkChains(config, events, n - 1);
    }
  }

  /** With unique keys: no probable incident and follow-up chain for one pair of a file change and what followed it. */
  lemma NoPairReportedTwice(config: Config, events: seq<Event>, incident: Chain, follow: Chain)
    requires UniqueKeys(events) && incident in Output(config, events) && follow in Output(config, events)
    ensures !SamePair(incident, follow)
  {
    OutputIsMade(config, events);
    WalkKeeps(config, events, |events|);
    Origins(config, events, incident);
    Origins(config, events, follow);
    hide Output, Made, Walked, UniqueKeys, Recorded;
  }

  /** The file change a correlation chain is about. */
  function FileOf(c: Chain): Option<Event> {
    if !c.Correlated? then None
    else if c.rule == WebToFile || c.rule == ProbableIncident then if |c.events| > 1 then Some(c.events[1]) else None
    else if c.events != [] then Some(c.events[0]) else None
  }

  /** A file change in a correlation chain is in no file path chain. */
  lemma FilesReportedOnce(config: Config, events: seq<Event>, c: Chain, files: FilePathGroups.Chain, e: Event)
    requires UniqueKeys(events) && c in Output(config, events) && FileOf(c).Some?
    requires FilePathChain(files) in Output(config, events) && e in files.All()
    ensures e.key != FileOf(c).value.key
  {
    OutputIsMade(config, events);
    WalkKeeps(config, events, |events|);
    Origins(config, events, c);
    Origins(config, events, FilePathChain(files));
    hide Output, Made, Walked, UniqueKeys, NoPairTwice, PairKey;
    var walk := Walked(config, events, |events|);
    NoCoveredEvent(config.files, walk.coveredFiles, events, files, e);
    hide Chains;
    assert Recorded(events, |events|, walk, c);
  }

  /** A web event in a chain with a file change is in no admin request chain. */
  lemma WebEventsReportedOnce(config: Config, events: seq<Event>, c: Chain, requests: Admin.Chain, o: Admin.Observation)
    requires UniqueKeys(events) && c in Output(config, events) && c.Correlated? && c.events != []
    requires c.rule == WebToFile || c.rule == ProbableIncident
    requires AdminChain(requests) in Output(config, events) && o in requests.events
    ensures o.key != c.events[0].key
  {
    OutputIsMade(config, events);
    WalkKeeps(config, events, |events|);
    Origins(config, events, c);
    Origins(config, events, AdminChain(requests));
    hide Output, Made, Walked, UniqueKeys, NoPairTwice, PairKey;
    var walk := Walked(config, events, |events|);
    AdminChainsAreUncovered(config, events, walk.coveredWeb, requests, o);
    hide Observations, Admin.AdminRequestChains;
    assert Recorded(events, |events|, walk, c);
  }

  lemma {:induction false} WebChainsAreMade(config: Config, events: seq<Event>, n: nat, i: nat)
    requires i < n <= |events| && WebFile(config, events, i).Some?
    ensures WebChain(config, events, i, WebFile(config, events, i).value) in Walked(config, events, n).chains
  {
    hide WebFile, WebChain, Escalation, NextAt, PairKey;
    var s := Walked(config, events, n - 1);
    if i < n - 1 {
      WebChainsAreMade(config, events, n - 1, i);
    }
  }

  /** Every suspicious web event with a file change in time is reported: its chain, or another of the same ID, is in the
      output; and the IDs of the output are distinct. */
  lemma EveryPairIsReported(config: Config, events: seq<Event>, i: nat)
    requires i < |events| && WebFile(config, events, i).Some?
    ensures var c := WebChain(config, events, i, WebFile(config, events, i).value);
            exists x :: x in Output(config, events) && config.ChainId(x) == config.ChainId(c)
    ensures DistinctIds((c: Chain) => config.ChainId(c), Output(config, events))
  {
    var id := (c: Chain) => config.ChainId(c);
    var c := WebChain(config, events, i, WebFile(config, events, i).value);
    var made, output := Made(config, events), Output(config, events);
    WebChainsAreMade(config, events, |events|, i);
    DedupedIds(id, made);
    hide Walked, Chains, Admin.AdminRequestChains, Observations, WebChain, WebFile, Config.ChainId;
    assert output == Deduped(id, made);
    assert c in made;
    hide Made, Deduped, Output, DistinctIds;
    var k :| 0 <= k < |made| && made[k] == c;
    assert id(c) in Ids(id, output) by {
      assert id(made[k]) in Ids(id, made);
    }
    var m :| 0 <= m < |output| && id(output[m]) == id(c);
    assert output[m] in output;
  }

  // ----- the code

  method FindNextEventAt(config: Config, events: seq<Event>, start: nat, until: int, goal: Goal) returns (found: Option<nat>)
    ensures found == NextAt(config, events, start, until, goal)
  {
    hide Fits;
    var index := start;
    while index < |events|
      invariant start <= index
      invariant NextAt(config, events, start, until, goal) == NextAt(config, events, index, until, goal)
    {
      if events[index].time > until {
        break;
      }
      if Fits(config, goal, events[index]) {
        return Some(index);
      }
      index := index + 1;
    }
    return None;
  }

  /** A suspicious web event and the file change after it. */
  method WalkWebEvent(config: Config, events: seq<Event>, i: nat, s: Walk) returns (after: Walk)
    requires i < |events|
    ensures after == WebStep(config, events, i, s)
  {
    hide NextAt, PairKey;
    var event := events[i];
    after := s;
    if !config.web(event) {
      return;
    }
    var at := FindNextEventAt(config, events, i + 1, event.time + config.window, FileNear(event));
    if at.None? {
      return;
    }
    var file := events[at.value];
    var chain := Correlated(WebToFile, [event, file]);
    var suppressed := s.suppressed;
    var tail := FindNextEventAt(config, events, at.value + 1, file.time + config.window, EscalationOf(file));
    if tail.Some? && config.incidentWeb(event) && config.incidentFile(file) {
      chain := Correlated(ProbableIncident, [event, file, events[tail.value]]);
      suppressed := suppressed + {PairKey(file, events[tail.value])};
    }
    after := Walk(s.chains + [chain], suppressed, s.coveredFiles + {file.key}, s.coveredWeb + {event.key});
  }

  /** A file change and what follows it. */
  method WalkFileEvent(config: Config, events: seq<Event>, i: nat, s: Walk) returns (after: Walk)
    requires i < |events|
    ensures after == FollowStep(config, events, i, s)
  {
    hide NextAt, PairKey;
    var event := events[i];
    after := s;
    if !config.file(event) {
      return;
    }
    var at := FindNextEventAt(config, events, i + 1, event.time + config.window, TailOf(event));
    if at.None? {
      return;
    }
    var next := events[at.value];
    if PairKey(event, next) in s.suppressed {
      return;
    }
    var rule := FileToFollowup;
    if config.dbSecurity(next) {
      rule := FileToDatabase;
    }
    if config.persistence(next) {
      rule := FileToPersistence;
    }
    after := s.(chains := s.chains + [Correlated(rule, [event, next])], coveredFiles := s.coveredFiles + {event.key});
  }

  method WalkEvents(config: Config, events: seq<Event>) returns (walk: Walk)
    ensures walk == Walked(config, events, |events|)
  {
    hide WebStep, FollowStep;
    walk := Walk([], {}, {}, {});
    for i := 0 to |events|
      invariant walk == Walked(config, events, i)
    {
      if config.diff(events[i]) {
        walk := walk.(chains := walk.chains + [DiffChain(events[i])]);
      }
      walk := WalkWebEvent(config, events, i, walk);
      walk := WalkFileEvent(config, events, i, walk);
    }
  }

  lemma ObservationsSnoc(config: Config, before: seq<Event>, e: Event, covered: set<string>)
    ensures Observations(config, before + [e], covered)
         == Observations(config, before, covered)
            + if e.kind == "log.access" && e.key !in covered && config.observe(e).Some?
              then [config.observe(e).value.(key := e.key)] else []
  {
    assert (before + [e])[..|before|] == before;
  }

  method AdminRequestObservations(config: Config, events: seq<Event>, covered: set<string>)
    returns (observations: seq<Admin.Observation>)
    ensures observations == Observations(config, events, covered)
  {
    hide Observations;
    observations := [];
    assert events[..0] == [];
    NoObservations(config, covered);
    for i := 0 to |events|
      invariant observations == Observations(config, events[..i], covered)
    {
      assert events[..i + 1] == events[..i] + [events[i]];
      ObservationsSnoc(config, events[..i], events[i], covered);
      assert observations + [] == observations;
      if events[i].kind != "log.access" || events[i].key in covered {
        continue;
      }
      var observation := config.observe(events[i]);
      if observation.None? {
        continue;
      }
      observations := observations + [observation.value.(key := events[i].key)];
    }
    assert events[..|events|] == events;
  }

  lemma NoObservations(config: Config, covered: set<string>)
    ensures Observations(config, [], covered) == []
  {
  }

  /** correlateTimelineEvents; the chains of the walk are added as the later ones are. */
  method CorrelateTimelineEvents(config: Config, events: seq<Event>) returns (chains: seq<Chain>)
    ensures chains == Output(config, events)
  {
    hide Walked, Chains, Admin.AdminRequestChains, Observations, Deduped, Ids;
    var id := (c: Chain) => config.ChainId(c);
    var walk := WalkEvents(config, events);
    var files := BuildSuspiciousFilePathChains(config.files, walk.coveredFiles, events);
    var observations := AdminRequestObservations(config, events, walk.coveredWeb);
    var requests := AdminCode.BuildAdminRequestAnomalyChains(config.admin, observations);
    var traffic := config.traffic(events, walk.coveredWeb);
    NoneYet(id);
    assert [] + walk.chains == walk.chains;
    ghost var a := walk.chains + FilePaths(files);
    ghost var b := a + Requests(requests);
    var seen: set<Id> := {};
    chains := [];
    chains, seen := AddCorrelationChains(id, [], chains, seen, walk.chains);
    chains, seen := AddCorrelationChains(id, walk.chains, chains, seen, FilePaths(files));
    chains, seen := AddCorrelationChains(id, a, chains, seen, Requests(requests));
    chains, seen := AddCorrelationChains(id, b, chains, seen, Traffic(traffic));
  }

  lemma NoneYet(id: Chain -> Id)
    ensures Deduped(id, []) == [] && Ids(id, []) == {}
  {
  }
}
