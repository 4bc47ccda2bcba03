/** File events that match a path rule, alone or grouped by plugin, theme or module root and hour. Times are in nanoseconds
    since the zero time. */
module FilePathGroups {
  import opened Basics
  import opened StringOrder

  const HOUR := 3_600_000_000_000

  /** path is the one displayed. */
  datatype Event = Event(key: string, id: string, time: int, env: string, app: string, hostId: string, host: string,
                         kind: string, path: string)

  /** ruleOf gives the ID of the rule an event matches, rootOf the kind and root of its group. */
  datatype Rules = Rules(ruleOf: Event -> Option<string>, rootOf: (string, Event) -> Option<string>, trim: string -> string)

  datatype Bucket = UnknownHour | Hour(start: int)

  /** What a group's chain ID is made of. */
  datatype GroupId = GroupId(rule: string, env: string, app: string, hostId: string, host: string, root: string,
                             bucket: Bucket)

  datatype Place = Passed | Alone(rule: string) | Inside(group: GroupId)

  function BucketOf(time: int): Bucket {
    if time == 0 then UnknownHour else Hour(time - time % HOUR)
  }

  /** Where an event goes. */
  function PlaceOf(rules: Rules, covered: set<string>, e: Event): Place {
    if e.key in covered then Passed
    else
      match rules.ruleOf(e)
      case None => Passed
      case Some(rule) =>
        match rules.rootOf(rule, e)
        case None => Alone(rule)
        case Some(root) => Inside(GroupId(rule, e.env, e.app, e.hostId, e.host, root, BucketOf(e.time)))
  }

  /** counts holds each event kind as often as it was counted. */
  datatype Chain =
    | AloneChain(rule: string, event: Event)
    | GroupChain(group: GroupId, events: seq<Event>, paths: seq<string>, counts: multiset<string>)
  {
    function All(): seq<Event> {
      if AloneChain? then [event] else events
    }
  }

  // ----- the plain description: filters of the input

  function Relevant(rules: Rules, covered: set<string>, events: seq<Event>): seq<Event> {
    if events == [] then []
    else
      var e := events[|events| - 1];
      Relevant(rules, covered, events[..|events| - 1]) + if PlaceOf(rules, covered, e) == Passed then [] else [e]
  }

  function Members(rules: Rules, covered: set<string>, events: seq<Event>, g: GroupId): seq<Event> {
    if events == [] then []
    else
      var e := events[|events| - 1];
      Members(rules, covered, events[..|events| - 1], g) + if PlaceOf(rules, covered, e) == Inside(g) then [e] else []
  }

  /** The groups in the order of their first events. */
  function Order(rules: Rules, covered: set<string>, events: seq<Event>): seq<GroupId> {
    if events == [] then []
    else
      var before := Order(rules, covered, events[..|events| - 1]);
      var place := PlaceOf(rules, covered, events[|events| - 1]);
      if place.Inside? && place.group !in before then before + [place.group] else before
  }

  function AloneChains(rules: Rules, covered: set<string>, events: seq<Event>): seq<Chain> {
    if events == [] then []
    else
      var e := events[|events| - 1];
      var place := PlaceOf(rules, covered, e);
      AloneChains(rules, covered, events[..|events| - 1]) + if place.Alone? then [AloneChain(place.rule, e)] else []
  }

  /** appendUniqueString, over the paths of events */
  function Paths(trim: string -> string, events: seq<Event>): seq<string> {
    if events == [] then []
    else
      var before := Paths(trim, events[..|events| - 1]);
      var path := trim(events[|events| - 1].path);
      if path == "" || path in before then before else before + [path]
  }

  function Kinds(events: seq<Event>): multiset<string> {
    if events == [] then multiset{} else Kinds(events[..|events| - 1]) + multiset{events[|events| - 1].kind}
  }

  /** The order slices.SortFunc is given: by time, then by ID. */
  predicate Before(a: Event, b: Event) {
    a.time < b.time || (a.time == b.time && Less(a.id, b.id))
  }

  function Insert(e: Event, sorted: seq<Event>): seq<Event> {
    if sorted == [] || Before(e, sorted[0]) then [e] + sorted else [sorted[0]] + Insert(e, sorted[1..])
  }

  function Sort(events: seq<Event>): seq<Event> {
    if events == [] then [] else Insert(events[|events| - 1], Sort(events[..|events| - 1]))
  }

  function GroupChainOf(rules: Rules, covered: set<string>, events: seq<Event>, g: GroupId): Chain {
    var members := Members(rules, covered, events, g);
    GroupChain(g, Sort(members), Paths(rules.trim, members), Kinds(members))
  }

  function GroupChains(rules: Rules, covered: set<string>, events: seq<Event>, order: seq<GroupId>): seq<Chain> {
    if order == [] then []
    else GroupChains(rules, covered, events, order[..|order| - 1])
         + [GroupChainOf(rules, covered, events, order[|order| - 1])]
  }

  /** buildSuspiciousFilePathChains */
  function Chains(rules: Rules, covered: set<string>, events: seq<Event>): seq<Chain> {
    AloneChains(rules, covered, events) + GroupChains(rules, covered, events, Order(rules, covered, events))
  }

  // ----- sorting

  predicate InOrder(events: seq<Event>) {
    forall i, j | 0 <= i < j < |events| :: !Before(events[j], events[i])
  }

  lemma NotBeforeTransitive(a: Event, b: Event, c: Event)
    requires !Before(b, a) && !Before(c, b)
    ensures !Before(c, a)
  {
    LessTotal(a.id, b.id);
    LessTotal(b.id, c.id);
    if Less(c.id, a.id) && Less(a.id, b.id) {
      LessTransitive(c.id, a.id, b.id);
    }
  }

  lemma BeforeAsymmetric(a: Event, b: Event)
    ensures !(Before(a, b) && Before(b, a))
  {
    LessAsymmetric(a.id, b.id);
  }

  lemma {:induction false} InsertMultiset(e: Event, sorted: seq<Event>)
    ensures multiset(Insert(e, sorted)) == multiset(sorted) + multiset{e}
  {
    hide Before;
    if sorted != [] && !Before(e, sorted[0]) {
      InsertMultiset(e, sorted[1..]);
      assert sorted == [sorted[0]] + sorted[1..];
    }
  }

  lemma {:induction false} InsertInOrder(e: Event, sorted: seq<Event>)
    requires InOrder(sorted)
    ensures InOrder(Insert(e, sorted))
  {
    if sorted != [] {
      var rest := sorted[1..];
      if Before(e, sorted[0]) {
        BeforeAsymmetric(e, sorted[0]);
        hide Before;
        forall j | 0 <= j < |sorted| ensures !Before(sorted[j], e) {
          if j > 0 {
            NotBeforeTransitive(e, sorted[0], sorted[j]);
          }
        }
      } else {
        hide Before;
        InsertInOrder(e, rest);
        InsertMultiset(e, rest);
        forall x | x in Insert(e, rest) ensures !Before(x, sorted[0]) {
          assert x in multiset(Insert(e, rest));
          if x != e {
            assert x in rest;
          }
        }
      }
    }
  }

  /** Sorting keeps every event and leaves none before an earlier one. */
  lemma {:induction false} SortSorts(events: seq<Event>)
    ensures multiset(Sort(events)) == multiset(events) && InOrder(Sort(events))
  {
    if events != [] {
      var before, e := events[..|events| - 1], events[|events| - 1];
      SortSorts(before);
      InsertMultiset(e, Sort(before));
      InsertInOrder(e, Sort(before));
      assert events == before + [e];
      hide Insert, InOrder, Before;
    }
  }

  // ----- grouping is a partition

  function AllEvents(chains: seq<Chain>): multiset<Event> {
    if chains == [] then multiset{}
    else AllEvents(chains[..|chains| - 1]) + multiset(chains[|chains| - 1].All())
  }

  predicate NoRepeats<T(==)>(s: seq<T>) {
    forall i, j | 0 <= i < j < |s| :: s[i] != s[j]
  }

  lemma {:induction false} AllEventsConcat(a: seq<Chain>, b: seq<Chain>)
    ensures AllEvents(a + b) == AllEvents(a) + AllEvents(b)
  {
    if b == [] {
      assert a + b == a;
    } else {
      var init, last := b[..|b| - 1], b[|b| - 1];
      assert (a + b)[..|a + b| - 1] == a + init && (a + b)[|a + b| - 1] == last;
      AllEventsConcat(a, init);
    }
  }

  /** One more event of a group shows in the chain of that group only. */
  lemma {:induction false} GroupsSnoc(rules: Rules, covered: set<string>, before: seq<Event>, e: Event,
                                      order: seq<GroupId>)
    requires NoRepeats(order)
    ensures AllEvents(GroupChains(rules, covered, before + [e], order))
         == AllEvents(GroupChains(rules, covered, before, order))
            + var place := PlaceOf(rules, covered, e);
              if place.Inside? && place.group in order then multiset{e} else multiset{}
  {
    hide PlaceOf, Sort, Paths, Kinds, Members, AllEvents, GroupChains;
    if order == [] {
      NoGroups(rules, covered, before);
      NoGroups(rules, covered, before + [e]);
    } else {
      var init, g := order[..|order| - 1], order[|order| - 1];
      assert order == init + [g];
      InitNoRepeats(init, g);
      GroupsSnoc(rules, covered, before, e, init);
      MembersSnoc(rules, covered, before, e, g);
      SortSorts(Members(rules, covered, before, g));
      SortSorts(Members(rules, covered, before + [e], g));
      GroupChainsLast(rules, covered, before, order);
      GroupChainsLast(rules, covered, before + [e], order);
    }
  }

  lemma InitNoRepeats(init: seq<GroupId>, g: GroupId)
    requires NoRepeats(init + [g])
    ensures NoRepeats(init) && g !in init
  {
    var order := init + [g];
    assert order[|init|] == g && forall i | 0 <= i < |init| :: order[i] == init[i];
  }

  lemma NoGroups(rules: Rules, covered: set<string>, events: seq<Event>)
    ensures GroupChains(rules, covered, events, []) == [] && AllEvents([]) == multiset{}
  {
  }

  lemma GroupChainsLast(rules: Rules, covered: set<string>, events: seq<Event>, order: seq<GroupId>)
    requires order != []
    ensures AllEvents(GroupChains(rules, covered, events, order))
         == AllEvents(GroupChains(rules, covered, events, order[..|order| - 1]))
            + multiset(Sort(Members(rules, covered, events, order[|order| - 1])))
  {
    hide Sort, Members, Paths, Kinds;
    var chains := GroupChains(rules, covered, events, order);
    assert chains[..|chains| - 1] == GroupChains(rules, covered, events, order[..|order| - 1]);
  }

  lemma MembersSnoc(rules: Rules, covered: set<string>, before: seq<Event>, e: Event, g: GroupId)
    ensures Members(rules, covered, before + [e], g)
         == Members(rules, covered, before, g) + if PlaceOf(rules, covered, e) == Inside(g) then [e] else []
  {
    hide PlaceOf;
    assert (before + [e])[..|before|] == before;
  }

  lemma OrderSnoc(rules: Rules, covered: set<string>, before: seq<Event>, e: Event)
    ensures Order(rules, covered, before + [e])
         == var order := Order(rules, covered, before);
            var place := PlaceOf(rules, covered, e);
            if place.Inside? && place.group !in order then order + [place.group] else order
  {
    hide PlaceOf;
    assert (before + [e])[..|before|] == before;
  }

  lemma AloneSnoc(rules: Rules, covered: set<string>, before: seq<Event>, e: Event)
    ensures AloneChains(rules, covered, before + [e])
         == AloneChains(rules, covered, before)
            + var place := PlaceOf(rules, covered, e); if place.Alone? then [AloneChain(place.rule, e)] else []
    ensures Relevant(rules, covered, before + [e])
         == Relevant(rules, covered, before) + if PlaceOf(rules, covered, e) == Passed then [] else [e]
  {
    hide PlaceOf;
    assert (before + [e])[..|before|] == before;
  }

  /** The groups are those of the events, each once, and a group that has not come up yet is empty. */
  lemma {:induction false} OrderLists(rules: Rules, covered: set<string>, events: seq<Event>)
    ensures NoRepeats(Order(rules, covered, events))
    ensures forall g :: g in Order(rules, covered, events) <==> Members(rules, covered, events, g) != []
  {
    hide PlaceOf;
    if events != [] {
      var before, e := events[..|events| - 1], events[|events| - 1];
      assert events == before + [e];
      OrderLists(rules, covered, before);
      OrderSnoc(rules, covered, before, e);
      forall g ensures g in Order(rules, covered, events) <==> Members(rules, covered, events, g) != [] {
        MembersSnoc(rules, covered, before, e, g);
      }
    }
  }

  lemma OneMoreGroup(rules: Rules, covered: set<string>, events: seq<Event>, order: seq<GroupId>, g: GroupId)
    requires Members(rules, covered, events, g) == []
    ensures AllEvents(GroupChains(rules, covered, events, order + [g])) == AllEvents(GroupChains(rules, covered, events, order))
  {
    hide Members, Paths, Kinds;
    GroupChainsLast(rules, covered, events, order + [g]);
    assert (order + [g])[..|order|] == order;
    assert Sort([]) == [];
  }

  /** Every event that is not covered and matches a rule is in exactly one chain, and nothing else is in any. */
  lemma {:induction false} GroupingIsPartition(rules: Rules, covered: set<string>, events: seq<Event>)
    ensures AllEvents(Chains(rules, covered, events)) == multiset(Relevant(rules, covered, events))
  {
    hide PlaceOf, Relevant, AllEvents, Chains;
    if events == [] {
      NoChains(rules, covered);
    } else {
      var before, e := events[..|events| - 1], events[|events| - 1];
      assert events == before + [e];
      GroupingIsPartition(rules, covered, before);
      WholeStep(rules, covered, before, e);
    }
  }

  lemma WholeStep(rules: Rules, covered: set<string>, before: seq<Event>, e: Event)
    ensures var added := if PlaceOf(rules, covered, e).Passed? then multiset{} else multiset{e};
            && AllEvents(Chains(rules, covered, before + [e])) == AllEvents(Chains(rules, covered, before)) + added
            && multiset(Relevant(rules, covered, before + [e])) == multiset(Relevant(rules, covered, before)) + added
  {
    hide PlaceOf, Order, GroupChains, AloneChains, Relevant, AllEvents, Chains;
    SplitChains(rules, covered, before + [e]);
    SplitChains(rules, covered, before);
    PartitionStep(rules, covered, before, e);
    var alone, grouped := AllEvents(AloneChains(rules, covered, before)),
                          AllEvents(GroupChains(rules, covered, before, Order(rules, covered, before)));
    match PlaceOf(rules, covered, e)
    case Passed =>
    case Alone(_) => assert (alone + multiset{e}) + grouped == (alone + grouped) + multiset{e};
    case Inside(_) => assert alone + (grouped + multiset{e}) == (alone + grouped) + multiset{e};
  }

  lemma SplitChains(rules: Rules, covered: set<string>, events: seq<Event>)
    ensures AllEvents(Chains(rules, covered, events))
         == AllEvents(AloneChains(rules, covered, events))
            + AllEvents(GroupChains(rules, covered, events, Order(rules, covered, events)))
  {
    hide AllEvents, AloneChains, GroupChains, Order;
    AllEventsConcat(AloneChains(rules, covered, events),
                    GroupChains(rules, covered, events, Order(rules, covered, events)));
  }

  lemma NoChains(rules: Rules, covered: set<string>)
    ensures AllEvents(Chains(rules, covered, [])) == multiset{} && multiset(Relevant(rules, covered, [])) == multiset{}
  {
  }

  lemma PartitionStep(rules: Rules, covered: set<string>, before: seq<Event>, e: Event)
    ensures var events := before + [e];
            var place := PlaceOf(rules, covered, e);
            && AllEvents(AloneChains(rules, covered, events))
            == AllEvents(AloneChains(rules, covered, before)) + (if place.Alone? then multiset{e} else multiset{})
            && AllEvents(GroupChains(rules, covered, events, Order(rules, covered, events)))
            == AllEvents(GroupChains(rules, covered, before, Order(rules, covered, before)))
               + (if place.Inside? then multiset{e} else multiset{})
            && multiset(Relevant(rules, covered, events))
            == multiset(Relevant(rules, covered, before)) + (if place.Passed? then multiset{} else multiset{e})
  {
    hide PlaceOf, Members, Order, GroupChains, AloneChains, Relevant;
    var events, place := before + [e], PlaceOf(rules, covered, e);
    AloneSnoc(rules, covered, before, e);
    OrderSnoc(rules, covered, before, e);
    OrderLists(rules, covered, before);
    OrderLists(rules, covered, events);
    if place.Alone? {
      AllEventsConcat(AloneChains(rules, covered, before), [AloneChain(place.rule, e)]);
      OneChain(AloneChain(place.rule, e));
    } else {
      assert AloneChains(rules, covered, before) + [] == AloneChains(rules, covered, before);
    }
    GroupsSnoc(rules, covered, before, e, Order(rules, covered, events));
    if place.Inside? && place.group !in Order(rules, covered, before) {
      OneMoreGroup(rules, covered, before, Order(rules, covered, before), place.group);
    }
  }

  lemma OneChain(c: Chain)
    ensures AllEvents([c]) == multiset(c.All())
  {
    assert [c][..0] == [];
  }

  // ----- what a group chain shows

  predicate SameGroup(rules: Rules, covered: set<string>, g: GroupId, events: seq<Event>) {
    forall e | e in events ::
      && e.key !in covered && e.host == g.host && BucketOf(e.time) == g.bucket && rules.ruleOf(e) == Some(g.rule)
      && rules.rootOf(g.rule, e) == Some(g.root)
  }

  lemma {:induction false} MembersShare(rules: Rules, covered: set<string>, events: seq<Event>, g: GroupId)
    ensures SameGroup(rules, covered, g, Members(rules, covered, events, g))
  {
    if events != [] {
      MembersShare(rules, covered, events[..|events| - 1], g);
    }
  }

  lemma {:induction false} PathsAreDistinct(trim: string -> string, events: seq<Event>)
    ensures NoRepeats(Paths(trim, events))
    ensures forall path :: path in Paths(trim, events) <==> path != "" && exists e :: e in events && trim(e.path) == path
  {
    if events != [] {
      var before, e := events[..|events| - 1], events[|events| - 1];
      PathsAreDistinct(trim, before);
      assert events == before + [e];
    }
  }

  function OfKind(events: seq<Event>, kind: string): seq<Event> {
    if events == [] then []
    else OfKind(events[..|events| - 1], kind) + if events[|events| - 1].kind == kind then [events[|events| - 1]] else []
  }

  lemma {:induction false} KindsCount(events: seq<Event>)
    ensures |Kinds(events)| == |events|
    ensures forall kind :: Kinds(events)[kind] == |OfKind(events, kind)|
  {
    if events != [] {
      KindsCount(events[..|events| - 1]);
    }
  }

  /** A group chain holds the group's events, sorted; its paths are theirs, each once; its counts say how
      many events of each kind there are and add up to all of them. */
  lemma GroupChainShows(rules: Rules, covered: set<string>, events: seq<Event>, g: GroupId)
    ensures var c := GroupChainOf(rules, covered, events, g);
            && multiset(c.events) == multiset(Members(rules, covered, events, g)) && InOrder(c.events)
            && SameGroup(rules, covered, g, c.events)
            && NoRepeats(c.paths)
            && (forall path :: path in c.paths
                 <==> path != "" && exists e :: e in c.events && rules.trim(e.path) == path)
            && |c.counts| == |c.events|
            && forall kind :: c.counts[kind] == |OfKind(Members(rules, covered, events, g), kind)|
  {
    var members, sorted := Members(rules, covered, events, g), Sort(Members(rules, covered, events, g));
    SortSorts(members);
    MembersShare(rules, covered, events, g);
    PathsAreDistinct(rules.trim, members);
    KindsCount(members);
    hide Sort, Members, Paths, Kinds, InOrder, OfKind;
    forall e ensures e in sorted <==> e in members {
      assert e in multiset(sorted) <==> e in multiset(members);
    }
    assert |multiset(sorted)| == |sorted| && |multiset(members)| == |members|;
  }

  /** The chain an event belongs to: its own, or that of its group, which shares rule, environment, app, host, root and
      hour of the day; events without a time have a bucket of their own. */
  predicate BelongsTo(rules: Rules, c: Chain, e: Event) {
    rules.ruleOf(e).Some?
    && var rule := rules.ruleOf(e).value;
       match rules.rootOf(rule, e)
       case None => c == AloneChain(rule, e)
       case Some(root) =>
         var bucket := if e.time == 0 then UnknownHour else Hour(e.time / 3_600_000_000_000 * 3_600_000_000_000);
         c.GroupChain? && c.group == GroupId(rule, e.env, e.app, e.hostId, e.host, root, bucket)
  }

  lemma ChainOfEvent(rules: Rules, covered: set<string>, events: seq<Event>, c: Chain, e: Event)
    requires c in Chains(rules, covered, events) && e in c.All()
    ensures BelongsTo(rules, c, e)
  {
    hide Order, PlaceOf, BelongsTo, AloneChains, GroupChains;
    if c in AloneChains(rules, covered, events) {
      AloneIs(rules, covered, events, c);
      PlaceBelongs(rules, covered, c, e);
    } else {
      var g := GroupChainIs(rules, covered, events, Order(rules, covered, events), c);
      GroupChainShows(rules, covered, events, g);
      hide GroupChainOf, Members;
      assert e in multiset(c.events) && e in multiset(Members(rules, covered, events, g));
      MembersPlace(rules, covered, events, g);
      PlaceBelongs(rules, covered, c, e);
    }
  }

  lemma PlaceBelongs(rules: Rules, covered: set<string>, c: Chain, e: Event)
    requires PlaceOf(rules, covered, e) == (if c.AloneChain? then Alone(c.rule) else Inside(c.group))
    requires c.AloneChain? ==> c.event == e
    ensures BelongsTo(rules, c, e)
  {
  }

  lemma {:induction false} AloneIs(rules: Rules, covered: set<string>, events: seq<Event>, c: Chain)
    requires c in AloneChains(rules, covered, events)
    ensures c.AloneChain? && PlaceOf(rules, covered, c.event) == Alone(c.rule)
  {
    hide PlaceOf;
    if c in AloneChains(rules, covered, events[..|events| - 1]) {
      AloneIs(rules, covered, events[..|events| - 1], c);
    }
  }

  lemma {:induction false} GroupChainIs(rules: Rules, covered: set<string>, events: seq<Event>, order: seq<GroupId>, c: Chain)
    returns (g: GroupId)
    requires c in GroupChains(rules, covered, events, order)
    ensures c == GroupChainOf(rules, covered, events, g)
  {
    hide GroupChainOf;
    g := order[|order| - 1];
    if c in GroupChains(rules, covered, events, order[..|order| - 1]) {
      g := GroupChainIs(rules, covered, events, order[..|order| - 1], c);
    }
  }

  lemma {:induction false} MembersPlace(rules: Rules, covered: set<string>, events: seq<Event>, g: GroupId)
    ensures forall e | e in Members(rules, covered, events, g) :: PlaceOf(rules, covered, e) == Inside(g)
  {
    hide PlaceOf;
    if events != [] {
      MembersPlace(rules, covered, events[..|events| - 1], g);
    }
  }

  // ----- covered events stay out

  lemma {:induction false} RelevantIs(rules: Rules, covered: set<string>, events: seq<Event>)
    ensures forall e :: e in Relevant(rules, covered, events)
                   <==> e in events && e.key !in covered && rules.ruleOf(e).Some?
  {
    if events != [] {
      var before, e := events[..|events| - 1], events[|events| - 1];
      RelevantIs(rules, covered, before);
      assert events == before + [e];
    }
  }

  lemma {:induction false} InSomeChain(chains: seq<Chain>, c: Chain, e: Event)
    requires c in chains && e in c.All()
    ensures e in AllEvents(chains)
  {
    if c != chains[|chains| - 1] {
      InSomeChain(chains[..|chains| - 1], c, e);
    } else {
      assert e in multiset(c.All());
    }
  }

  /** No covered event is in a chain. */
  lemma NoCoveredEvent(rules: Rules, covered: set<string>, events: seq<Event>, c: Chain, e: Event)
    requires c in Chains(rules, covered, events) && e in c.All()
    ensures e in events && e.key !in covered && rules.ruleOf(e).Some?
  {
    InSomeChain(Chains(rules, covered, events), c, e);
    GroupingIsPartition(rules, covered, events);
    RelevantIs(rules, covered, events);
    hide Chains, AllEvents, Relevant;
    assert e in multiset(Relevant(rules, covered, events));
  }

  // ----- the code

  datatype Group = Group(events: seq<Event>, paths: seq<string>, counts: multiset<string>)

  method AppendUniqueString(trim: string -> string, values: seq<string>, value: string) returns (longer: seq<string>)
    ensures var trimmed := trim(value);
            longer == if trimmed == "" || trimmed in values then values else values + [trimmed]
  {
    longer := values;
    var trimmed := trim(value);
    if trimmed == "" {
      return;
    }
    for k := 0 to |values|
      invariant trimmed !in values[..k]
    {
      if values[k] == trimmed {
        return;
      }
    }
    assert values[..|values|] == values;
    longer := values + [trimmed];
  }

  function WithEvent(trim: string -> string, group: Group, e: Event): Group {
    var path := trim(e.path);
    Group(group.events + [e], if path == "" || path in group.paths then group.paths else group.paths + [path],
          group.counts + multiset{e.kind})
  }

  function GroupOf(rules: Rules, covered: set<string>, events: seq<Event>, g: GroupId): Group {
    var members := Members(rules, covered, events, g);
    Group(members, Paths(rules.trim, members), Kinds(members))
  }

  /** The map of groups and their order, after some events. */
  ghost predicate Grouped(rules: Rules, covered: set<string>, events: seq<Event>, groups: map<GroupId, Group>,
                    order: seq<GroupId>)
  {
    && order == Order(rules, covered, events)
    && (forall g :: g in groups <==> g in order)
    && (forall g | g in groups :: groups[g] == GroupOf(rules, covered, events, g))
  }

  lemma GroupOfSnoc(rules: Rules, covered: set<string>, before: seq<Event>, e: Event, g: GroupId)
    ensures GroupOf(rules, covered, before + [e], g)
         == if PlaceOf(rules, covered, e) != Inside(g) then GroupOf(rules, covered, before, g)
            else WithEvent(rules.trim, GroupOf(rules, covered, before, g), e)
  {
    hide PlaceOf, Members;
    MembersSnoc(rules, covered, before, e, g);
    var members := Members(rules, covered, before, g);
    assert (members + [e])[..|members|] == members;
    assert members + [] == members;
  }

  lemma NewGroupIsEmpty(rules: Rules, covered: set<string>, events: seq<Event>, g: GroupId)
    requires g !in Order(rules, covered, events)
    ensures GroupOf(rules, covered, events, g) == Group([], [], multiset{})
  {
    OrderLists(rules, covered, events);
    hide Order, Members;
  }

  lemma GroupedSnoc(rules: Rules, covered: set<string>, before: seq<Event>, e: Event, groups: map<GroupId, Group>,
                    order: seq<GroupId>, g: GroupId, group: Group)
    requires Grouped(rules, covered, before, groups, order) && PlaceOf(rules, covered, e) == Inside(g)
    requires group == GroupOf(rules, covered, before + [e], g)
    ensures Grouped(rules, covered, before + [e], groups[g := group], if g in groups then order else order + [g])
  {
    hide PlaceOf, GroupOf;
    OrderSnoc(rules, covered, before, e);
    forall x | x in groups && x != g ensures groups[x] == GroupOf(rules, covered, before + [e], x) {
      GroupOfSnoc(rules, covered, before, e, x);
    }
  }

  lemma GroupedSkip(rules: Rules, covered: set<string>, before: seq<Event>, e: Event, groups: map<GroupId, Group>,
                    order: seq<GroupId>)
    requires Grouped(rules, covered, before, groups, order) && !PlaceOf(rules, covered, e).Inside?
    ensures Grouped(rules, covered, before + [e], groups, order)
  {
    hide PlaceOf, GroupOf;
    OrderSnoc(rules, covered, before, e);
    forall x | x in groups ensures groups[x] == GroupOf(rules, covered, before + [e], x) {
      GroupOfSnoc(rules, covered, before, e, x);
    }
  }

  lemma NothingGrouped(rules: Rules, covered: set<string>)
    ensures Grouped(rules, covered, [], map[], []) && AloneChains(rules, covered, []) == []
  {
  }

  method BuildSuspiciousFilePathChains(rules: Rules, covered: set<string>, events: seq<Event>) returns (chains: seq<Chain>)
    ensures chains == Chains(rules, covered, events)
  {
    hide Order, Members, AloneChains, Paths, Kinds, Sort, GroupChains, Grouped, GroupOf, BucketOf;
    chains := [];
    var groups: map<GroupId, Group> := map[];
    var order: seq<GroupId> := [];
    assert events[..0] == [];
    NothingGrouped(rules, covered);
    for i := 0 to |events|
      invariant chains == AloneChains(rules, covered, events[..i])
      invariant Grouped(rules, covered, events[..i], groups, order)
    {
      var e := events[i];
      ghost var before := events[..i];
      assert events[..i + 1] == before + [e];
      AloneSnoc(rules, covered, before, e);
      if e.key in covered || rules.ruleOf(e).None? {
        GroupedSkip(rules, covered, before, e, groups, order);
        assert chains + [] == chains;
        continue;
      }
      var rule := rules.ruleOf(e).value;
      var root := rules.rootOf(rule, e);
      if root.None? {
        GroupedSkip(rules, covered, before, e, groups, order);
        chains := chains + [AloneChain(rule, e)];
        continue;
      }
      assert chains + [] == chains;
      var g := GroupId(rule, e.env, e.app, e.hostId, e.host, root.value, BucketOf(e.time));
      chains, groups, order := AddToGroup(rules, covered, before, e, chains, groups, order, g);
    }
    assert events[..|events|] == events;
    ghost var alone := chains;
    NoGroups(rules, covered, events);
    assert order[..0] == [] && alone + [] == alone;
    for k := 0 to |order|
      invariant chains == alone + GroupChains(rules, covered, events, order[..k])
    {
      GroupChainsSnoc(rules, covered, events, order, k);
      LookUp(rules, covered, events, groups, order, order[k]);
      var group := groups[order[k]];
      ghost var next := GroupChainOf(rules, covered, events, order[k]);
      assert next == GroupChain(order[k], Sort(group.events), group.paths, group.counts) by {
        ChainFromGroup(rules, covered, events, order[k]);
      }
      assert chains + [next] == alone + (GroupChains(rules, covered, events, order[..k]) + [next]);
      chains := chains + [GroupChain(order[k], Sort(group.events), group.paths, group.counts)];
    }
    GroupedOrder(rules, covered, events, groups, order);
    assert order[..|order|] == order;
  }

  method AddToGroup(rules: Rules, covered: set<string>, ghost before: seq<Event>, e: Event, chains: seq<Chain>,
                    groups: map<GroupId, Group>, order: seq<GroupId>, g: GroupId)
    returns (chains': seq<Chain>, groups': map<GroupId, Group>, order': seq<GroupId>)
    requires Grouped(rules, covered, before, groups, order) && PlaceOf(rules, covered, e) == Inside(g)
    ensures chains' == chains && Grouped(rules, covered, before + [e], groups', order')
  {
    hide Grouped, PlaceOf, GroupOf, Order;
    chains', order' := chains, order;
    LookUp(rules, covered, before, groups, order, g);
    var group;
    if g in groups {
      group := groups[g];
    } else {
      group := Group([], [], multiset{});
      order' := order + [g];
    }
    var paths := AppendUniqueString(rules.trim, group.paths, e.path);
    GroupOfSnoc(rules, covered, before, e, g);
    group := Group(group.events + [e], paths, group.counts + multiset{e.kind});
    GroupedSnoc(rules, covered, before, e, groups, order, g, group);
    groups' := groups[g := group];
  }

  lemma LookUp(rules: Rules, covered: set<string>, events: seq<Event>, groups: map<GroupId, Group>, order: seq<GroupId>,
               g: GroupId)
    requires Grouped(rules, covered, events, groups, order)
    ensures g in groups <==> g in order
    ensures GroupOf(rules, covered, events, g) == if g in groups then groups[g] else Group([], [], multiset{})
  {
    hide GroupOf, Order;
    if g !in groups {
      NewGroupIsEmpty(rules, covered, events, g);
    }
  }

  lemma ChainFromGroup(rules: Rules, covered: set<string>, events: seq<Event>, g: GroupId)
    ensures var group := GroupOf(rules, covered, events, g);
            GroupChainOf(rules, covered, events, g) == GroupChain(g, Sort(group.events), group.paths, group.counts)
  {
  }

  lemma GroupedOrder(rules: Rules, covered: set<string>, events: seq<Event>, groups: map<GroupId, Group>,
                     order: seq<GroupId>)
    requires Grouped(rules, covered, events, groups, order)
    ensures order == Order(rules, covered, events)
  {
  }

  lemma GroupChainsSnoc(rules: Rules, covered: set<string>, events: seq<Event>, order: seq<GroupId>, k: nat)
    requires k < |order|
    ensures GroupChains(rules, covered, events, order[..k + 1])
         == GroupChains(rules, covered, events, order[..k]) + [GroupChainOf(rules, covered, events, order[k])]
  {
    assert order[..k + 1][..k] == order[..k];
  }
}
