/** The script of one URL, where requests without redirects share it: each part is what the last event that wrote it
    gave.

    Initiators are written by requests, and again by the responses that come after their request; status and type are
    written by responses, and again by the requests that come after their response. So the last writer is the last of
    one stream or the last of the other, as the streams are merged. */
module RenderedWriters {
  import opened Basics
  import opened RenderedNetwork
  import opened RenderedConfluence

  /** One URL of a page, under a classifier of URLs. */
  datatype Site = Site(like: string -> bool, page: Page, url: string)

  /** Only requests without redirects go to the site. */
  predicate SingleHops(site: Site) {
    forall r | r in site.page && HasUrl(site.page[r], site.url) :: |site.page[r].hops| == 1
  }

  /** The request goes to the site, and its events are recorded as a script. */
  predicate User(site: Site, r: string) {
    r in site.page && HasUrl(site.page[r], site.url) && (site.page[r].kind == ScriptKind || site.like(site.url))
  }

  datatype Field = InitiatorField | StatusField | MimeField

  /** The request, or its answer, has something to write into the field. */
  predicate Writes(site: Site, field: Field, r: string) {
    && User(site, r)
    && match field
       case InitiatorField => true
       case StatusField => site.page[r].answer.Answered? && site.page[r].answer.status != 0
       case MimeField => site.page[r].answer.Answered? && site.page[r].answer.mime != ""
  }

  predicate SameValue(site: Site, field: Field, a: string, b: string)
    requires Writes(site, field, a) && Writes(site, field, b)
    requires SingleHops(site)
  {
    var x, y := site.page[a], site.page[b];
    match field
    case InitiatorField => x.hops[0].initiator == y.hops[0].initiator
    case StatusField => x.answer.status == y.answer.status
    case MimeField => x.answer.mime == y.answer.mime
  }

  /** The last event of a stream whose request writes the field. */
  function LastOf(site: Site, field: Field, events: seq<NetEvent>): (last: Option<string>)
    ensures last.Some? ==> Writes(site, field, last.value) && exists e :: e in events && e.id == last.value
  {
    if events == [] then None
    else if Writes(site, field, events[|events| - 1].id) then Some(events[|events| - 1].id)
    else LastOf(site, field, events[..|events| - 1])
  }

  /** Initiators are written by requests, and again by responses that come after their request; status and type the other
      way round. */
  function First(field: Field): Source {
    if field == InitiatorField then Requests else Responses
  }

  function Second(field: Field): Source {
    if field == InitiatorField then Responses else Requests
  }

  /** The streams agree on the field: nothing is written twice, or what comes last in each stream writes the same. */
  predicate Settled(site: Site, t: Streams, field: Field)
    requires SingleHops(site)
  {
    var x, y := LastOf(site, field, StreamOf(t, First(field))), LastOf(site, field, StreamOf(t, Second(field)));
    x.Some? && y.Some? ==> SameValue(site, field, x.value, y.value)
  }

  // ----- who wrote a field last

  predicate Took(events: seq<NetEvent>, r: string) {
    exists e :: e in events && e.id == r
  }

  function Prefix(t: Streams, schedule: seq<Source>, source: Source): seq<NetEvent>
    requires Fits(t, schedule)
  {
    StreamOf(t, source)[..Taken(schedule, source)]
  }

  /** The next event of a stream writes the field. */
  predicate WritesNow(site: Site, field: Field, t: Streams, schedule: seq<Source>, source: Source)
    requires Fits(t, schedule) && Taken(schedule, source) < |StreamOf(t, source)|
  {
    var e := StreamOf(t, source)[Taken(schedule, source)];
    && Writes(site, field, e.id)
    && (source == First(field) || (source == Second(field) && Took(Prefix(t, schedule, First(field)), e.id)))
  }

  /** The request whose event wrote the field last. */
  function Writer(site: Site, field: Field, t: Streams, schedule: seq<Source>): (w: Option<string>)
    requires Fits(t, schedule)
    ensures w.Some? ==> Writes(site, field, w.value)
  {
    if schedule == [] then None
    else
      FitsInit(t, schedule);
      var init, source := schedule[..|schedule| - 1], schedule[|schedule| - 1];
      if WritesNow(site, field, t, init, source) then Some(StreamOf(t, source)[Taken(init, source)].id)
      else Writer(site, field, t, init)
  }

  lemma WriterSnoc(site: Site, field: Field, t: Streams, schedule: seq<Source>, source: Source)
    requires Fits(t, schedule + [source])
    ensures Fits(t, schedule) && Taken(schedule, source) < |StreamOf(t, source)|
    ensures Writer(site, field, t, schedule + [source])
         == if WritesNow(site, field, t, schedule, source) then Some(StreamOf(t, source)[Taken(schedule, source)].id)
            else Writer(site, field, t, schedule)
  {
    hide WritesNow;
    FitsInit(t, schedule + [source]);
    assert (schedule + [source])[..|schedule|] == schedule;
  }

  lemma PrefixSnoc(t: Streams, schedule: seq<Source>, source: Source, x: Source)
    requires Fits(t, schedule + [source]) && Fits(t, schedule) && Taken(schedule, source) < |StreamOf(t, source)|
    ensures Prefix(t, schedule + [source], x)
         == Prefix(t, schedule, x) + if x == source then [StreamOf(t, source)[Taken(schedule, source)]] else []
  {
    TakenSnoc(schedule, source);
    hide Taken, Fits;
    if x == source {
      TakeOneMore(StreamOf(t, x), Taken(schedule, x));
    }
  }

  lemma TakeOneMore(events: seq<NetEvent>, n: nat)
    requires n < |events|
    ensures events[..n + 1] == events[..n] + [events[n]]
  {
  }

  lemma LastOfSnoc(site: Site, field: Field, events: seq<NetEvent>, e: NetEvent)
    ensures LastOf(site, field, events + [e])
         == if Writes(site, field, e.id) then Some(e.id) else LastOf(site, field, events)
  {
    hide Writes;
    assert (events + [e])[..|events|] == events;
  }

  lemma TookSnoc(events: seq<NetEvent>, e: NetEvent, r: string)
    ensures Took(events + [e], r) <==> Took(events, r) || e.id == r
  {
  }

  /** At any moment the last writer is last in its stream so far, or the last event of the second stream still waits for
      its partner in the first. */
  lemma {:induction false} WriterIsLast(site: Site, field: Field, t: Streams, schedule: seq<Source>)
    requires Fits(t, schedule)
    ensures var w := Writer(site, field, t, schedule);
            var x, y := Prefix(t, schedule, First(field)), Prefix(t, schedule, Second(field));
            var last := LastOf(site, field, y);
            && (w == LastOf(site, field, x) || w == last || (last.Some? && !Took(x, last.value)))
            && (w == None ==> LastOf(site, field, x) == None)
    decreases |schedule|
  {
    hide Writes, Took, Prefix, Fits, LastOf, Writer;
    if schedule == [] {
      NobodyWrote(site, field, t);
    } else {
      var init, source := schedule[..|schedule| - 1], schedule[|schedule| - 1];
      assert schedule == init + [source];
      WriterSnoc(site, field, t, init, source);
      WriterIsLast(site, field, t, init);
      var e := StreamOf(t, source)[Taken(init, source)];
      PrefixSnoc(t, init, source, First(field));
      PrefixSnoc(t, init, source, Second(field));
      var x, y := Prefix(t, init, First(field)), Prefix(t, init, Second(field));
      assert x + [] == x && y + [] == y;
      LastOfSnoc(site, field, x, e);
      LastOfSnoc(site, field, y, e);
      var last := LastOf(site, field, y);
      if last.Some? {
        TookSnoc(x, e, last.value);
      }
    }
  }

  lemma NobodyWrote(site: Site, field: Field, t: Streams)
    requires Fits(t, [])
    ensures Writer(site, field, t, []) == None && LastOf(site, field, Prefix(t, [], First(field))) == None
  {
    assert Prefix(t, [], First(field)) == [];
  }

  // ----- the state of the site

  function InitiatorOf(site: Site, w: Option<string>): string
    requires SingleHops(site) && (w.Some? ==> User(site, w.value))
  {
    if w.None? then "" else site.page[w.value].hops[0].initiator
  }

  function StatusOf(site: Site, w: Option<string>): int
    requires w.Some? ==> Writes(site, StatusField, w.value)
  {
    if w.None? then 0 else site.page[w.value].answer.status
  }

  function MimeOf(site: Site, w: Option<string>): string
    requires w.Some? ==> Writes(site, MimeField, w.value)
  {
    if w.None? then "" else site.page[w.value].answer.mime
  }

  predicate HasUser(site: Site) {
    exists r | r in site.page :: User(site, r)
  }

  /** The script of the site, in terms of who wrote its fields last. */
  predicate Written(site: Site, q: Script, i: Option<string>, st: Option<string>, m: Option<string>)
    requires SingleHops(site) && (i.Some? ==> Writes(site, InitiatorField, i.value))
    requires (st.Some? ==> Writes(site, StatusField, st.value)) && (m.Some? ==> Writes(site, MimeField, m.value))
  {
    && q.initiator == InitiatorOf(site, i) && q.status == StatusOf(site, st) && q.contentType == MimeOf(site, m)
    && (i.Some? ==> q.url == site.url)
    && (q.url == site.url || q == NO_SCRIPT)
    && (q.url == site.url ==> HasUser(site))
  }

  predicate ScriptNow(site: Site, t: Streams, schedule: seq<Source>, q: Script)
    requires SingleHops(site) && Fits(t, schedule)
  {
    Written(site, q, Writer(site, InitiatorField, t, schedule), Writer(site, StatusField, t, schedule),
            Writer(site, MimeField, t, schedule))
  }

  /** The entry of a request without redirects. */
  predicate EntryNow(c: Chain, q: Script, n: nat, d: bool)
    requires |c.hops| == 1
  {
    && (d ==> c.answer.Answered?)
    && (n == 0 && !d ==> q == NO_SCRIPT)
    && (n == 0 && d ==> q.url == c.hops[0].url && q.status == c.answer.status && q.contentType == c.answer.mime)
    && (n > 0 && !d ==> q.url == c.hops[0].url && q.initiator == c.hops[0].initiator)
  }

  predicate UserNow(site: Site, t: Streams, schedule: seq<Source>, s: State, r: string)
    requires SingleHops(site) && Fits(t, schedule) && User(site, r)
  {
    EntryNow(site.page[r], Get(s.requests, r), Sent(t, schedule, r), HasAnswered(t, schedule, r))
  }

  predicate SiteNow(site: Site, t: Streams, schedule: seq<Source>, s: State)
    requires SingleHops(site) && Fits(t, schedule)
  {
    && (forall r | r in site.page && User(site, r) :: UserNow(site, t, schedule, s, r))
    && ScriptNow(site, t, schedule, Get(s.scripts, site.url))
  }

  lemma UserHasOneHop(site: Site, r: string)
    requires SingleHops(site) && ChainsWellFormed(site.page) && User(site, r)
    ensures ChainWellFormed(site.page[r]) && |site.page[r].hops| == 1 && site.page[r].hops[0].url == site.url
  {
    ChainOfPage(site.page, r);
  }

  /** A user's request writes its initiator, and its answer's status and type if the answer was there already. */
  lemma UserRequest(site: Site, r: string, q: Script, scripts: map<string, Script>, d: bool)
    requires SingleHops(site) && ChainsWellFormed(site.page) && User(site, r) && EntryNow(site.page[r], q, 0, d)
    ensures var c, old' := site.page[r], Get(scripts, site.url);
            var (entry, after) := OnRequest(site.like, q, scripts, RequestEvent(r, c, 0));
            && EntryNow(c, entry, 1, d)
            && Get(after, site.url)
            == Script(site.url, c.hops[0].initiator,
                      if d && c.answer.status != 0 then c.answer.status else old'.status,
                      if d && c.answer.mime != "" then c.answer.mime else old'.contentType)
  {
    UserHasOneHop(site, r);
    hide ChainsWellFormed;
  }

  /** A user's answer writes its status and type, and the initiator if the request was there already. */
  lemma UserResponse(site: Site, r: string, q: Script, scripts: map<string, Script>, n: nat)
    requires SingleHops(site) && ChainsWellFormed(site.page) && User(site, r) && EntryNow(site.page[r], q, n, false)
    requires site.page[r].answer.Answered?
    ensures var c, old' := site.page[r], Get(scripts, site.url);
            var (entry, after) := OnResponse(site.like, q, scripts, ResponseEvent(r, c));
            && EntryNow(c, entry, n, true)
            && Get(after, site.url)
            == Script(site.url, if n > 0 then c.hops[0].initiator else old'.initiator,
                      if c.answer.status != 0 then c.answer.status else old'.status,
                      if c.answer.mime != "" then c.answer.mime else old'.contentType)
  {
    UserHasOneHop(site, r);
    hide ChainsWellFormed;
  }

  /** Events of requests that are not users leave the script alone. */
  lemma OtherEvent(site: Site, t: Streams, source: Source, i: nat, s: State)
    requires SingleHops(site) && ChainsWellFormed(site.page) && Conforms(site.page, t) && i < |StreamOf(t, source)|
    requires source == Requests || source == Responses ==> !User(site, StreamOf(t, source)[i].id)
    ensures Get(Step(site.like, s, StreamOf(t, source)[i]).scripts, site.url) == Get(s.scripts, site.url)
  {
    var e := StreamOf(t, source)[i];
    EventTouches(site.like, site.page, t, source, i, s);
    hide ChainsWellFormed;
    if (source == Requests || source == Responses) && HasUrl(site.page[e.id], site.url) {
      if source == Requests {
        assert RequestConforms(site.page, t.requests, i);
        RequestIgnored(site, e, Get(s.requests, e.id), s.scripts);
      } else {
        assert ResponseConforms(site.page, t.responses, i);
        ResponseIgnored(site, e, Get(s.requests, e.id), s.scripts);
      }
    }
  }

  lemma RequestIgnored(site: Site, e: NetEvent, q: Script, scripts: map<string, Script>)
    requires e.id in site.page && |site.page[e.id].hops| == 1 && site.page[e.id].hops[0].url == site.url != ""
    requires e == RequestEvent(e.id, site.page[e.id], 0)
    requires !(site.page[e.id].kind == ScriptKind || site.like(site.url))
    ensures OnRequest(site.like, q, scripts, e).1 == scripts
  {
  }

  lemma ResponseIgnored(site: Site, e: NetEvent, q: Script, scripts: map<string, Script>)
    requires e.id in site.page && |site.page[e.id].hops| == 1 && site.page[e.id].hops[0].url == site.url != ""
    requires site.page[e.id].answer.Answered? && e == ResponseEvent(e.id, site.page[e.id])
    requires !(site.page[e.id].kind == ScriptKind || site.like(site.url))
    ensures OnResponse(site.like, q, scripts, e).1 == scripts
  {
  }

  lemma {:induction false} TookIsCount(events: seq<NetEvent>, r: string)
    ensures Took(events, r) <==> Count(events, r) > 0
  {
    if events != [] {
      var init, e := events[..|events| - 1], events[|events| - 1];
      assert events == init + [e];
      TookSnoc(init, e, r);
      TookIsCount(init, r);
    }
  }

  /** What WritesNow means for a user's events, in terms of what was sent and answered. */
  lemma UserWrites(site: Site, t: Streams, schedule: seq<Source>, source: Source, field: Field)
    requires Fits(t, schedule) && Taken(schedule, source) < |StreamOf(t, source)|
    ensures var r := StreamOf(t, source)[Taken(schedule, source)].id;
            WritesNow(site, field, t, schedule, source) <==>
            && Writes(site, field, r)
            && match source
               case Requests => field == InitiatorField || HasAnswered(t, schedule, r)
               case Responses => field != InitiatorField || Sent(t, schedule, r) > 0
               case Finished => false
               case Failed => false
  {
    hide Writes, Took, Count, Taken;
    var r := StreamOf(t, source)[Taken(schedule, source)].id;
    TookIsCount(Prefix(t, schedule, First(field)), r);
  }

  /** The other users' entries after an event. */
  lemma OtherUsers(site: Site, t: Streams, schedule: seq<Source>, source: Source, s: State, after: State, r: string)
    requires SingleHops(site) && Fits(t, schedule) && Fits(t, schedule + [source])
    requires Taken(schedule, source) < |StreamOf(t, source)| && User(site, r) && UserNow(site, t, schedule, s, r)
    requires var e := StreamOf(t, source)[Taken(schedule, source)];
             && Touches(site.page, s, after, e) && (source == Requests || source == Responses ==> e.id != r)
             && (source == Requests <==> e.RequestWillBeSent?) && (source == Responses <==> e.ResponseReceived?)
    ensures UserNow(site, t, schedule + [source], after, r)
  {
    hide User, EntryNow, Sent, HasAnswered, Get, Taken, SameElsewhere, SingleHops;
    SentSnoc(t, schedule, source, r);
    UserHops(site, r);
  }

  lemma UserHops(site: Site, r: string)
    requires SingleHops(site) && User(site, r)
    ensures r in site.page && |site.page[r].hops| == 1
  {
  }

  lemma WrittenStays(site: Site, t: Streams, schedule: seq<Source>, source: Source, q: Script)
    requires SingleHops(site) && Fits(t, schedule) && Fits(t, schedule + [source])
    requires Taken(schedule, source) < |StreamOf(t, source)| && ScriptNow(site, t, schedule, q)
    requires source == Requests || source == Responses ==> !User(site, StreamOf(t, source)[Taken(schedule, source)].id)
    ensures ScriptNow(site, t, schedule + [source], q)
  {
    hide Written, Writer, Sent, HasAnswered, User, Taken;
    WriterSnoc(site, InitiatorField, t, schedule, source);
    WriterSnoc(site, StatusField, t, schedule, source);
    WriterSnoc(site, MimeField, t, schedule, source);
    UserWrites(site, t, schedule, source, InitiatorField);
    UserWrites(site, t, schedule, source, StatusField);
    UserWrites(site, t, schedule, source, MimeField);
    hide WritesNow;
  }

  /** A user's event is written by whoever UserWrites says. */
  lemma WrittenByUser(site: Site, t: Streams, schedule: seq<Source>, source: Source, old': Script, q: Script, r: string)
    requires SingleHops(site) && Fits(t, schedule) && Fits(t, schedule + [source])
    requires Taken(schedule, source) < |StreamOf(t, source)| && ScriptNow(site, t, schedule, old') && User(site, r)
    requires r == StreamOf(t, source)[Taken(schedule, source)].id && q.url == site.url
    requires r in site.page && |site.page[r].hops| == 1
    requires q.initiator == if WritesNow(site, InitiatorField, t, schedule, source) then site.page[r].hops[0].initiator
                            else old'.initiator
    requires q.status == if WritesNow(site, StatusField, t, schedule, source) then site.page[r].answer.status
                         else old'.status
    requires q.contentType == if WritesNow(site, MimeField, t, schedule, source) then site.page[r].answer.mime
                              else old'.contentType
    ensures ScriptNow(site, t, schedule + [source], q)
  {
    hide Writer, Taken, User;
    WriterSnoc(site, InitiatorField, t, schedule, source);
    WriterSnoc(site, StatusField, t, schedule, source);
    WriterSnoc(site, MimeField, t, schedule, source);
    assert HasUser(site);
  }

  lemma UserRequestStep(site: Site, t: Streams, schedule: seq<Source>, s: State, r: string)
    requires SingleHops(site) && ChainsWellFormed(site.page) && Conforms(site.page, t)
    requires Fits(t, schedule) && Fits(t, schedule + [Requests]) && Taken(schedule, Requests) < |t.requests|
    requires r == t.requests[Taken(schedule, Requests)].id && User(site, r) && SiteNow(site, t, schedule, s)
    ensures var after := Step(site.like, s, t.requests[Taken(schedule, Requests)]);
            && ScriptNow(site, t, schedule + [Requests], Get(after.scripts, site.url))
            && UserNow(site, t, schedule + [Requests], after, r)
  {
    hide OnRequest, EntryNow, ScriptNow, RequestEvent, Taken, ResponseConforms, WritesNow, ChainsWellFormed, Count, SingleHops,
         User;
    var i := Taken(schedule, Requests);
    var e, d, old' := t.requests[i], HasAnswered(t, schedule, r), Get(s.scripts, site.url);
    UserHops(site, r);
    assert RequestConforms(site.page, t.requests, i);
    RequestKind(site.page, t, i);
    assert UserNow(site, t, schedule, s, r);
    assert Sent(t, schedule, r) == 0;
    UserRequest(site, r, Get(s.requests, r), s.scripts, d);
    SentSnoc(t, schedule, Requests, r);
    UserWrites(site, t, schedule, Requests, InitiatorField);
    UserWrites(site, t, schedule, Requests, StatusField);
    UserWrites(site, t, schedule, Requests, MimeField);
    AnsweredIsAnswered(site, t, schedule, s, r);
    WrittenByUser(site, t, schedule, Requests, old', Get(Step(site.like, s, e).scripts, site.url), r);
  }

  lemma AnsweredIsAnswered(site: Site, t: Streams, schedule: seq<Source>, s: State, r: string)
    requires SingleHops(site) && Fits(t, schedule) && User(site, r) && UserNow(site, t, schedule, s, r)
    ensures HasAnswered(t, schedule, r) ==> site.page[r].answer.Answered?
  {
    hide HasAnswered;
  }

  lemma UserResponseStep(site: Site, t: Streams, schedule: seq<Source>, s: State, r: string)
    requires SingleHops(site) && ChainsWellFormed(site.page) && Conforms(site.page, t)
    requires Fits(t, schedule) && Fits(t, schedule + [Responses]) && Taken(schedule, Responses) < |t.responses|
    requires r == t.responses[Taken(schedule, Responses)].id && User(site, r) && SiteNow(site, t, schedule, s)
    ensures var after := Step(site.like, s, t.responses[Taken(schedule, Responses)]);
            && ScriptNow(site, t, schedule + [Responses], Get(after.scripts, site.url))
            && UserNow(site, t, schedule + [Responses], after, r)
  {
    hide OnResponse, EntryNow, ScriptNow, ResponseEvent, Taken, RequestConforms, WritesNow, ChainsWellFormed, Count, SingleHops,
         User;
    var i := Taken(schedule, Responses);
    var e, n, old' := t.responses[i], Sent(t, schedule, r), Get(s.scripts, site.url);
    UserHops(site, r);
    assert ResponseConforms(site.page, t.responses, i);
    ResponseKind(site.page, t, i);
    assert UserNow(site, t, schedule, s, r);
    assert !HasAnswered(t, schedule, r);
    UserResponse(site, r, Get(s.requests, r), s.scripts, n);
    SentSnoc(t, schedule, Responses, r);
    UserWrites(site, t, schedule, Responses, InitiatorField);
    UserWrites(site, t, schedule, Responses, StatusField);
    UserWrites(site, t, schedule, Responses, MimeField);
    WrittenByUser(site, t, schedule, Responses, old', Get(Step(site.like, s, e).scripts, site.url), r);
  }

  lemma SiteStep(site: Site, t: Streams, schedule: seq<Source>, source: Source, s: State)
    requires SingleHops(site) && ChainsWellFormed(site.page) && Conforms(site.page, t)
    requires Fits(t, schedule) && Fits(t, schedule + [source]) && Taken(schedule, source) < |StreamOf(t, source)|
    requires SiteNow(site, t, schedule, s)
    ensures SiteNow(site, t, schedule + [source], Step(site.like, s, StreamOf(t, source)[Taken(schedule, source)]))
  {
    hide ChainsWellFormed, Conforms, Fits, UserNow, ScriptNow, Step, Taken, Touches, User, SingleHops;
    var i := Taken(schedule, source);
    var e := StreamOf(t, source)[i];
    var after := Step(site.like, s, e);
    EventTouches(site.like, site.page, t, source, i, s);
    if source == Requests && User(site, e.id) {
      UserRequestStep(site, t, schedule, s, e.id);
    } else if source == Responses && User(site, e.id) {
      UserResponseStep(site, t, schedule, s, e.id);
    } else {
      OtherEvent(site, t, source, i, s);
      WrittenStays(site, t, schedule, source, Get(s.scripts, site.url));
    }
    forall r | r in site.page && User(site, r) ensures UserNow(site, t, schedule + [source], after, r) {
      if !((source == Requests || source == Responses) && e.id == r) {
        OtherUsers(site, t, schedule, source, s, after, r);
      }
    }
  }

  lemma SiteAtStart(site: Site, t: Streams)
    requires SingleHops(site) && ChainsWellFormed(site.page) && Fits(t, []) && site.url != ""
    ensures SiteNow(site, t, [], Fold(site.like, Merged(t, [])))
  {
    forall r | r in site.page && User(site, r) ensures UserNow(site, t, [], START, r) {
      CountEmpty(r);
      assert t.requests[..0] == [] && t.responses[..0] == [];
    }
  }

  /** At any moment of any merge the site's script is what its last writers wrote. */
  lemma {:induction false} SiteAlways(site: Site, t: Streams, schedule: seq<Source>)
    requires SingleHops(site) && ChainsWellFormed(site.page) && Conforms(site.page, t) && Fits(t, schedule) && site.url != ""
    ensures SiteNow(site, t, schedule, Fold(site.like, Merged(t, schedule)))
    decreases |schedule|
  {
    hide SingleHops, ChainsWellFormed, Conforms, Fits, SiteNow, Fold, Merged, Step, Taken;
    if schedule == [] {
      SiteAtStart(site, t);
    } else {
      var init, source := schedule[..|schedule| - 1], schedule[|schedule| - 1];
      assert schedule == init + [source];
      MergedSnoc(t, init, source);
      FoldSnoc(site.like, Merged(t, init), StreamOf(t, source)[Taken(init, source)]);
      SiteAlways(site, t, init);
      SiteStep(site, t, init, source, Fold(site.like, Merged(t, init)));
    }
  }
}
