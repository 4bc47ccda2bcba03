/** The four streams of network events end in the same scripts, active and completed requests, however they interleave. */
module RenderedConfluence {
  import opened RenderedNetwork

  // ----- what the browser did

  /** One URL of a redirect chain; status and mime are those of the redirect that left it. */
  datatype Hop = Hop(url: string, initiator: string, status: int, mime: string)

  datatype Answer = Unanswered | Answered(status: int, mime: string)

  /** One request: its resource type, the URLs it went through, the answer its last URL gave, if any. */
  datatype Chain = Chain(kind: Kind, hops: seq<Hop>, answer: Answer)

  type Page = map<string, Chain>

  /** No URL of the request's chain is one of another chain's. */
  predicate Alone(page: Page, r: string)
    requires r in page
  {
    forall q, i, j | q in page && q != r && 0 <= i < |page[r].hops| && 0 <= j < |page[q].hops| ::
      page[r].hops[i].url != page[q].hops[j].url
  }

  predicate ChainsWellFormed(page: Page) {
    forall r | r in page :: ChainWellFormed(page[r])
  }

  /** No URL occurs twice on the page. */
  predicate WellFormed(page: Page) {
    ChainsWellFormed(page) && forall r | r in page :: Alone(page, r)
  }

  /** A chain is not empty, names its URLs and initiators, and repeats no URL. */
  predicate ChainWellFormed(c: Chain) {
    && c.hops != []
    && (forall i | 0 <= i < |c.hops| :: c.hops[i].url != "" && c.hops[i].initiator != "")
    && (forall i, j | 0 <= i < j < |c.hops| :: c.hops[i].url != c.hops[j].url)
  }

  function Last(c: Chain): (k: nat)
    requires c.hops != []
    ensures k == |c.hops| - 1
  {
    |c.hops| - 1
  }

  function RequestEvent(r: string, c: Chain, n: nat): NetEvent
    requires n < |c.hops|
  {
    RequestWillBeSent(r, c.hops[n].url, By(c.hops[n].initiator),
                      if n == 0 then NoRedirect
                      else Redirect(c.hops[n - 1].url, c.hops[n - 1].status, c.hops[n - 1].mime),
                      c.kind)
  }

  function ResponseEvent(r: string, c: Chain): NetEvent
    requires c.hops != [] && c.answer.Answered?
  {
    ResponseReceived(r, Response(c.hops[Last(c)].url, c.answer.status, c.answer.mime), c.kind)
  }

  // ----- one chain, after n of its request events and (d) with or without its response

  predicate Relevant(like: string -> bool, c: Chain, k: nat)
    requires k < |c.hops|
  {
    c.kind == ScriptKind || like(c.hops[k].url)
  }

  function Expected(c: Chain, k: nat, n: nat, d: bool): Script
    requires k < |c.hops| && (d ==> c.answer.Answered?)
  {
    var hop := c.hops[k];
    if k + 1 < n then Script(hop.url, hop.initiator, hop.status, hop.mime)
    else if k == Last(c) && d then Script(hop.url, hop.initiator, c.answer.status, c.answer.mime)
    else Script(hop.url, hop.initiator, 0, "")
  }

  predicate HopOk(like: string -> bool, c: Chain, scripts: map<string, Script>, k: nat, n: nat, d: bool)
    requires k < |c.hops| && (d ==> c.answer.Answered?)
  {
    var u := c.hops[k].url;
    if !Relevant(like, c, k) then u !in scripts
    else if k < n then u in scripts && scripts[u] == Expected(c, k, n, d)
    else if k == Last(c) && d then
      u in scripts && scripts[u].url == u && scripts[u].status == c.answer.status && scripts[u].contentType == c.answer.mime
    else u !in scripts
  }

  predicate HopsOk(like: string -> bool, c: Chain, scripts: map<string, Script>, n: nat, d: bool)
    requires d ==> c.answer.Answered?
  {
    forall k | 0 <= k < |c.hops| :: HopOk(like, c, scripts, k, n, d)
  }

  predicate EntryOk(c: Chain, q: Script, n: nat, d: bool)
    requires c.hops != [] && n <= |c.hops| && (d ==> c.answer.Answered?)
  {
    var last := c.hops[Last(c)].url;
    && (n == 0 && !d ==> q == NO_SCRIPT)
    && (n > 0 ==> q.initiator == c.hops[n - 1].initiator)
    && (n > 0 && !d ==> q.url == c.hops[n - 1].url)
    && (n == |c.hops| ==> q.url == last)
    && (d && n < |c.hops| ==>
          || (q.url == last && q.status == c.answer.status && q.contentType == c.answer.mime)
          || (n > 0 && q.url == c.hops[n - 1].url))
  }

  /** The maps agree on every URL that is not one of the chain's. */
  ghost predicate SameElsewhere(a: map<string, Script>, b: map<string, Script>, c: Chain) {
    forall u | !HasUrl(c, u) :: (u in a <==> u in b) && (u in a ==> a[u] == b[u])
  }

  predicate HasUrl(c: Chain, u: string) {
    exists k | 0 <= k < |c.hops| :: c.hops[k].url == u
  }

  lemma RequestStep(like: string -> bool, r: string, c: Chain, q: Script, scripts: map<string, Script>, n: nat, d: bool)
    requires ChainWellFormed(c) && n < |c.hops| && (d ==> c.answer.Answered?)
    requires EntryOk(c, q, n, d) && HopsOk(like, c, scripts, n, d)
    ensures var (entry, after) := OnRequest(like, q, scripts, RequestEvent(r, c, n));
            EntryOk(c, entry, n + 1, d) && HopsOk(like, c, after, n + 1, d) && SameElsewhere(scripts, after, c)
  {
    var e := RequestEvent(r, c, n);
    var before := AfterRedirect(like, q, scripts, e);
    RedirectStep(like, r, c, q, scripts, n, d);
    EntryStep(like, r, c, q, scripts, before, n, d);
    RecordEntryStep(like, r, c, q, scripts, before, n, d);
  }

  /** HopsOk with the redirect of hop n - 1 already recorded. */
  predicate HopsRedirected(like: string -> bool, c: Chain, scripts: map<string, Script>, n: nat, d: bool)
    requires d ==> c.answer.Answered?
  {
    forall k | 0 <= k < |c.hops| :: HopRedirected(like, c, scripts, k, n, d)
  }

  predicate HopRedirected(like: string -> bool, c: Chain, scripts: map<string, Script>, k: nat, n: nat, d: bool)
    requires k < |c.hops| && (d ==> c.answer.Answered?)
  {
    if k + 1 == n && Relevant(like, c, k)
    then c.hops[k].url in scripts && scripts[c.hops[k].url] == Expected(c, k, n + 1, d)
    else HopOk(like, c, scripts, k, n, d)
  }

  lemma RedirectStep(like: string -> bool, r: string, c: Chain, q: Script, scripts: map<string, Script>, n: nat, d: bool)
    requires ChainWellFormed(c) && n < |c.hops| && (d ==> c.answer.Answered?)
    requires EntryOk(c, q, n, d) && HopsOk(like, c, scripts, n, d)
    ensures var before := AfterRedirect(like, q, scripts, RequestEvent(r, c, n));
            HopsRedirected(like, c, before, n, d) && SameElsewhere(scripts, before, c)
  {
    var before := AfterRedirect(like, q, scripts, RequestEvent(r, c, n));
    if n > 0 {
      assert HopOk(like, c, scripts, n - 1, n, d);
    }
    forall k | 0 <= k < |c.hops|
      ensures HopRedirected(like, c, before, k, n, d)
    {
      assert HopOk(like, c, scripts, k, n, d);
    }
  }

  lemma EntryStep(like: string -> bool, r: string, c: Chain, q: Script, scripts: map<string, Script>,
                  before: map<string, Script>, n: nat, d: bool)
    requires ChainWellFormed(c) && n < |c.hops| && (d ==> c.answer.Answered?)
    requires EntryOk(c, q, n, d) && HopsRedirected(like, c, before, n, d)
    ensures var entry := RequestEntry(q, before, RequestEvent(r, c, n));
            && EntryOk(c, entry, n + 1, d) && entry.url == c.hops[n].url
            && (Relevant(like, c, n) ==> entry == Expected(c, n, n + 1, d))
  {
    assert HopRedirected(like, c, before, n, n, d);
  }

  lemma RecordEntryStep(like: string -> bool, r: string, c: Chain, q: Script, scripts: map<string, Script>,
                        before: map<string, Script>, n: nat, d: bool)
    requires ChainWellFormed(c) && n < |c.hops| && (d ==> c.answer.Answered?)
    requires HopsRedirected(like, c, before, n, d) && SameElsewhere(scripts, before, c)
    requires var entry := RequestEntry(q, before, RequestEvent(r, c, n));
             entry.url == c.hops[n].url && (Relevant(like, c, n) ==> entry == Expected(c, n, n + 1, d))
    ensures var entry := RequestEntry(q, before, RequestEvent(r, c, n));
            var after := RecordIf(c.kind == ScriptKind || like(entry.url), before, entry);
            HopsOk(like, c, after, n + 1, d) && SameElsewhere(scripts, after, c)
  {
    hide RequestEntry;
    var entry := RequestEntry(q, before, RequestEvent(r, c, n));
    var after := RecordIf(c.kind == ScriptKind || like(entry.url), before, entry);
    assert HopRedirected(like, c, before, n, n, d);
    var n' := n + 1;
    forall k | 0 <= k < |c.hops| ensures HopOk(like, c, after, k, n', d) {
      assert HopRedirected(like, c, before, k, n, d);
    }
  }

  lemma ResponseStep(like: string -> bool, r: string, c: Chain, q: Script, scripts: map<string, Script>, n: nat)
    requires ChainWellFormed(c) && n <= |c.hops| && c.answer.Answered?
    requires EntryOk(c, q, n, false) && HopsOk(like, c, scripts, n, false)
    ensures var (entry, after) := OnResponse(like, q, scripts, ResponseEvent(r, c));
            EntryOk(c, entry, n, true) && HopsOk(like, c, after, n, true) && SameElsewhere(scripts, after, c)
  {
    var (entry, after) := OnResponse(like, q, scripts, ResponseEvent(r, c));
    assert HopOk(like, c, scripts, Last(c), n, false);
    forall k | 0 <= k < |c.hops| ensures HopOk(like, c, after, k, n, true) {
      assert HopOk(like, c, scripts, k, n, false);
    }
  }

  /** Whatever the entry, an event changes no script but those of its own chain. */
  lemma RequestTouches(like: string -> bool, r: string, c: Chain, q: Script, scripts: map<string, Script>, n: nat)
    requires ChainWellFormed(c) && n < |c.hops|
    ensures SameElsewhere(scripts, OnRequest(like, q, scripts, RequestEvent(r, c, n)).1, c)
  {
    var e := RequestEvent(r, c, n);
    var before := AfterRedirect(like, q, scripts, e);
    if n > 0 {
      assert HasUrl(c, c.hops[n - 1].url);
    }
    assert SameElsewhere(scripts, before, c);
    var entry := RequestEntry(q, before, e);
    assert entry.url == c.hops[n].url;
    hide AfterRedirect, RequestEntry;
    assert HasUrl(c, entry.url);
  }

  lemma ResponseTouches(like: string -> bool, r: string, c: Chain, q: Script, scripts: map<string, Script>)
    requires ChainWellFormed(c) && c.answer.Answered?
    ensures SameElsewhere(scripts, OnResponse(like, q, scripts, ResponseEvent(r, c)).1, c)
  {
    var entry := OnResponse(like, q, scripts, ResponseEvent(r, c)).0;
    assert entry.url == c.hops[Last(c)].url;
    assert HasUrl(c, entry.url);
  }

  // ----- four streams and their merges

  datatype Streams = Streams(requests: seq<NetEvent>, responses: seq<NetEvent>, finished: seq<NetEvent>,
                             failed: seq<NetEvent>)

  datatype Source = Requests | Responses | Finished | Failed

  function StreamOf(t: Streams, source: Source): seq<NetEvent> {
    match source
    case Requests => t.requests
    case Responses => t.responses
    case Finished => t.finished
    case Failed => t.failed
  }

  function Count(events: seq<NetEvent>, r: string): nat {
    if events == [] then 0
    else Count(events[..|events| - 1], r) + if events[|events| - 1].id == r then 1 else 0
  }

  /** The streams are what the page's chains send: of each request its hops in order, then at most one response; nothing
      is said about how events of different requests alternate in a stream. */
  predicate Conforms(page: Page, t: Streams) {
    && (forall i | 0 <= i < |t.requests| :: RequestConforms(page, t.requests, i))
    && (forall r | r in page :: Count(t.requests, r) == |page[r].hops|)
    && (forall i | 0 <= i < |t.responses| :: ResponseConforms(page, t.responses, i))
    && (forall r | r in page :: Count(t.responses, r) == if page[r].answer.Answered? then 1 else 0)
    && (forall i | 0 <= i < |t.finished| :: t.finished[i].LoadingFinished?)
    && (forall i | 0 <= i < |t.failed| :: t.failed[i].LoadingFailed?)
  }

  predicate RequestConforms(page: Page, requests: seq<NetEvent>, i: nat)
    requires i < |requests|
  {
    var r := requests[i].id;
    && r in page && Count(requests[..i], r) < |page[r].hops|
    && requests[i] == RequestEvent(r, page[r], Count(requests[..i], r))
  }

  predicate ResponseConforms(page: Page, responses: seq<NetEvent>, i: nat)
    requires i < |responses|
  {
    var r := responses[i].id;
    && r in page && page[r].hops != [] && page[r].answer.Answered? && Count(responses[..i], r) == 0
    && responses[i] == ResponseEvent(r, page[r])
  }

  /** How many events of a stream a schedule has taken. */
  function Taken(schedule: seq<Source>, source: Source): nat {
    if schedule == [] then 0
    else Taken(schedule[..|schedule| - 1], source) + if schedule[|schedule| - 1] == source then 1 else 0
  }

  predicate Fits(t: Streams, schedule: seq<Source>) {
    forall source: Source :: Taken(schedule, source) <= |StreamOf(t, source)|
  }

  /** Every event of every stream has been taken. */
  predicate Complete(t: Streams, schedule: seq<Source>) {
    forall source: Source :: Taken(schedule, source) == |StreamOf(t, source)|
  }

  lemma FitsInit(t: Streams, schedule: seq<Source>)
    requires Fits(t, schedule) && schedule != []
    ensures Fits(t, schedule[..|schedule| - 1])
    ensures var source := schedule[|schedule| - 1];
            Taken(schedule[..|schedule| - 1], source) < |StreamOf(t, source)|
  {
    var init := schedule[..|schedule| - 1];
    assert forall source: Source :: Taken(init, source) <= Taken(schedule, source);
    assert Taken(schedule, schedule[|schedule| - 1]) == Taken(init, schedule[|schedule| - 1]) + 1;
  }

  /** The events in the order in which they get the mutex under a schedule. */
  function Merged(t: Streams, schedule: seq<Source>): seq<NetEvent>
    requires Fits(t, schedule)
  {
    if schedule == [] then []
    else
      FitsInit(t, schedule);
      var init, source := schedule[..|schedule| - 1], schedule[|schedule| - 1];
      Merged(t, init) + [StreamOf(t, source)[Taken(init, source)]]
  }

  // ----- the state at any moment

  function Sent(t: Streams, schedule: seq<Source>, r: string): nat
    requires Fits(t, schedule)
  {
    Count(t.requests[..Taken(schedule, Requests)], r)
  }

  predicate HasAnswered(t: Streams, schedule: seq<Source>, r: string)
    requires Fits(t, schedule)
  {
    Count(t.responses[..Taken(schedule, Responses)], r) > 0
  }

  predicate OnPage(page: Page, u: string) {
    exists r :: r in page && HasUrl(page[r], u)
  }

  predicate ChainAt(like: string -> bool, c: Chain, q: Script, scripts: map<string, Script>, n: nat, d: bool) {
    && c.hops != [] && n <= |c.hops| && (d ==> c.answer.Answered?)
    && EntryOk(c, q, n, d) && HopsOk(like, c, scripts, n, d)
  }

  predicate ChainNow(like: string -> bool, page: Page, t: Streams, schedule: seq<Source>, s: State, r: string)
    requires Fits(t, schedule) && r in page
  {
    ChainAt(like, page[r], Get(s.requests, r), s.scripts, Sent(t, schedule, r), HasAnswered(t, schedule, r))
  }

  predicate ScriptsOnPage(page: Page, scripts: map<string, Script>) {
    forall u | u in scripts :: OnPage(page, u)
  }

  lemma CountSnoc(events: seq<NetEvent>, i: nat, r: string)
    requires i < |events|
    ensures Count(events[..i + 1], r) == Count(events[..i], r) + if events[i].id == r then 1 else 0
  {
    assert events[..i + 1][..i] == events[..i];
  }

  lemma CountEmpty(r: string)
    ensures Count([], r) == 0
  {
  }

  lemma OthersStay(like: string -> bool, page: Page, r: string, other: string, q: Script, scripts: map<string, Script>,
                   after: map<string, Script>, n: nat, d: bool)
    requires r in page && other in page && r != other && Alone(page, other)
    requires ChainAt(like, page[other], q, scripts, n, d) && SameElsewhere(scripts, after, page[r])
    ensures ChainAt(like, page[other], q, after, n, d)
  {
    var c := page[other];
    forall k | 0 <= k < |c.hops| ensures HopOk(like, c, after, k, n, d) {
      assert HopOk(like, c, scripts, k, n, d);
      AloneHasNot(page, r, other, k);
    }
  }

  lemma AloneHasNot(page: Page, r: string, other: string, k: nat)
    requires r in page && other in page && r != other && Alone(page, other) && k < |page[other].hops|
    ensures !HasUrl(page[r], page[other].hops[k].url)
  {
  }

  lemma UrlsStayOnPage(page: Page, r: string, scripts: map<string, Script>, after: map<string, Script>)
    requires r in page && ScriptsOnPage(page, scripts) && SameElsewhere(scripts, after, page[r])
    ensures ScriptsOnPage(page, after)
  {
    forall u | u in after ensures OnPage(page, u) {
      if HasUrl(page[r], u) {
        assert OnPage(page, u);
      } else {
        assert u in scripts;
      }
    }
  }

  lemma ChainOfPage(page: Page, r: string)
    requires ChainsWellFormed(page) && r in page
    ensures ChainWellFormed(page[r])
  {
  }

  lemma TakenSnoc(schedule: seq<Source>, source: Source)
    ensures forall x: Source :: Taken(schedule + [source], x) == Taken(schedule, x) + if x == source then 1 else 0
  {
    assert (schedule + [source])[..|schedule|] == schedule;
  }

  /** What one more event changes in what a chain has sent and received. */
  lemma SentSnoc(t: Streams, schedule: seq<Source>, source: Source, x: string)
    requires Fits(t, schedule) && Fits(t, schedule + [source]) && Taken(schedule, source) < |StreamOf(t, source)|
    ensures var next, e := schedule + [source], StreamOf(t, source)[Taken(schedule, source)];
            && Sent(t, next, x) == Sent(t, schedule, x) + (if source == Requests && e.id == x then 1 else 0)
            && HasAnswered(t, next, x) == (HasAnswered(t, schedule, x) || (source == Responses && e.id == x))
  {
    TakenSnoc(schedule, source);
    if source == Requests {
      CountSnoc(t.requests, Taken(schedule, source), x);
    } else if source == Responses {
      CountSnoc(t.responses, Taken(schedule, source), x);
    }
  }

  lemma RequestKind(page: Page, t: Streams, i: nat)
    requires i < |t.requests| && RequestConforms(page, t.requests, i)
    ensures t.requests[i].RequestWillBeSent?
  {
  }

  lemma ResponseKind(page: Page, t: Streams, i: nat)
    requires i < |t.responses| && ResponseConforms(page, t.responses, i)
    ensures t.responses[i].ResponseReceived?
  {
  }

  /** What one more event of any stream leaves alone: scripts of URLs that are not its chain's, entries of other
      requests. */
  ghost predicate Touches(page: Page, s: State, after: State, e: NetEvent) {
    if e.RequestWillBeSent? || e.ResponseReceived? then
      && e.id in page && SameElsewhere(s.scripts, after.scripts, page[e.id])
      && forall x | x != e.id :: Get(after.requests, x) == Get(s.requests, x)
    else after.scripts == s.scripts && after.requests == s.requests
  }

  lemma EventTouches(like: string -> bool, page: Page, t: Streams, source: Source, i: nat, s: State)
    requires ChainsWellFormed(page) && Conforms(page, t) && i < |StreamOf(t, source)|
    ensures Touches(page, s, Step(like, s, StreamOf(t, source)[i]), StreamOf(t, source)[i])
    ensures source == Requests <==> StreamOf(t, source)[i].RequestWillBeSent?
    ensures source == Responses <==> StreamOf(t, source)[i].ResponseReceived?
  {
    var e := StreamOf(t, source)[i];
    match source {
      case Requests =>
        assert RequestConforms(page, t.requests, i);
        RequestKind(page, t, i);
        hide OnRequest, RequestEvent, SameElsewhere, Count;
        ChainOfPage(page, e.id);
        RequestTouches(like, e.id, page[e.id], Get(s.requests, e.id), s.scripts, Count(t.requests[..i], e.id));
      case Responses =>
        assert ResponseConforms(page, t.responses, i);
        ResponseKind(page, t, i);
        hide OnResponse, ResponseEvent, SameElsewhere, Count;
        ChainOfPage(page, e.id);
        ResponseTouches(like, e.id, page[e.id], Get(s.requests, e.id), s.scripts);
      case Finished => assert t.finished[i].LoadingFinished?;
      case Failed => assert t.failed[i].LoadingFailed?;
    }
  }

  lemma OwnRequestKeeps(like: string -> bool, page: Page, t: Streams, schedule: seq<Source>, s: State, r: string)
    requires ChainsWellFormed(page) && Conforms(page, t) && Fits(t, schedule) && Fits(t, schedule + [Requests])
    requires Taken(schedule, Requests) < |t.requests| && t.requests[Taken(schedule, Requests)].id == r
    requires r in page && ChainNow(like, page, t, schedule, s, r)
    ensures ChainNow(like, page, t, schedule + [Requests], Step(like, s, t.requests[Taken(schedule, Requests)]), r)
  {
    hide OnRequest, EntryOk, HopsOk, SameElsewhere, Count, ChainWellFormed, ResponseConforms, Taken, RequestEvent;
    var i := Taken(schedule, Requests);
    assert RequestConforms(page, t.requests, i);
    RequestKind(page, t, i);
    ChainOfPage(page, r);
    RequestStep(like, r, page[r], Get(s.requests, r), s.scripts, Sent(t, schedule, r), HasAnswered(t, schedule, r));
    SentSnoc(t, schedule, Requests, r);
  }

  lemma OwnResponseKeeps(like: string -> bool, page: Page, t: Streams, schedule: seq<Source>, s: State, r: string)
    requires ChainsWellFormed(page) && Conforms(page, t) && Fits(t, schedule) && Fits(t, schedule + [Responses])
    requires Taken(schedule, Responses) < |t.responses| && t.responses[Taken(schedule, Responses)].id == r
    requires r in page && ChainNow(like, page, t, schedule, s, r)
    ensures ChainNow(like, page, t, schedule + [Responses], Step(like, s, t.responses[Taken(schedule, Responses)]), r)
  {
    hide OnResponse, EntryOk, HopsOk, SameElsewhere, Count, ChainWellFormed, RequestConforms, Taken, ResponseEvent;
    var i := Taken(schedule, Responses);
    assert ResponseConforms(page, t.responses, i);
    ResponseKind(page, t, i);
    ChainOfPage(page, r);
    ResponseStep(like, r, page[r], Get(s.requests, r), s.scripts, Sent(t, schedule, r));
    SentSnoc(t, schedule, Responses, r);
  }

  /** Events of other chains, and ends, leave a chain that shares no URL where it is. */
  lemma OtherEventKeeps(like: string -> bool, page: Page, t: Streams, schedule: seq<Source>, source: Source, s: State,
                        after: State, r: string)
    requires Fits(t, schedule) && Fits(t, schedule + [source]) && Taken(schedule, source) < |StreamOf(t, source)|
    requires r in page && Alone(page, r) && ChainNow(like, page, t, schedule, s, r)
    requires var e := StreamOf(t, source)[Taken(schedule, source)];
             && Touches(page, s, after, e) && (source == Requests || source == Responses ==> e.id != r)
             && (source == Requests <==> e.RequestWillBeSent?) && (source == Responses <==> e.ResponseReceived?)
    ensures ChainNow(like, page, t, schedule + [source], after, r)
  {
    hide ChainAt, Alone, SameElsewhere, Sent, HasAnswered, Get, Taken;
    var e := StreamOf(t, source)[Taken(schedule, source)];
    SentSnoc(t, schedule, source, r);
    if source == Requests || source == Responses {
      OthersStay(like, page, e.id, r, Get(s.requests, r), s.scripts, after.scripts, Sent(t, schedule, r),
                 HasAnswered(t, schedule, r));
    }
  }

  lemma FoldSnoc(like: string -> bool, events: seq<NetEvent>, e: NetEvent)
    ensures Fold(like, events + [e]) == Step(like, Fold(like, events), e)
  {
    assert (events + [e])[..|events|] == events;
  }

  lemma MergedSnoc(t: Streams, schedule: seq<Source>, source: Source)
    requires Fits(t, schedule + [source])
    ensures Fits(t, schedule) && Taken(schedule, source) < |StreamOf(t, source)|
    ensures Merged(t, schedule + [source]) == Merged(t, schedule) + [StreamOf(t, source)[Taken(schedule, source)]]
  {
    FitsInit(t, schedule + [source]);
    assert (schedule + [source])[..|schedule|] == schedule;
  }

  /** After any part of any merge, a chain that shares no URL is as far as its own events have come, whatever the other
      chains do. */
  lemma {:induction false} ChainAlways(like: string -> bool, page: Page, t: Streams, schedule: seq<Source>, r: string)
    requires ChainsWellFormed(page) && Conforms(page, t) && Fits(t, schedule) && r in page && Alone(page, r)
    ensures ChainNow(like, page, t, schedule, Fold(like, Merged(t, schedule)), r)
    decreases |schedule|
  {
    hide ChainsWellFormed, Conforms, Fits, ChainNow, Fold, Merged, Step, Taken, Alone, Touches;
    if schedule == [] {
      ChainAtStart(like, page, t, r);
    } else {
      var init, source := schedule[..|schedule| - 1], schedule[|schedule| - 1];
      assert schedule == init + [source];
      MergedSnoc(t, init, source);
      var s, e := Fold(like, Merged(t, init)), StreamOf(t, source)[Taken(init, source)];
      FoldSnoc(like, Merged(t, init), e);
      ChainAlways(like, page, t, init, r);
      EventTouches(like, page, t, source, Taken(init, source), s);
      if source == Requests && e.id == r {
        OwnRequestKeeps(like, page, t, init, s, r);
      } else if source == Responses && e.id == r {
        OwnResponseKeeps(like, page, t, init, s, r);
      } else {
        OtherEventKeeps(like, page, t, init, source, s, Step(like, s, e), r);
      }
    }
  }

  lemma ChainAtStart(like: string -> bool, page: Page, t: Streams, r: string)
    requires ChainsWellFormed(page) && Fits(t, []) && r in page
    ensures Merged(t, []) == [] && ChainNow(like, page, t, [], Fold(like, Merged(t, [])), r)
  {
    ChainOfPage(page, r);
    CountEmpty(r);
    assert t.requests[..0] == [] && t.responses[..0] == [];
  }

  /** No script is filed under a URL that is not on the page. */
  lemma {:induction false} ScriptsAlwaysOnPage(like: string -> bool, page: Page, t: Streams, schedule: seq<Source>)
    requires ChainsWellFormed(page) && Conforms(page, t) && Fits(t, schedule)
    ensures ScriptsOnPage(page, Fold(like, Merged(t, schedule)).scripts)
    decreases |schedule|
  {
    hide ChainsWellFormed, Conforms, Fits, Fold, Merged, Step, Taken, ScriptsOnPage, SameElsewhere;
    if schedule == [] {
      NoScripts(like, page, t);
    } else {
      var init, source := schedule[..|schedule| - 1], schedule[|schedule| - 1];
      assert schedule == init + [source];
      MergedSnoc(t, init, source);
      var s, e := Fold(like, Merged(t, init)), StreamOf(t, source)[Taken(init, source)];
      FoldSnoc(like, Merged(t, init), e);
      ScriptsAlwaysOnPage(like, page, t, init);
      EventTouches(like, page, t, source, Taken(init, source), s);
      if e.RequestWillBeSent? || e.ResponseReceived? {
        UrlsStayOnPage(page, e.id, s.scripts, Step(like, s, e).scripts);
      }
    }
  }

  lemma NoScripts(like: string -> bool, page: Page, t: Streams)
    requires Fits(t, [])
    ensures ScriptsOnPage(page, Fold(like, Merged(t, [])).scripts)
  {
  }

  // ----- complete merges

  /** The last document response of a stream, if any. */
  function LastDocument(responses: seq<NetEvent>): Response {
    if responses == [] then NoResponse
    else
      var e := responses[|responses| - 1];
      if e.ResponseReceived? && e.kind == DocumentKind && e.response.Response? then e.response
      else LastDocument(responses[..|responses| - 1])
  }

  predicate DocumentAt(s: State, last: Response) {
    match last
    case NoResponse => s.status == 0 && s.finalUrl == ""
    case Response(url, status, mime) => s.status == status && s.finalUrl == url
  }

  lemma LastDocumentSnoc(responses: seq<NetEvent>, n: nat)
    requires n < |responses|
    ensures LastDocument(responses[..n + 1])
         == var e := responses[n];
            if e.ResponseReceived? && e.kind == DocumentKind && e.response.Response? then e.response
            else LastDocument(responses[..n])
  {
    assert responses[..n + 1][..n] == responses[..n];
  }

  predicate Sorted(t: Streams) {
    && (forall e | e in t.requests :: e.RequestWillBeSent?)
    && (forall e | e in t.responses :: e.ResponseReceived?)
    && (forall e | e in t.finished :: e.LoadingFinished?)
    && (forall e | e in t.failed :: e.LoadingFailed?)
  }

  /** Status and final URL are those of the last document response of the response stream. */
  lemma {:induction false} DocumentAlways(like: string -> bool, t: Streams, schedule: seq<Source>)
    requires Sorted(t) && Fits(t, schedule)
    ensures DocumentAt(Fold(like, Merged(t, schedule)), LastDocument(t.responses[..Taken(schedule, Responses)]))
    decreases |schedule|
  {
    hide Fits, Fold, Merged, OnRequest, OnResponse, LastDocument, Taken;
    if schedule == [] {
      DocumentAtStart(like, t);
    } else {
      var init, source := schedule[..|schedule| - 1], schedule[|schedule| - 1];
      assert schedule == init + [source];
      MergedSnoc(t, init, source);
      TakenSnoc(init, source);
      FoldSnoc(like, Merged(t, init), StreamOf(t, source)[Taken(init, source)]);
      DocumentAlways(like, t, init);
      var e := StreamOf(t, source)[Taken(init, source)];
      assert e in StreamOf(t, source);
      if source == Responses {
        LastDocumentSnoc(t.responses, Taken(init, source));
      } else {
        assert !e.ResponseReceived?;
      }
    }
  }

  lemma DocumentAtStart(like: string -> bool, t: Streams)
    requires Fits(t, [])
    ensures DocumentAt(Fold(like, Merged(t, [])), LastDocument(t.responses[..Taken([], Responses)]))
  {
    assert t.responses[..0] == [];
  }

  /** Every event of a complete merge is one of some stream, and the other way round. */
  ghost predicate SameElements(events: seq<NetEvent>, t: Streams, schedule: seq<Source>)
    requires Fits(t, schedule)
  {
    forall e :: e in events <==> exists source: Source :: e in StreamOf(t, source)[..Taken(schedule, source)]
  }

  lemma {:induction false} MergedElements(t: Streams, schedule: seq<Source>)
    requires Fits(t, schedule)
    ensures SameElements(Merged(t, schedule), t, schedule)
    decreases |schedule|
  {
    hide Merged, Taken, StreamOf;
    if schedule == [] {
      MergedEmpty(t);
    } else {
      var init, source := schedule[..|schedule| - 1], schedule[|schedule| - 1];
      assert schedule == init + [source];
      MergedSnoc(t, init, source);
      TakenSnoc(init, source);
      MergedElements(t, init);
      var last := StreamOf(t, source)[Taken(init, source)];
      assert StreamOf(t, source)[..Taken(schedule, source)] == StreamOf(t, source)[..Taken(init, source)] + [last];
      forall e ensures e in Merged(t, schedule)
                  <==> exists x: Source :: e in StreamOf(t, x)[..Taken(schedule, x)] {
        if e == last {
          assert e in StreamOf(t, source)[..Taken(schedule, source)];
        } else if x: Source :| e in StreamOf(t, x)[..Taken(init, x)] {
          assert e in StreamOf(t, x)[..Taken(schedule, x)];
        }
      }
    }
  }

  lemma MergedEmpty(t: Streams)
    ensures Fits(t, []) && Merged(t, []) == [] && forall x: Source :: Taken([], x) == 0
  {
  }

  lemma CompleteElements(t: Streams, schedule: seq<Source>)
    requires Fits(t, schedule) && Complete(t, schedule)
    ensures forall e :: e in Merged(t, schedule) <==> e in t.requests || e in t.responses || e in t.finished || e in t.failed
  {
    MergedElements(t, schedule);
    hide Merged, Taken;
    forall x: Source ensures StreamOf(t, x)[..Taken(schedule, x)] == StreamOf(t, x) {
    }
    forall e ensures (exists x: Source :: e in StreamOf(t, x)[..Taken(schedule, x)])
                <==> e in t.requests || e in t.responses || e in t.finished || e in t.failed {
      assert t.requests == StreamOf(t, Requests) && t.responses == StreamOf(t, Responses);
      assert t.finished == StreamOf(t, Finished) && t.failed == StreamOf(t, Failed);
    }
  }

  /** What the page's network ends in: one script per relevant URL of each chain, every hop but the last carrying its
      redirect's status, the last one the answer's; the requests that neither finished nor failed; the last document. */
  ghost predicate FinalState(like: string -> bool, page: Page, t: Streams, s: State) {
    && (forall r, k | r in page && 0 <= k < |page[r].hops| ::
          HopFinal(like, page[r], s.scripts, k))
    && ScriptsOnPage(page, s.scripts)
    && s.active == Requested(t.requests) - (Ended(t.finished) + Ended(t.failed))
    && s.completed == Ended(t.finished) + Ended(t.failed)
    && DocumentAt(s, LastDocument(t.responses))
  }

  predicate HopFinal(like: string -> bool, c: Chain, scripts: map<string, Script>, k: nat)
    requires k < |c.hops|
  {
    HopOk(like, c, scripts, k, |c.hops|, c.answer.Answered?)
  }

  lemma CompleteScripts(like: string -> bool, page: Page, t: Streams, schedule: seq<Source>)
    requires WellFormed(page) && Conforms(page, t) && Fits(t, schedule) && Complete(t, schedule)
    ensures var s := Fold(like, Merged(t, schedule));
            && (forall r, k | r in page && 0 <= k < |page[r].hops| ::
                 HopFinal(like, page[r], s.scripts, k))
            && ScriptsOnPage(page, s.scripts)
  {
    ScriptsAlwaysOnPage(like, page, t, schedule);
    hide Fold, Merged, ScriptsOnPage, HopFinal, ChainsWellFormed, Conforms, Fits, Complete, Alone;
    var s := Fold(like, Merged(t, schedule));
    forall r, k | r in page && 0 <= k < |page[r].hops| ensures HopFinal(like, page[r], s.scripts, k) {
      AloneIsFinal(like, page, t, schedule, r, k);
    }
  }

  /** After a complete merge each URL of a chain that shares none has its final script. */
  lemma AloneIsFinal(like: string -> bool, page: Page, t: Streams, schedule: seq<Source>, r: string, k: nat)
    requires ChainsWellFormed(page) && Conforms(page, t) && Fits(t, schedule) && Complete(t, schedule)
    requires r in page && Alone(page, r) && k < |page[r].hops|
    ensures HopFinal(like, page[r], Fold(like, Merged(t, schedule)).scripts, k)
  {
    ChainAlways(like, page, t, schedule, r);
    hide Fold, Merged, Taken, Count, HopOk, EntryOk, ChainsWellFormed, Alone;
    assert |StreamOf(t, Requests)| == Taken(schedule, Requests) && |StreamOf(t, Responses)| == Taken(schedule, Responses);
    assert t.requests[..|t.requests|] == t.requests && t.responses[..|t.responses|] == t.responses;
  }

  lemma ConformsSorted(page: Page, t: Streams)
    requires Conforms(page, t)
    ensures Sorted(t)
  {
    hide Count;
    forall i | 0 <= i < |t.requests| ensures t.requests[i].RequestWillBeSent? {
      assert RequestConforms(page, t.requests, i);
    }
    forall i | 0 <= i < |t.responses| ensures t.responses[i].ResponseReceived? {
      assert ResponseConforms(page, t.responses, i);
    }
  }

  lemma CompleteSets(t: Streams, schedule: seq<Source>)
    requires Sorted(t) && Fits(t, schedule) && Complete(t, schedule)
    ensures Requested(Merged(t, schedule)) == Requested(t.requests)
    ensures Ended(Merged(t, schedule)) == Ended(t.finished) + Ended(t.failed)
  {
    CompleteElements(t, schedule);
    hide Merged, Complete, Fits;
  }

  /** Whatever the interleaving, the events of a well-formed page fold into the page's final state. */
  lemma EveryMergeIsFinal(like: string -> bool, page: Page, t: Streams, schedule: seq<Source>)
    requires WellFormed(page) && Conforms(page, t) && Fits(t, schedule) && Complete(t, schedule)
    ensures FinalState(like, page, t, Fold(like, Merged(t, schedule)))
  {
    CompleteScripts(like, page, t, schedule);
    ConformsSorted(page, t);
    CompleteSets(t, schedule);
    ActiveIsRequestedMinusEnded(like, Merged(t, schedule));
    DocumentAlways(like, t, schedule);
    assert t.responses[..Taken(schedule, Responses)] == t.responses by {
      assert |StreamOf(t, Responses)| == Taken(schedule, Responses);
    }
    hide WellFormed, Conforms, Fits, Complete, HopOk, Fold, Merged, Taken, LastDocument, DocumentAt, ScriptsOnPage,
         Requested, Ended, UrlsAgree, Sorted;
  }

  /** A page has one final state, up to the entries kept per request. */
  lemma FinalStateIsUnique(like: string -> bool, page: Page, t: Streams, a: State, b: State)
    requires WellFormed(page) && FinalState(like, page, t, a) && FinalState(like, page, t, b)
    ensures a.scripts == b.scripts && a.active == b.active && a.completed == b.completed
    ensures a.status == b.status && a.finalUrl == b.finalUrl
  {
    forall u ensures u in a.scripts ==> u in b.scripts && a.scripts[u] == b.scripts[u] {
      ScriptIsFixed(like, page, t, a, b, u);
    }
    forall u ensures u in b.scripts ==> u in a.scripts {
      ScriptIsFixed(like, page, t, b, a, u);
    }
  }

  lemma ScriptIsFixed(like: string -> bool, page: Page, t: Streams, a: State, b: State, u: string)
    requires FinalState(like, page, t, a) && FinalState(like, page, t, b)
    ensures u in a.scripts ==> u in b.scripts && a.scripts[u] == b.scripts[u]
  {
    hide LastDocument, DocumentAt, Requested, Ended, Relevant;
    if u in a.scripts {
      assert OnPage(page, u);
      var r :| r in page && HasUrl(page[r], u);
      var k :| 0 <= k < |page[r].hops| && page[r].hops[k].url == u;
      assert HopFinal(like, page[r], a.scripts, k) && HopFinal(like, page[r], b.scripts, k);
    }
  }

  /** Confluence: two complete merges of the same streams agree on scripts, active and completed requests, status and
      final URL. */
  lemma Confluence(like: string -> bool, page: Page, t: Streams, one: seq<Source>, two: seq<Source>)
    requires WellFormed(page) && Conforms(page, t)
    requires Fits(t, one) && Complete(t, one) && Fits(t, two) && Complete(t, two)
    ensures var a, b := Fold(like, Merged(t, one)), Fold(like, Merged(t, two));
            && a.scripts == b.scripts && a.active == b.active && a.completed == b.completed
            && a.status == b.status && a.finalUrl == b.finalUrl
  {
    EveryMergeIsFinal(like, page, t, one);
    EveryMergeIsFinal(like, page, t, two);
    hide Fold, Merged, WellFormed, Conforms, FinalState;
    FinalStateIsUnique(like, page, t, Fold(like, Merged(t, one)), Fold(like, Merged(t, two)));
  }

  // ----- why URLs must not be shared

  const FIRST := Chain(ScriptKind, [Hop("/u", "a", 0, "")], Answered(200, "js"))
  const SECOND := Chain(ScriptKind, [Hop("/u", "b", 0, "")], Unanswered)
  const SHARED_PAGE: Page := map["1" := FIRST, "2" := SECOND]
  const SHARED_STREAMS :=
    Streams([RequestEvent("1", FIRST, 0), RequestEvent("2", SECOND, 0)], [ResponseEvent("1", FIRST)], [], [])

  /** Two requests for one URL: the initiator shown depends on whether the first one's response or the second request
      gets the mutex first. */
  lemma SharedUrlDiverges(like: string -> bool)
    ensures Conforms(SHARED_PAGE, SHARED_STREAMS)
    ensures var one, two := [Requests, Requests, Responses], [Requests, Responses, Requests];
            && Fits(SHARED_STREAMS, one) && Complete(SHARED_STREAMS, one)
            && Fits(SHARED_STREAMS, two) && Complete(SHARED_STREAMS, two)
            && Fold(like, Merged(SHARED_STREAMS, one)).scripts == map["/u" := Script("/u", "a", 200, "js")]
            && Fold(like, Merged(SHARED_STREAMS, two)).scripts == map["/u" := Script("/u", "b", 200, "js")]
  {
    SharedStreamsConform();
    SharedMerge([Requests, Requests, Responses], Requests, Responses);
    SharedMerge([Requests, Responses, Requests], Responses, Requests);
    hide Taken, Merged, Fold, Conforms, Fits, Complete;
    SharedFolds(like);
  }

  lemma SharedMerge(schedule: seq<Source>, second: Source, third: Source)
    requires schedule == [Requests, second, third]
    requires (second == Requests && third == Responses) || (second == Responses && third == Requests)
    ensures Fits(SHARED_STREAMS, schedule) && Complete(SHARED_STREAMS, schedule)
    ensures Merged(SHARED_STREAMS, schedule)
         == if second == Requests
            then [RequestEvent("1", FIRST, 0), RequestEvent("2", SECOND, 0), ResponseEvent("1", FIRST)]
            else [RequestEvent("1", FIRST, 0), ResponseEvent("1", FIRST), RequestEvent("2", SECOND, 0)]
  {
    var t := SHARED_STREAMS;
    MergedEmpty(t);
    hide Taken, Merged, RequestEvent, ResponseEvent;
    assert schedule == [Requests] + [second] + [third];
    assert [] + [Requests] == [Requests];
    TakenSnoc([], Requests);
    TakenSnoc([Requests], second);
    TakenSnoc([Requests] + [second], third);
    SharedTaken(schedule);
    MergedSnoc(t, [Requests] + [second], third);
    MergedSnoc(t, [Requests], second);
    MergedSnoc(t, [], Requests);
  }

  lemma SharedTaken(schedule: seq<Source>)
    requires Taken(schedule, Requests) == 2 && Taken(schedule, Responses) == 1
    requires Taken(schedule, Finished) == 0 && Taken(schedule, Failed) == 0
    ensures Fits(SHARED_STREAMS, schedule) && Complete(SHARED_STREAMS, schedule)
  {
    hide Taken;
  }

  lemma SharedFolds(like: string -> bool)
    ensures var (x, y, z) := (RequestEvent("1", FIRST, 0), RequestEvent("2", SECOND, 0), ResponseEvent("1", FIRST));
            && Fold(like, [x, y, z]).scripts == map["/u" := Script("/u", "a", 200, "js")]
            && Fold(like, [x, z, y]).scripts == map["/u" := Script("/u", "b", 200, "js")]
  {
    var x, y, z := RequestEvent("1", FIRST, 0), RequestEvent("2", SECOND, 0), ResponseEvent("1", FIRST);
    assert Fold(like, []) == START;
    SharedFirst(like, x);
    SharedAnswer(like, Step(like, Fold(like, []), x), z, 0, "");
    SharedSecond(like, Step(like, Fold(like, []), x), y, 0, "");
    SharedAnswer(like, Step(like, Step(like, Fold(like, []), x), y), z, 0, "");
    SharedSecond(like, Step(like, Step(like, Fold(like, []), x), z), y, 200, "js");
    hide Fold, Step, RequestEvent, ResponseEvent;
    assert [] + [x] == [x] && [x] + [y] == [x, y] && [x] + [z] == [x, z];
    assert [x, y] + [z] == [x, y, z] && [x, z] + [y] == [x, z, y];
    FoldSnoc(like, [], x);
    FoldSnoc(like, [x], y);
    FoldSnoc(like, [x], z);
    FoldSnoc(like, [x, y], z);
    FoldSnoc(like, [x, z], y);
  }

  lemma SharedFirst(like: string -> bool, x: NetEvent)
    requires x == RequestEvent("1", FIRST, 0)
    ensures var s := Step(like, START, x);
            Get(s.requests, "1") == Script("/u", "a", 0, "") && s.scripts == map["/u" := Script("/u", "a", 0, "")]
  {
  }

  /** The second request takes the script over but leaves the first request's entry alone. */
  lemma SharedSecond(like: string -> bool, s: State, y: NetEvent, status: int, mime: string)
    requires y == RequestEvent("2", SECOND, 0) && "2" !in s.requests
    requires s.scripts == map["/u" := Script("/u", "a", status, mime)]
    ensures var after := Step(like, s, y);
            Get(after.requests, "1") == Get(s.requests, "1") && after.scripts == map["/u" := Script("/u", "b", status, mime)]
  {
  }

  /** The answer brings the first request's own initiator back. */
  lemma SharedAnswer(like: string -> bool, s: State, z: NetEvent, status: int, mime: string)
    requires z == ResponseEvent("1", FIRST) && Get(s.requests, "1") == Script("/u", "a", status, mime)
    requires s.scripts.Keys == {"/u"}
    ensures Step(like, s, z).scripts == map["/u" := Script("/u", "a", 200, "js")]
    ensures "2" !in s.requests ==> "2" !in Step(like, s, z).requests
  {
  }

  lemma SharedStreamsConform()
    ensures Conforms(SHARED_PAGE, SHARED_STREAMS)
  {
    var requests, responses := SHARED_STREAMS.requests, SHARED_STREAMS.responses;
    forall r ensures Count(requests, r) == (if r == "1" || r == "2" then 1 else 0)
              ensures Count(requests[..0], r) == 0 && Count(requests[..1], r) == (if r == "1" then 1 else 0) {
      CountEmpty(r);
      assert requests[..0] == [] && requests[..2] == requests;
      CountSnoc(requests, 0, r);
      CountSnoc(requests, 1, r);
    }
    forall r ensures Count(responses[..0], r) == 0 && Count(responses, r) == (if r == "1" then 1 else 0) {
      CountEmpty(r);
      assert responses[..0] == [] && responses[..1] == responses;
      CountSnoc(responses, 0, r);
    }
    hide Count;
  }
}
