/** Pages on which requests without redirects share URLs: exactly when every interleaving ends in the same scripts. */
module RenderedShared {
  import opened Basics
  import opened RenderedNetwork
  import opened RenderedConfluence
  import opened RenderedWriters

  // ----- settled sites converge

  /** Who writes in the second stream is in the first one too. */
  lemma PartnerTaken(site: Site, t: Streams, field: Field, r: string)
    requires ChainsWellFormed(site.page) && Conforms(site.page, t) && Writes(site, field, r)
    requires Took(StreamOf(t, Second(field)), r)
    ensures Took(StreamOf(t, First(field)), r)
  {
    hide Took, RequestConforms, ResponseConforms;
    TookIsCount(t.requests, r);
    TookIsCount(t.responses, r);
    ChainOfPage(site.page, r);
  }

  /** After a complete merge the last writer is last in its stream. */
  lemma FinalWriter(site: Site, t: Streams, schedule: seq<Source>, field: Field)
    requires ChainsWellFormed(site.page) && Conforms(site.page, t) && Fits(t, schedule) && Complete(t, schedule)
    ensures var w := Writer(site, field, t, schedule);
            var x, y := LastOf(site, field, StreamOf(t, First(field))), LastOf(site, field, StreamOf(t, Second(field)));
            (w == x || w == y) && (w == None ==> x == None) && (y.Some? ==> x.Some?)
  {
    hide Writer, Taken, Writes, Conforms, ChainsWellFormed, LastOf, Took;
    WriterIsLast(site, field, t, schedule);
    WholePrefix(t, schedule, First(field));
    WholePrefix(t, schedule, Second(field));
    var y := LastOf(site, field, StreamOf(t, Second(field)));
    if y.Some? {
      LastIsTook(site, field, StreamOf(t, Second(field)));
      PartnerTaken(site, t, field, y.value);
      SomebodyIsLast(site, field, StreamOf(t, First(field)), y.value);
    }
  }

  lemma WholePrefix(t: Streams, schedule: seq<Source>, source: Source)
    requires Fits(t, schedule) && Complete(t, schedule)
    ensures Prefix(t, schedule, source) == StreamOf(t, source)
  {
    hide Taken;
  }

  lemma LastIsTook(site: Site, field: Field, events: seq<NetEvent>)
    requires LastOf(site, field, events).Some?
    ensures Took(events, LastOf(site, field, events).value)
  {
    hide Writes;
  }

  lemma {:induction false} SomebodyIsLast(site: Site, field: Field, events: seq<NetEvent>, r: string)
    requires Took(events, r) && Writes(site, field, r)
    ensures LastOf(site, field, events).Some?
  {
    hide Writes;
    var init, e := events[..|events| - 1], events[|events| - 1];
    assert events == init + [e];
    TookSnoc(init, e, r);
    if e.id != r {
      SomebodyIsLast(site, field, init, r);
    }
  }

  predicate SameWritten(site: Site, field: Field, a: Option<string>, b: Option<string>)
    requires SingleHops(site) && (a.Some? ==> Writes(site, field, a.value)) && (b.Some? ==> Writes(site, field, b.value))
  {
    a.Some? == b.Some? && (a.Some? ==> SameValue(site, field, a.value, b.value))
  }

  /** On a settled site a complete merge writes what the last event of the first stream writes. */
  lemma SettledWriter(site: Site, t: Streams, schedule: seq<Source>, field: Field)
    requires SingleHops(site) && ChainsWellFormed(site.page) && Conforms(site.page, t)
    requires Fits(t, schedule) && Complete(t, schedule) && Settled(site, t, field)
    ensures SameWritten(site, field, Writer(site, field, t, schedule), LastOf(site, field, StreamOf(t, First(field))))
  {
    hide Writer, Taken, Conforms, ChainsWellFormed, LastOf, SingleHops, User;
    FinalWriter(site, t, schedule, field);
  }

  ghost predicate AllSettled(site: Site, t: Streams)
    requires SingleHops(site)
  {
    forall field: Field :: Settled(site, t, field)
  }

  /** The site's script in the end, described from the streams alone. */
  lemma SettledScript(site: Site, t: Streams, schedule: seq<Source>) returns (q: Script)
    requires SingleHops(site) && ChainsWellFormed(site.page) && Conforms(site.page, t) && site.url != ""
    requires Fits(t, schedule) && Complete(t, schedule) && AllSettled(site, t)
    ensures q == Get(Fold(site.like, Merged(t, schedule)).scripts, site.url)
    ensures q.initiator == InitiatorOf(site, LastOf(site, InitiatorField, t.requests))
    ensures q.status == StatusOf(site, LastOf(site, StatusField, t.responses))
    ensures q.contentType == MimeOf(site, LastOf(site, MimeField, t.responses))
    ensures q.url == if HasUser(site) then site.url else ""
  {
    hide Writer, Taken, Conforms, ChainsWellFormed, LastOf, SingleHops, User, HasUser, Fold, Merged, UserNow, Settled, Fits,
         Complete;
    SiteAlways(site, t, schedule);
    q := Get(Fold(site.like, Merged(t, schedule)).scripts, site.url);
    SettledWriter(site, t, schedule, InitiatorField);
    SettledWriter(site, t, schedule, StatusField);
    SettledWriter(site, t, schedule, MimeField);
    if HasUser(site) {
      UsersAskFirst(site, t);
    }
  }

  lemma UsersAskFirst(site: Site, t: Streams)
    requires SingleHops(site) && ChainsWellFormed(site.page) && Conforms(site.page, t) && HasUser(site)
    ensures LastOf(site, InitiatorField, t.requests).Some?
  {
    var r :| r in site.page && User(site, r);
    hide User, Count, LastOf, RequestConforms, ResponseConforms;
    TookIsCount(t.requests, r);
    ChainOfPage(site.page, r);
    UserHops(site, r);
    hide Conforms, ChainsWellFormed, SingleHops;
    SomebodyIsLast(site, InitiatorField, t.requests, r);
  }

  // ----- unsettled sites diverge

  function Copies(source: Source, n: nat): (s: seq<Source>)
    ensures |s| == n && forall i | 0 <= i < n :: s[i] == source
  {
    seq(n, _ => source)
  }

  lemma CopiesSnoc(source: Source, n: nat)
    ensures Copies(source, n + 1) == Copies(source, n) + [source]
  {
  }

  /** Taking n more events of one stream. */
  lemma {:induction false} TakeCopies(t: Streams, schedule: seq<Source>, source: Source, n: nat)
    requires Fits(t, schedule) && Taken(schedule, source) + n <= |StreamOf(t, source)|
    ensures Fits(t, schedule + Copies(source, n))
    ensures forall x: Source :: Taken(schedule + Copies(source, n), x) == Taken(schedule, x) + if x == source then n else 0
  {
    hide Taken;
    if n == 0 {
      assert schedule + Copies(source, 0) == schedule;
    } else {
      TakeCopies(t, schedule, source, n - 1);
      CopiesSnoc(source, n - 1);
      assert schedule + Copies(source, n) == (schedule + Copies(source, n - 1)) + [source];
      TakenSnoc(schedule + Copies(source, n - 1), source);
    }
  }

  /** Both streams one after the other, then the ends. */
  function InTurn(t: Streams, a: Source, b: Source): seq<Source> {
    Copies(a, |StreamOf(t, a)|) + Copies(b, |StreamOf(t, b)|) + Copies(Finished, |t.finished|) + Copies(Failed, |t.failed|)
  }

  lemma InTurnFits(t: Streams, a: Source, b: Source)
    requires (a == Requests && b == Responses) || (a == Responses && b == Requests)
    ensures Fits(t, InTurn(t, a, b)) && Complete(t, InTurn(t, a, b))
  {
    var one := Copies(a, |StreamOf(t, a)|);
    var two := one + Copies(b, |StreamOf(t, b)|);
    var three := two + Copies(Finished, |t.finished|);
    MergedEmpty(t);
    hide Taken;
    assert [] + one == one;
    TakeCopies(t, [], a, |StreamOf(t, a)|);
    TakeCopies(t, one, b, |StreamOf(t, b)|);
    TakeCopies(t, two, Finished, |t.finished|);
    TakeCopies(t, three, Failed, |t.failed|);
  }

  /** As long as the first stream's last writer is the site's, more of that stream keeps it so. */
  lemma {:induction false} MoreOfFirst(site: Site, field: Field, t: Streams, schedule: seq<Source>, n: nat)
    requires Fits(t, schedule) && Taken(schedule, First(field)) + n <= |StreamOf(t, First(field))|
    requires Writer(site, field, t, schedule) == LastOf(site, field, Prefix(t, schedule, First(field)))
    ensures var more := schedule + Copies(First(field), n);
            Fits(t, more) && Writer(site, field, t, more) == LastOf(site, field, Prefix(t, more, First(field)))
  {
    hide Writer, LastOf, Prefix, Fits, Taken, Writes, First, Took;
    TakeCopies(t, schedule, First(field), n);
    if n == 0 {
      assert schedule + Copies(First(field), 0) == schedule;
    } else {
      var less, source := schedule + Copies(First(field), n - 1), First(field);
      TakeCopies(t, schedule, source, n - 1);
      MoreOfFirst(site, field, t, schedule, n - 1);
      CopiesSnoc(source, n - 1);
      assert schedule + Copies(source, n) == less + [source];
      WriterSnoc(site, field, t, less, source);
      PrefixSnoc(t, less, source, source);
      LastOfSnoc(site, field, Prefix(t, less, source), StreamOf(t, source)[Taken(less, source)]);
    }
  }

  /** Before anything of the first stream, the second writes nothing. */
  lemma {:induction false} SecondAlone(site: Site, field: Field, t: Streams, n: nat)
    requires n <= |StreamOf(t, Second(field))|
    ensures var only := Copies(Second(field), n);
            && Fits(t, only) && Writer(site, field, t, only) == None
            && Taken(only, First(field)) == 0 && Taken(only, Second(field)) == n
  {
    hide Writer, Taken, Writes, Fits;
    MergedEmpty(t);
    TakeCopies(t, [], Second(field), n);
    assert [] + Copies(Second(field), n) == Copies(Second(field), n);
    if n == 0 {
      NobodyWrote(site, field, t);
    } else {
      var less, source := Copies(Second(field), n - 1), Second(field);
      SecondAlone(site, field, t, n - 1);
      CopiesSnoc(source, n - 1);
      WriterSnoc(site, field, t, less, source);
      NothingTook(t, less, First(field));
    }
  }

  lemma NothingTook(t: Streams, schedule: seq<Source>, source: Source)
    requires Fits(t, schedule) && Taken(schedule, source) == 0
    ensures Prefix(t, schedule, source) == [] && forall r :: !Took(Prefix(t, schedule, source), r)
  {
    hide Taken;
  }

  /** After all of the first stream, the second takes over as soon as it writes. */
  lemma {:induction false} ThenSecond(site: Site, field: Field, t: Streams, schedule: seq<Source>, n: nat)
    requires ChainsWellFormed(site.page) && Conforms(site.page, t) && Fits(t, schedule)
    requires Taken(schedule, First(field)) == |StreamOf(t, First(field))| && Taken(schedule, Second(field)) == 0
    requires n <= |StreamOf(t, Second(field))|
    ensures var more := schedule + Copies(Second(field), n);
            && Fits(t, more)
            && var y := LastOf(site, field, Prefix(t, more, Second(field)));
               Writer(site, field, t, more) == if y.Some? then y else Writer(site, field, t, schedule)
  {
    hide Writer, LastOf, Fits, Taken, Writes, Took, Conforms, ChainsWellFormed, Prefix, WritesNow;
    TakeCopies(t, schedule, Second(field), n);
    if n == 0 {
      assert schedule + Copies(Second(field), 0) == schedule;
      NothingTook(t, schedule, Second(field));
      LastOfNone(site, field);
    } else {
      var less, source := schedule + Copies(Second(field), n - 1), Second(field);
      TakeCopies(t, schedule, source, n - 1);
      ThenSecond(site, field, t, schedule, n - 1);
      CopiesSnoc(source, n - 1);
      assert schedule + Copies(source, n) == less + [source];
      WriterSnoc(site, field, t, less, source);
      PrefixSnoc(t, less, source, source);
      LastOfSnoc(site, field, Prefix(t, less, source), StreamOf(t, source)[Taken(less, source)]);
      SecondWritesNow(site, field, t, less);
    }
  }

  /** Once the first stream is all taken, the second writes whenever it has something to write. */
  lemma SecondWritesNow(site: Site, field: Field, t: Streams, schedule: seq<Source>)
    requires ChainsWellFormed(site.page) && Conforms(site.page, t) && Fits(t, schedule)
    requires Taken(schedule, First(field)) == |StreamOf(t, First(field))|
    requires Taken(schedule, Second(field)) < |StreamOf(t, Second(field))|
    ensures WritesNow(site, field, t, schedule, Second(field))
       <==> Writes(site, field, StreamOf(t, Second(field))[Taken(schedule, Second(field))].id)
  {
    hide Taken, Writes, Took, Conforms, ChainsWellFormed;
    var e := StreamOf(t, Second(field))[Taken(schedule, Second(field))];
    assert Prefix(t, schedule, First(field)) == StreamOf(t, First(field));
    IsTook(StreamOf(t, Second(field)), e);
    if Writes(site, field, e.id) {
      PartnerTaken(site, t, field, e.id);
    }
  }

  lemma IsTook(events: seq<NetEvent>, e: NetEvent)
    requires e in events
    ensures Took(events, e.id)
  {
  }

  lemma LastOfNone(site: Site, field: Field)
    ensures LastOf(site, field, []) == None
  {
  }

  /** The ends write nothing. */
  lemma {:induction false} EndsWriteNothing(site: Site, field: Field, t: Streams, schedule: seq<Source>, source: Source,
                                            n: nat)
    requires Fits(t, schedule) && (source == Finished || source == Failed)
    requires Taken(schedule, source) + n <= |StreamOf(t, source)|
    ensures var more := schedule + Copies(source, n);
            Fits(t, more) && Writer(site, field, t, more) == Writer(site, field, t, schedule)
  {
    hide Writer, Fits, Taken, Writes, Took;
    TakeCopies(t, schedule, source, n);
    if n == 0 {
      assert schedule + Copies(source, 0) == schedule;
    } else {
      var less := schedule + Copies(source, n - 1);
      TakeCopies(t, schedule, source, n - 1);
      EndsWriteNothing(site, field, t, schedule, source, n - 1);
      CopiesSnoc(source, n - 1);
      assert schedule + Copies(source, n) == less + [source];
      WriterSnoc(site, field, t, less, source);
    }
  }

  lemma EndsInTurn(site: Site, field: Field, t: Streams, a: Source, b: Source)
    requires (a == Requests && b == Responses) || (a == Responses && b == Requests)
    ensures var two := Copies(a, |StreamOf(t, a)|) + Copies(b, |StreamOf(t, b)|);
            && Fits(t, InTurn(t, a, b)) && Fits(t, two)
            && Writer(site, field, t, InTurn(t, a, b)) == Writer(site, field, t, two)
  {
    hide Writer, Taken, Writes, Took;
    InTurnFits(t, a, b);
    var one := Copies(a, |StreamOf(t, a)|);
    var two := one + Copies(b, |StreamOf(t, b)|);
    var three := two + Copies(Finished, |t.finished|);
    MergedEmpty(t);
    assert [] + one == one;
    TakeCopies(t, [], a, |StreamOf(t, a)|);
    TakeCopies(t, one, b, |StreamOf(t, b)|);
    hide Fits;
    EndsWriteNothing(site, field, t, two, Finished, |t.finished|);
    TakeCopies(t, two, Finished, |t.finished|);
    EndsWriteNothing(site, field, t, three, Failed, |t.failed|);
  }

  /** The first stream before the second, and the other way round. */
  lemma WritersInTurn(site: Site, field: Field, t: Streams)
    requires ChainsWellFormed(site.page) && Conforms(site.page, t)
    ensures var a, b := First(field), Second(field);
            var x, y := LastOf(site, field, StreamOf(t, a)), LastOf(site, field, StreamOf(t, b));
            && Fits(t, InTurn(t, a, b)) && Writer(site, field, t, InTurn(t, a, b)) == (if y.Some? then y else x)
            && Fits(t, InTurn(t, b, a)) && Writer(site, field, t, InTurn(t, b, a)) == x
  {
    hide Writer, LastOf, Taken, Writes, Took, Conforms, ChainsWellFormed;
    var a, b := First(field), Second(field);
    var m, n := |StreamOf(t, a)|, |StreamOf(t, b)|;
    EndsInTurn(site, field, t, a, b);
    EndsInTurn(site, field, t, b, a);
    MergedEmpty(t);
    assert [] + Copies(a, m) == Copies(a, m) && [] + Copies(b, n) == Copies(b, n);
    NobodyWrote(site, field, t);
    TakeCopies(t, [], a, m);
    MoreOfFirst(site, field, t, [], m);
    ThenSecond(site, field, t, Copies(a, m), n);
    TakeCopies(t, Copies(a, m), b, n);
    SecondAlone(site, field, t, n);
    NothingTook(t, Copies(b, n), a);
    LastOfNone(site, field);
    MoreOfFirst(site, field, t, Copies(b, n), m);
    TakeCopies(t, Copies(b, n), a, m);
    assert Prefix(t, Copies(a, m), a) == StreamOf(t, a);
    assert Prefix(t, Copies(a, m) + Copies(b, n), b) == StreamOf(t, b);
    assert Prefix(t, Copies(b, n) + Copies(a, m), a) == StreamOf(t, a);
  }

  /** On a site that is not settled, all requests before all responses and the other way round end differently. */
  lemma UnsettledDiverges(site: Site, t: Streams, field: Field)
    requires SingleHops(site) && ChainsWellFormed(site.page) && Conforms(site.page, t) && site.url != ""
    requires !Settled(site, t, field)
    ensures var one, two := InTurn(t, Requests, Responses), InTurn(t, Responses, Requests);
            && Fits(t, one) && Complete(t, one) && Fits(t, two) && Complete(t, two)
            && Get(Fold(site.like, Merged(t, one)).scripts, site.url) != Get(Fold(site.like, Merged(t, two)).scripts, site.url)
  {
    hide Writer, LastOf, Taken, Conforms, ChainsWellFormed, Fold, Merged, UserNow, SingleHops, User, HasUser, InTurn, Fits,
         Complete;
    InTurnFits(t, Requests, Responses);
    InTurnFits(t, Responses, Requests);
    WritersInTurn(site, field, t);
    SiteAlways(site, t, InTurn(t, Requests, Responses));
    SiteAlways(site, t, InTurn(t, Responses, Requests));
  }

  // ----- exactly when

  ghost predicate SiteConverges(site: Site, t: Streams) {
    forall one, two | Fits(t, one) && Complete(t, one) && Fits(t, two) && Complete(t, two) ::
      Get(Fold(site.like, Merged(t, one)).scripts, site.url) == Get(Fold(site.like, Merged(t, two)).scripts, site.url)
  }

  /** All complete merges agree on the script of a URL that requests without redirects share if and only if, read off the
      streams: the last request for it and the request of the last answer for it have one initiator, and, of the answers
      with a status (a type), the last in the stream of answers and the one to the last request have the same. */
  lemma SiteConvergesIff(site: Site, t: Streams)
    requires SingleHops(site) && ChainsWellFormed(site.page) && Conforms(site.page, t) && site.url != ""
    ensures SiteConverges(site, t) <==> AllSettled(site, t)
  {
    hide SingleHops, ChainsWellFormed, Conforms, Fits, Complete, Fold, Merged, Settled, Get, HasUser;
    if AllSettled(site, t) {
      forall one, two | Fits(t, one) && Complete(t, one) && Fits(t, two) && Complete(t, two)
        ensures Get(Fold(site.like, Merged(t, one)).scripts, site.url) == Get(Fold(site.like, Merged(t, two)).scripts, site.url)
      {
        var a := SettledScript(site, t, one);
        var b := SettledScript(site, t, two);
      }
    } else {
      var field: Field :| !Settled(site, t, field);
      UnsettledDiverges(site, t, field);
    }
  }

  /** Only requests without redirects share their URLs. */
  predicate SharesSingleHops(page: Page) {
    ChainsWellFormed(page) && forall r | r in page && |page[r].hops| > 1 :: Alone(page, r)
  }

  ghost predicate PageConverges(like: string -> bool, t: Streams) {
    forall one, two | Fits(t, one) && Complete(t, one) && Fits(t, two) && Complete(t, two) ::
      var a, b := Fold(like, Merged(t, one)), Fold(like, Merged(t, two));
      && a.scripts == b.scripts && a.active == b.active && a.completed == b.completed
      && a.status == b.status && a.finalUrl == b.finalUrl
  }

  ghost predicate PageSettled(like: string -> bool, page: Page, t: Streams) {
    forall u | u != "" && SingleHops(Site(like, page, u)) :: AllSettled(Site(like, page, u), t)
  }

  /** What complete merges always agree on. */
  lemma RestAgrees(like: string -> bool, page: Page, t: Streams, one: seq<Source>, two: seq<Source>)
    requires Conforms(page, t)
    requires Fits(t, one) && Complete(t, one) && Fits(t, two) && Complete(t, two)
    ensures var a, b := Fold(like, Merged(t, one)), Fold(like, Merged(t, two));
            && a.active == b.active && a.completed == b.completed && a.status == b.status && a.finalUrl == b.finalUrl
            && UrlsAgree(a.scripts) && UrlsAgree(b.scripts)
  {
    ConformsSorted(page, t);
    RestIs(like, t, one);
    RestIs(like, t, two);
    hide Conforms, Fits, Complete, Fold, Merged, UrlsAgree, Sorted;
  }

  lemma RestIs(like: string -> bool, t: Streams, schedule: seq<Source>)
    requires Sorted(t) && Fits(t, schedule) && Complete(t, schedule)
    ensures var s := Fold(like, Merged(t, schedule));
            && s.active == Requested(t.requests) - (Ended(t.finished) + Ended(t.failed))
            && s.completed == Ended(t.finished) + Ended(t.failed)
            && DocumentAt(s, LastDocument(t.responses)) && UrlsAgree(s.scripts)
  {
    hide Fold, Merged, Taken, LastDocument, Requested, Ended, UrlsAgree, Sorted, DocumentAt;
    CompleteSets(t, schedule);
    ActiveIsRequestedMinusEnded(like, Merged(t, schedule));
    DocumentAlways(like, t, schedule);
    assert t.responses[..Taken(schedule, Responses)] == t.responses by {
      assert |StreamOf(t, Responses)| == Taken(schedule, Responses);
    }
  }

  /** On a settled page two complete merges have the same script under every URL. */
  lemma SameScript(like: string -> bool, page: Page, t: Streams, one: seq<Source>, two: seq<Source>, u: string)
    requires SharesSingleHops(page) && Conforms(page, t) && PageSettled(like, page, t) && u != ""
    requires Fits(t, one) && Complete(t, one) && Fits(t, two) && Complete(t, two)
    requires UrlsAgree(Fold(like, Merged(t, one)).scripts) && UrlsAgree(Fold(like, Merged(t, two)).scripts)
    ensures var a, b := Fold(like, Merged(t, one)).scripts, Fold(like, Merged(t, two)).scripts;
            (u in a <==> u in b) && (u in a ==> a[u] == b[u])
  {
    hide Conforms, Fits, Complete, Fold, Merged, AllSettled, ChainsWellFormed, HasUrl, Get, UrlsAgree;
    var site := Site(like, page, u);
    if SingleHops(site) {
      SiteConvergesIff(site, t);
      SameGet(Fold(like, Merged(t, one)).scripts, Fold(like, Merged(t, two)).scripts, u);
    } else {
      var r :| r in page && HasUrl(page[r], u) && |page[r].hops| != 1;
      ChainOfPage(page, r);
      HopsAreMany(page[r]);
      AloneSame(like, page, t, one, two, r, u);
    }
  }

  lemma SameGet(a: map<string, Script>, b: map<string, Script>, u: string)
    requires UrlsAgree(a) && UrlsAgree(b) && u != "" && Get(a, u) == Get(b, u)
    ensures (u in a <==> u in b) && (u in a ==> a[u] == b[u])
  {
  }

  lemma HopsAreMany(c: Chain)
    requires ChainWellFormed(c) && |c.hops| != 1
    ensures |c.hops| > 1
  {
  }

  lemma AloneSame(like: string -> bool, page: Page, t: Streams, one: seq<Source>, two: seq<Source>, r: string, u: string)
    requires ChainsWellFormed(page) && Conforms(page, t) && r in page && Alone(page, r) && HasUrl(page[r], u)
    requires Fits(t, one) && Complete(t, one) && Fits(t, two) && Complete(t, two)
    ensures var a, b := Fold(like, Merged(t, one)).scripts, Fold(like, Merged(t, two)).scripts;
            (u in a <==> u in b) && (u in a ==> a[u] == b[u])
  {
    hide Conforms, Fits, Complete, Fold, Merged, ChainsWellFormed, Alone, Relevant;
    var k :| 0 <= k < |page[r].hops| && page[r].hops[k].url == u;
    AloneIsFinal(like, page, t, one, r, k);
    AloneIsFinal(like, page, t, two, r, k);
  }

  /** A page on which only requests without redirects share URLs ends in the same state under every interleaving if and
      only if each shared URL is settled. */
  lemma ConvergesIff(like: string -> bool, page: Page, t: Streams)
    requires SharesSingleHops(page) && Conforms(page, t)
    ensures PageConverges(like, t) <==> PageSettled(like, page, t)
  {
    if PageSettled(like, page, t) {
      forall one, two | Fits(t, one) && Complete(t, one) && Fits(t, two) && Complete(t, two)
        ensures var a, b := Fold(like, Merged(t, one)), Fold(like, Merged(t, two));
                && a.scripts == b.scripts && a.active == b.active && a.completed == b.completed
                && a.status == b.status && a.finalUrl == b.finalUrl
      {
        SettledPageAgrees(like, page, t, one, two);
      }
    }
    if PageConverges(like, t) {
      forall u | u != "" && SingleHops(Site(like, page, u)) ensures AllSettled(Site(like, page, u), t) {
        SiteOfPage(like, page, t, u);
      }
    }
  }

  lemma SettledPageAgrees(like: string -> bool, page: Page, t: Streams, one: seq<Source>, two: seq<Source>)
    requires SharesSingleHops(page) && Conforms(page, t) && PageSettled(like, page, t)
    requires Fits(t, one) && Complete(t, one) && Fits(t, two) && Complete(t, two)
    ensures var a, b := Fold(like, Merged(t, one)), Fold(like, Merged(t, two));
            && a.scripts == b.scripts && a.active == b.active && a.completed == b.completed
            && a.status == b.status && a.finalUrl == b.finalUrl
  {
    hide SharesSingleHops, Conforms, PageSettled, Fits, Complete, Fold, Merged, UrlsAgree;
    RestAgrees(like, page, t, one, two);
    var a, b := Fold(like, Merged(t, one)).scripts, Fold(like, Merged(t, two)).scripts;
    forall u ensures (u in a <==> u in b) && (u in a ==> a[u] == b[u]) {
      if u != "" {
        SameScript(like, page, t, one, two, u);
      } else {
        NoEmptyUrl(a, b);
      }
    }
  }

  lemma NoEmptyUrl(a: map<string, Script>, b: map<string, Script>)
    requires UrlsAgree(a) && UrlsAgree(b)
    ensures "" !in a && "" !in b
  {
  }

  lemma SiteOfPage(like: string -> bool, page: Page, t: Streams, u: string)
    requires SharesSingleHops(page) && Conforms(page, t) && PageConverges(like, t)
    requires u != "" && SingleHops(Site(like, page, u))
    ensures AllSettled(Site(like, page, u), t)
  {
    hide Conforms, Fits, Complete, Fold, Merged, AllSettled, ChainsWellFormed, SingleHops;
    var site := Site(like, page, u);
    SiteConvergesIff(site, t);
    hide Get;
  }
}
