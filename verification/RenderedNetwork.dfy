/** The state that four streams of a rendered page's network events are folded into (renderedNetworkState). */
module RenderedNetwork {
  datatype Script = Script(url: string, initiator: string, status: int, contentType: string)

  const NO_SCRIPT := Script("", "", 0, "")

  datatype Kind = ScriptKind | DocumentKind | OtherKind

  datatype Redirect = NoRedirect | Redirect(url: string, status: int, mime: string)

  datatype Initiator = NoInitiator | By(name: string)

  datatype Response = NoResponse | Response(url: string, status: int, mime: string)

  /** url is "" when the event carries no request. */
  datatype NetEvent =
    | RequestWillBeSent(id: string, url: string, initiator: Initiator, redirect: Redirect, kind: Kind)
    | ResponseReceived(id: string, response: Response, kind: Kind)
    | LoadingFinished(id: string)
    | LoadingFailed(id: string)

  datatype State = State(active: set<string>, completed: set<string>, requests: map<string, Script>,
                         scripts: map<string, Script>, status: int, finalUrl: string)

  const START := State({}, {}, map[], map[], 0, "")

  /** mergeRenderedNetworkScript */
  function Merge(existing: Script, update: Script): Script {
    Script(if update.url != "" then update.url else existing.url,
           if update.initiator != "" then update.initiator else existing.initiator,
           if update.status != 0 then update.status else existing.status,
           if update.contentType != "" then update.contentType else existing.contentType)
  }

  function Get(scripts: map<string, Script>, key: string): Script {
    if key in scripts then scripts[key] else NO_SCRIPT
  }

  /** recordScript */
  function Record(scripts: map<string, Script>, script: Script): map<string, Script> {
    if script.url == "" then scripts else scripts[script.url := Merge(Get(scripts, script.url), script)]
  }

  function RecordIf(condition: bool, scripts: map<string, Script>, script: Script): map<string, Script> {
    if condition then Record(scripts, script) else scripts
  }

  /** A request event that follows a redirect first records where the redirect came from. */
  function AfterRedirect(scriptLike: string -> bool, previous: Script, scripts: map<string, Script>, e: NetEvent)
    : map<string, Script>
    requires e.RequestWillBeSent?
  {
    if e.redirect == NoRedirect then scripts
    else
      var redirected := Script(if e.redirect.url != "" then e.redirect.url else previous.url, previous.initiator,
                               e.redirect.status, e.redirect.mime);
      RecordIf(e.kind == ScriptKind || scriptLike(redirected.url), scripts, redirected)
  }

  function RequestEntry(previous: Script, scripts: map<string, Script>, e: NetEvent): Script
    requires e.RequestWillBeSent?
  {
    var plain := Script(if e.url != "" then e.url else previous.url, "", 0, "");
    var same := if previous.url == plain.url then Merge(previous, plain) else plain;
    var named := if e.initiator == NoInitiator then same else same.(initiator := e.initiator.name);
    if named.url in scripts then Merge(scripts[named.url], named) else named
  }

  /** What a request event does to the entry of its request and to the scripts. */
  function OnRequest(scriptLike: string -> bool, previous: Script, scripts: map<string, Script>, e: NetEvent)
    : (Script, map<string, Script>)
    requires e.RequestWillBeSent?
  {
    var before := AfterRedirect(scriptLike, previous, scripts, e);
    var request := RequestEntry(previous, before, e);
    (request, RecordIf(e.kind == ScriptKind || scriptLike(request.url), before, request))
  }

  /** What a response event does to them. */
  function OnResponse(scriptLike: string -> bool, previous: Script, scripts: map<string, Script>, e: NetEvent)
    : (Script, map<string, Script>)
    requires e.ResponseReceived?
  {
    var request :=
      if e.response == NoResponse then previous
      else
        var r := e.response;
        var base := if r.url != "" && previous.url != r.url
                    then Merge(Get(scripts, r.url), Script(r.url, previous.initiator, 0, ""))
                    else previous;
        base.(status := r.status, contentType := r.mime);
    (request, RecordIf((e.kind == ScriptKind || scriptLike(request.url)) && request.url != "", scripts, request))
  }

  /** handleEvent */
  function Step(scriptLike: string -> bool, s: State, e: NetEvent): State {
    match e
    case RequestWillBeSent(id, url, initiator, redirect, kind) =>
      var (request, scripts) := OnRequest(scriptLike, Get(s.requests, id), s.scripts, e);
      s.(active := if id in s.completed then s.active else s.active + {id},
         requests := s.requests[id := request], scripts := scripts)
    case ResponseReceived(id, response, kind) =>
      var (request, scripts) := OnResponse(scriptLike, Get(s.requests, id), s.scripts, e);
      var document := kind == DocumentKind && response != NoResponse;
      s.(requests := s.requests[id := request], scripts := scripts,
         status := if document then response.status else s.status,
         finalUrl := if document then response.url else s.finalUrl)
    case LoadingFinished(id) => s.(completed := s.completed + {id}, active := s.active - {id})
    case LoadingFailed(id) => s.(completed := s.completed + {id}, active := s.active - {id})
  }

  /** The mutex-protected object. */
  class NetworkState {
    var active: set<string>
    var completed: set<string>
    var requests: map<string, Script>
    var scripts: map<string, Script>
    var status: int
    var finalUrl: string
    const scriptLike: string -> bool

    function View(): State
      reads this
    {
      State(active, completed, requests, scripts, status, finalUrl)
    }

    /** Scripts are filed under their own URLs, and no request is both active and completed. */
    ghost predicate Valid()
      reads this
    {
      UrlsAgree(scripts) && active !! completed
    }

    constructor (scriptLike: string -> bool)
      ensures View() == START && this.scriptLike == scriptLike && Valid()
    {
      this.scriptLike := scriptLike;
      active, completed, requests, scripts, status, finalUrl := {}, {}, map[], map[], 0, "";
    }

    method RecordScript(script: Script)
      requires Valid()
      modifies this`scripts
      ensures Valid()
      ensures scripts == Record(old(scripts), script)
    {
      RecordKeepsUrls(scripts, script);
      if script.url == "" {
        return;
      }
      scripts := scripts[script.url := Merge(Get(scripts, script.url), script)];
    }

    method HandleRequest(e: NetEvent)
      requires Valid() && e.RequestWillBeSent?
      modifies this`scripts, this`requests
      ensures Valid()
      ensures var (request, after) := OnRequest(scriptLike, Get(old(requests), e.id), old(scripts), e);
              requests == old(requests)[e.id := request] && scripts == after
    {
      hide Record, Merge, AfterRedirect, RequestEntry, UrlsAgree;
      var previous := Get(requests, e.id);
      RecordRedirect(previous, e);
      var request := NewEntry(previous, e);
      requests := requests[e.id := request];
      if e.kind == ScriptKind || scriptLike(request.url) {
        RecordScript(request);
      }
    }

    method RecordRedirect(previous: Script, e: NetEvent)
      requires Valid() && e.RequestWillBeSent?
      modifies this`scripts
      ensures Valid()
      ensures scripts == AfterRedirect(scriptLike, previous, old(scripts), e)
    {
      hide Record, UrlsAgree;
      if e.redirect.Redirect? {
        var redirected := previous;
        if e.redirect.url != "" {
          redirected := redirected.(url := e.redirect.url);
        }
        redirected := redirected.(status := e.redirect.status, contentType := e.redirect.mime);
        if e.kind == ScriptKind || scriptLike(redirected.url) {
          RecordScript(redirected);
        }
      }
    }

    method NewEntry(previous: Script, e: NetEvent) returns (request: Script)
      requires e.RequestWillBeSent?
      ensures request == RequestEntry(previous, scripts, e)
    {
      request := NO_SCRIPT.(url := e.url);
      if request.url == "" {
        request := request.(url := previous.url);
      }
      if previous.url == request.url {
        request := Merge(previous, request);
      }
      if e.initiator.By? {
        request := request.(initiator := e.initiator.name);
      }
      if request.url in scripts {
        request := Merge(scripts[request.url], request);
      }
    }

    method HandleResponse(e: NetEvent)
      requires Valid() && e.ResponseReceived?
      modifies this`scripts, this`requests
      ensures Valid()
      ensures var (request, after) := OnResponse(scriptLike, Get(old(requests), e.id), old(scripts), e);
              requests == old(requests)[e.id := request] && scripts == after
    {
      hide Record, Merge, UrlsAgree;
      var request := Get(requests, e.id);
      if e.response.Response? {
        if e.response.url != "" && request.url != e.response.url {
          request := Merge(Get(scripts, e.response.url),
                           NO_SCRIPT.(url := e.response.url, initiator := request.initiator));
        }
        request := request.(status := e.response.status, contentType := e.response.mime);
      }
      requests := requests[e.id := request];
      if (e.kind == ScriptKind || scriptLike(request.url)) && request.url != "" {
        RecordScript(request);
      }
    }

    method HandleEvent(e: NetEvent)
      requires Valid()
      modifies this
      ensures Valid()
      ensures View() == Step(scriptLike, old(View()), e)
    {
      hide OnRequest, OnResponse, UrlsAgree;
      match e
      case RequestWillBeSent(id, url, initiator, redirect, kind) =>
        if id !in completed {
          active := active + {id};
        }
        HandleRequest(e);
      case ResponseReceived(id, response, kind) =>
        HandleResponse(e);
        if kind == DocumentKind && response.Response? {
          status := response.status;
          finalUrl := response.url;
        }
      case LoadingFinished(id) =>
        completed := completed + {id};
        active := active - {id};
      case LoadingFailed(id) =>
        completed := completed + {id};
        active := active - {id};
    }
  }

  // ----- what holds after any events in any order

  function Fold(scriptLike: string -> bool, events: seq<NetEvent>): State {
    if events == [] then START
    else Step(scriptLike, Fold(scriptLike, events[..|events| - 1]), events[|events| - 1])
  }

  function Requested(events: seq<NetEvent>): set<string> {
    set e | e in events && e.RequestWillBeSent? :: e.id
  }

  function Ended(events: seq<NetEvent>): set<string> {
    set e | e in events && (e.LoadingFinished? || e.LoadingFailed?) :: e.id
  }

  predicate UrlsAgree(scripts: map<string, Script>) {
    forall u | u in scripts :: scripts[u].url == u && u != ""
  }

  lemma InSnoc(events: seq<NetEvent>, e: NetEvent)
    ensures Requested(events + [e]) == Requested(events) + if e.RequestWillBeSent? then {e.id} else {}
    ensures Ended(events + [e]) == Ended(events) + if e.LoadingFinished? || e.LoadingFailed? then {e.id} else {}
  {
    var all := events + [e];
    assert all[|events|] == e;
    assert forall x | x in events :: x in all;
  }

  /** After any events in any order the active requests are those requested and not ended, and every script is filed
      under its own URL. */
  lemma {:induction false} ActiveIsRequestedMinusEnded(scriptLike: string -> bool, events: seq<NetEvent>)
    ensures var s := Fold(scriptLike, events);
            s.completed == Ended(events) && s.active == Requested(events) - Ended(events) && UrlsAgree(s.scripts)
  {
    if events != [] {
      var before := events[..|events| - 1];
      var e := events[|events| - 1];
      ActiveIsRequestedMinusEnded(scriptLike, before);
      assert events == before + [e];
      InSnoc(before, e);
      StepKeepsUrls(scriptLike, Fold(scriptLike, before), e);
      hide Requested, Ended, UrlsAgree, OnRequest, OnResponse;
    }
  }

  lemma StepKeepsUrls(scriptLike: string -> bool, s: State, e: NetEvent)
    requires UrlsAgree(s.scripts)
    ensures UrlsAgree(Step(scriptLike, s, e).scripts)
  {
    hide UrlsAgree, Record;
    forall scripts, script | UrlsAgree(scripts) ensures UrlsAgree(Record(scripts, script)) {
      RecordKeepsUrls(scripts, script);
    }
  }

  lemma RecordKeepsUrls(scripts: map<string, Script>, script: Script)
    requires UrlsAgree(scripts)
    ensures UrlsAgree(Record(scripts, script))
  {
  }

  /** A script keeps what is known of it: no event takes a script away, or an initiator, a status or a type. */
  predicate Keeps(old': Script, new': Script) {
    && (old'.initiator != "" ==> new'.initiator != "") && (old'.status != 0 ==> new'.status != 0)
    && (old'.contentType != "" ==> new'.contentType != "")
  }

  lemma NothingErased(scriptLike: string -> bool, s: State, e: NetEvent, u: string)
    requires u in s.scripts
    ensures var after := Step(scriptLike, s, e).scripts;
            u in after && Keeps(s.scripts[u], after[u])
  {
    hide Record;
    forall scripts, script ensures u in scripts ==> u in Record(scripts, script) && Keeps(scripts[u], Record(scripts, script)[u]) {
      RecordKeeps(scripts, script, u);
    }
  }

  lemma RecordKeeps(scripts: map<string, Script>, script: Script, u: string)
    ensures u in scripts ==> u in Record(scripts, script) && Keeps(scripts[u], Record(scripts, script)[u])
  {
  }

  predicate IsDocument(e: NetEvent) {
    e.ResponseReceived? && e.kind == DocumentKind && e.response.Response?
  }

  /** After any events status and final URL are those of the last document response, if there was one. */
  lemma {:induction false} DocumentIsLast(scriptLike: string -> bool, events: seq<NetEvent>, k: nat)
    requires k < |events| && IsDocument(events[k]) && forall j | k < j < |events| :: !IsDocument(events[j])
    ensures var s := Fold(scriptLike, events);
            s.status == events[k].response.status && s.finalUrl == events[k].response.url
  {
    hide OnRequest, OnResponse;
    var n := |events| - 1;
    if k < n {
      DocumentIsLast(scriptLike, events[..n], k);
    }
  }
}
