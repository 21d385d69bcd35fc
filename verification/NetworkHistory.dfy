/** All that the network manager puts out, computed from its events alone: the settings as they were last set, what each
  * request id waits for, and the hops of each live request (src/handler/network.rs:69-279). */
module NetworkHistory {
  import opened Options
  import opened Sequences
  import opened Http
  import opened NetworkSpec
  import NR = NetworkRuns

  // ---------- Settings ----------

  datatype Settings = Settings(
    wish: bool, login: Option<Credentials>, cacheOff: bool, offline: bool, headers: map<string, string>)
  {
    /** Requests are paused for the user, or so that challenges can be answered. */
    predicate Pausing() {
      wish || login.Some?
    }
  }

  /** The settings as the user last made them. */
  function SettingsIn(trace: seq<Event>): Settings {
    if trace == [] then Settings(false, None, false, false, map[])
    else
      var before := SettingsIn(Front(trace));
      match Last(trace)
      case ExtraHeadersSet(headers) => before.(headers := headers)
      case InterceptionSet(enabled) => before.(wish := enabled)
      case CacheEnabledSet(enabled) => before.(cacheOff := !enabled)
      case Authenticated(credentials) => before.(login := Some(credentials))
      case OfflineSet(value) => before.(offline := value)
      case _ => before
  }

  predicate HasSettings(s: Network, settings: Settings) {
    && s.userInterception == settings.wish && s.credentials == settings.login
    && s.userCacheDisabled == settings.cacheOff && s.offline == settings.offline && s.extraHeaders == settings.headers
    && s.protocolInterception == settings.Pausing()
  }

  lemma RequestKeepsSettings(s: Network, event: SentEvent, interception: Option<FetchId>, settings: Settings)
    requires HasSettings(s, settings)
    ensures HasSettings(OnRequest(s, event, interception), settings)
  {
  }

  lemma PausedKeepsSettings(s: Network, paused: PausedEvent, settings: Settings)
    requires HasSettings(s, settings)
    ensures HasSettings(OnRequestPaused(s, paused), settings)
  {
    hide OnRequest;
    var s1 := ContinueUnlessAsked(s, paused.fetchId);
    if paused.networkId.Some? && paused.networkId.value in s1.willBeSent {
      var id := paused.networkId.value;
      RequestKeepsSettings(s1.(willBeSent := s1.willBeSent - {id}), s1.willBeSent[id], Some(paused.fetchId), settings);
    }
  }

  lemma SentKeepsSettings(s: Network, sent: SentEvent, settings: Settings)
    requires HasSettings(s, settings)
    ensures HasSettings(OnWillBeSent(s, sent), settings)
  {
    hide OnRequest;
    RequestKeepsSettings(s, sent, None, settings);
    if sent.requestId in s.interceptionIds {
      RequestKeepsSettings(s.(interceptionIds := s.interceptionIds - {sent.requestId}), sent,
                           Some(s.interceptionIds[sent.requestId]), settings);
    }
  }

  lemma SwitchKeepsSettings(s: Network, settings: Settings)
    requires HasSettings(s.(protocolInterception := settings.Pausing()), settings)
    ensures HasSettings(UpdateInterception(s), settings)
  {
  }

  /** In every run the manager has the settings as they were last made, and pauses requests exactly if they ask for it. */
  lemma {:induction false} SettingsInEveryRun(trace: seq<Event>)
    ensures HasSettings(Run(trace), SettingsIn(trace))
  {
    if trace != [] {
      var s, e, settings := Run(Front(trace)), Last(trace), SettingsIn(trace);
      SettingsInEveryRun(Front(trace));
      hide OnRequestPaused, OnWillBeSent, OnRequest, UpdateInterception, Released, AnswerTo, Run;
      assert Run(trace) == Step(s, e) by { RunOneMore(trace); }
      match e
      case RequestPaused(paused) => PausedKeepsSettings(s, paused, settings);
      case WillBeSent(sent) => SentKeepsSettings(s, sent, settings);
      case InterceptionSet(enabled) => SwitchKeepsSettings(s.(userInterception := enabled), settings);
      case Authenticated(credentials) => SwitchKeepsSettings(s.(credentials := Some(credentials)), settings);
      case _ =>
    } else {
      NR.NothingRun();
    }
  }

  lemma RunOneMore(trace: seq<Event>)
    requires trace != []
    ensures Run(trace) == Step(Run(Front(trace)), Last(trace))
  {
  }

  // ---------- What an id waits for ----------

  /** Of the two events that start a paused request, the one that came first waits for the other. */
  datatype Half = Neither | Announced(sent: SentEvent) | Held(fetchId: FetchId)

  function HalfOf(trace: seq<Event>, id: RequestId): Half {
    if trace == [] then Neither
    else
      var half := HalfOf(Front(trace), id);
      match Last(trace)
      case WillBeSent(sent) =>
        if sent.requestId != id || !SettingsIn(Front(trace)).Pausing() || sent.dataUrl then half
        else if half.Held? then Neither else Announced(sent)
      case RequestPaused(PausedEvent(fetchId, networkId)) =>
        if networkId != Some(id) then half
        else if half.Announced? then Neither else Held(fetchId)
      case _ => half
  }

  /** The tables of unmatched events are what the ids wait for. */
  ghost predicate Halves(s: Network, trace: seq<Event>) {
    forall id ::
      match HalfOf(trace, id)
      case Neither => id !in s.willBeSent && id !in s.interceptionIds
      case Announced(sent) => id in s.willBeSent && s.willBeSent[id] == sent && id !in s.interceptionIds
      case Held(fetchId) => id !in s.willBeSent && id in s.interceptionIds && s.interceptionIds[id] == fetchId
  }

  lemma OthersKeepTables(s: Network, e: Event)
    requires !e.WillBeSent? && !e.RequestPaused?
    ensures Step(s, e).willBeSent == s.willBeSent && Step(s, e).interceptionIds == s.interceptionIds
  {
    hide UpdateInterception, OnResponseReceived, OnLoadingFinished, OnLoadingFailed, OnServedFromCache, OnAuthRequired,
      SetOfflineMode, SetExtraHeaders, SetCacheEnabled, OnRequestPaused, OnWillBeSent;
    match e
    case ExtraHeadersSet(_) => CommandsKeepTables(s, e);
    case CacheEnabledSet(_) => CommandsKeepTables(s, e);
    case OfflineSet(_) => CommandsKeepTables(s, e);
    case AuthRequired(_) => CommandsKeepTables(s, e);
    case ServedFromCache(_) => EndsKeepTables(s, e);
    case InterceptionSet(enabled) => NR.SwitchKeepsRequests(s.(userInterception := enabled));
    case Authenticated(credentials) => NR.SwitchKeepsRequests(s.(credentials := Some(credentials)));
    case ResponseReceived(_, _) => EndsKeepTables(s, e);
    case LoadingFinished(_) => EndsKeepTables(s, e);
    case LoadingFailed(_, _) => EndsKeepTables(s, e);
    case _ =>
  }

  lemma CommandsKeepTables(s: Network, e: Event)
    requires e.ExtraHeadersSet? || e.CacheEnabledSet? || e.OfflineSet? || e.AuthRequired?
    ensures Step(s, e).willBeSent == s.willBeSent && Step(s, e).interceptionIds == s.interceptionIds
  {
    hide AnswerTo;
  }

  lemma EndsKeepTables(s: Network, e: Event)
    requires e.ServedFromCache? || e.ResponseReceived? || e.LoadingFinished? || e.LoadingFailed?
    ensures Step(s, e).willBeSent == s.willBeSent && Step(s, e).interceptionIds == s.interceptionIds
  {
    hide Released;
  }

  lemma RequestKeepsTables(s: Network, event: SentEvent, interception: Option<FetchId>)
    ensures OnRequest(s, event, interception).willBeSent == s.willBeSent
    ensures OnRequest(s, event, interception).interceptionIds == s.interceptionIds
  {
  }

  lemma SentTables(s: Network, sent: SentEvent)
    ensures var s', id := OnWillBeSent(s, sent), sent.requestId;
            if !s.protocolInterception || sent.dataUrl then
              s'.willBeSent == s.willBeSent && s'.interceptionIds == s.interceptionIds
            else if id in s.interceptionIds then
              s'.willBeSent == s.willBeSent && s'.interceptionIds == s.interceptionIds - {id}
            else s'.willBeSent == s.willBeSent[id := sent] && s'.interceptionIds == s.interceptionIds
  {
    hide OnRequest;
    RequestKeepsTables(s, sent, None);
    if sent.requestId in s.interceptionIds {
      RequestKeepsTables(s.(interceptionIds := s.interceptionIds - {sent.requestId}), sent,
                         Some(s.interceptionIds[sent.requestId]));
    }
  }

  lemma PausedTables(s: Network, paused: PausedEvent)
    ensures var s' := OnRequestPaused(s, paused);
            if paused.networkId.None? then s'.willBeSent == s.willBeSent && s'.interceptionIds == s.interceptionIds
            else
              var id := paused.networkId.value;
              if id in s.willBeSent then s'.willBeSent == s.willBeSent - {id} && s'.interceptionIds == s.interceptionIds
              else s'.willBeSent == s.willBeSent && s'.interceptionIds == s.interceptionIds[id := paused.fetchId]
  {
    hide OnRequest;
    var s1 := ContinueUnlessAsked(s, paused.fetchId);
    if paused.networkId.Some? && paused.networkId.value in s1.willBeSent {
      var id := paused.networkId.value;
      RequestKeepsTables(s1.(willBeSent := s1.willBeSent - {id}), s1.willBeSent[id], Some(paused.fetchId));
    }
  }

  lemma SentHalves(s: Network, trace: seq<Event>)
    requires trace != [] && Last(trace).WillBeSent? && Halves(s, Front(trace))
    requires s.protocolInterception == SettingsIn(Front(trace)).Pausing()
    ensures Halves(Step(s, Last(trace)), trace)
  {
    SentTables(s, Last(trace).sent);
    hide OnWillBeSent, SettingsIn;
  }

  lemma PausedHalves(s: Network, trace: seq<Event>)
    requires trace != [] && Last(trace).RequestPaused? && Halves(s, Front(trace))
    ensures Halves(Step(s, Last(trace)), trace)
  {
    PausedTables(s, Last(trace).paused);
    hide OnRequestPaused, SettingsIn;
  }

  lemma OtherHalves(s: Network, trace: seq<Event>)
    requires trace != [] && !Last(trace).WillBeSent? && !Last(trace).RequestPaused? && Halves(s, Front(trace))
    ensures Halves(Step(s, Last(trace)), trace)
  {
    OthersKeepTables(s, Last(trace));
    hide Step, SettingsIn;
  }

  lemma {:induction false} HalvesInEveryRun(trace: seq<Event>)
    ensures Halves(Run(trace), trace)
  {
    if trace == [] {
      NR.NothingRun();
    } else {
      var s, e := Run(Front(trace)), Last(trace);
      HalvesInEveryRun(Front(trace));
      SettingsInEveryRun(Front(trace));
      RunOneMore(trace);
      hide Step, Run, SettingsIn, Halves;
      if e.WillBeSent? {
        SentHalves(s, trace);
      } else if e.RequestPaused? {
        PausedHalves(s, trace);
      } else {
        OtherHalves(s, trace);
      }
    }
  }

  /** The request that an event starts after a run. */
  function StartIn(before: seq<Event>, e: Event): Option<Start> {
    match e
    case WillBeSent(sent) =>
      if !SettingsIn(before).Pausing() || sent.dataUrl then Some(Start(sent, None))
      else (match HalfOf(before, sent.requestId) case Held(fetchId) => Some(Start(sent, Some(fetchId))) case _ => None)
    case RequestPaused(PausedEvent(fetchId, Some(id))) =>
      (match HalfOf(before, id) case Announced(sent) => Some(Start(sent, Some(fetchId))) case _ => None)
    case _ => None
  }

  lemma StartsAgree(before: seq<Event>, e: Event)
    ensures StartOf(Run(before), e) == StartIn(before, e)
  {
    SettingsInEveryRun(before);
    HalvesInEveryRun(before);
    hide Run, SettingsIn, HalfOf;
  }

  // ---------- The hops of a live request ----------

  /** One hop of a request: where it was asked for, how it was paired, and the response that redirected it. */
  datatype Hop = Hop(
    frame: Option<FrameId>, interception: Option<FetchId>, allow: bool, cached: bool, response: Option<HttpResponse>)

  /** The hops so far of the live request with this id, the present one last. */
  function HopsOf(trace: seq<Event>, id: RequestId): seq<Hop> {
    if trace == [] then []
    else
      var before, e := Front(trace), Last(trace);
      var hops, start := HopsOf(before, id), StartIn(before, e);
      if start.Some? then
        var event := start.value.event;
        if event.requestId != id then hops
        else
          var earlier :=
            if event.redirect.Some? && hops != [] then Front(hops) + [Last(hops).(response := event.redirect)] else [];
          earlier + [Hop(event.frame, start.value.interception, SettingsIn(before).wish, false, None)]
      else
        match e
        case ServedFromCache(served) => if served == id && hops != [] then Front(hops) + [Last(hops).(cached := true)] else hops
        case ResponseReceived(ended, _) => if ended == id then [] else hops
        case LoadingFinished(ended) => if ended == id then [] else hops
        case LoadingFailed(ended, _) => if ended == id then [] else hops
        case _ => hops
  }

  function HopRequest(id: RequestId, hop: Hop): HttpRequest {
    HttpRequest(id, hop.cached, None, hop.interception, hop.response, hop.frame, hop.allow, [])
  }

  /** The request that has these hops. */
  function RequestWith(id: RequestId, hops: seq<Hop>): HttpRequest
    requires hops != []
  {
    var earlier := Front(hops);
    HopRequest(id, Last(hops)).(
      redirectChain := seq(|earlier|, i requires 0 <= i < |earlier| => HopRequest(id, earlier[i])))
  }

  /** Exactly if the id has hops it is live, with these hops and nothing else. */
  ghost predicate LiveAt(requests: map<RequestId, HttpRequest>, id: RequestId, hops: seq<Hop>) {
    && (id in requests <==> hops != [])
    && (hops != [] ==> id in requests && requests[id] == RequestWith(id, hops))
  }

  /** Exactly the ids with hops are live, each with its hops and nothing else. */
  ghost predicate Live(requests: map<RequestId, HttpRequest>, trace: seq<Event>) {
    forall id :: LiveAt(requests, id, HopsOf(trace, id))
  }

  lemma Redirected(s: Network, event: SentEvent, interception: Option<FetchId>, hops: seq<Hop>)
    requires hops != [] && event.redirect.Some? && event.requestId in s.requests
    requires s.requests[event.requestId] == RequestWith(event.requestId, hops) && Last(hops).response.None?
    ensures var now := Hop(event.frame, interception, s.userInterception, false, None);
            var longer := Front(hops) + [Last(hops).(response := event.redirect)] + [now];
            OnRequest(s, event, interception).requests ==
              s.requests[event.requestId := RequestWith(event.requestId, longer)]
  {
    var id := event.requestId;
    var now := Hop(event.frame, interception, s.userInterception, false, None);
    var last := Last(hops).(response := event.redirect);
    var longer := Front(hops) + [last] + [now];
    assert Front(longer) == Front(hops) + [last] && Last(longer) == now;
    var r := OnRequest(s, event, interception).requests[id];
    assert s.requests[id].(response := event.redirect, redirectChain := []) == HopRequest(id, last);
    assert r.redirectChain == RequestWith(id, longer).redirectChain;
  }

  lemma StartedAnew(s: Network, event: SentEvent, interception: Option<FetchId>)
    requires event.redirect.None? || event.requestId !in s.requests
    ensures OnRequest(s, event, interception).requests ==
            s.requests[event.requestId :=
              RequestWith(event.requestId, [Hop(event.frame, interception, s.userInterception, false, None)])]
  {
    var now := Hop(event.frame, interception, s.userInterception, false, None);
    assert Front([now]) == [] && Last([now]) == now;
    assert RequestWith(event.requestId, [now]).redirectChain == [];
  }

  lemma ServedHops(id: RequestId, hops: seq<Hop>)
    requires hops != []
    ensures var cached := Front(hops) + [Last(hops).(cached := true)];
            RequestWith(id, hops).(fromMemoryCache := true) == RequestWith(id, cached)
  {
    var cached := Front(hops) + [Last(hops).(cached := true)];
    assert Front(cached) == Front(hops) && Last(cached) == Last(hops).(cached := true);
  }

  /** The present hop has no response yet. */
  lemma {:induction false} PresentHopIsOpen(trace: seq<Event>, id: RequestId)
    ensures HopsOf(trace, id) != [] ==> Last(HopsOf(trace, id)).response.None?
  {
    if trace != [] {
      hide StartIn, SettingsIn;
      PresentHopIsOpen(Front(trace), id);
    }
  }

  lemma HopsOneMore(trace: seq<Event>, id: RequestId)
    requires trace != [] && StartIn(Front(trace), Last(trace)).None?
    ensures var hops, e := HopsOf(Front(trace), id), Last(trace);
            HopsOf(trace, id) ==
              if e.ServedFromCache? && e.id == id && hops != [] then Front(hops) + [Last(hops).(cached := true)]
              else if (e.ResponseReceived? || e.LoadingFinished? || e.LoadingFailed?) && NR.EndedId(e) == id then []
              else hops
  {
    hide StartIn, SettingsIn;
  }

  lemma StartKeepsOthers(trace: seq<Event>, id: RequestId)
    requires trace != [] && StartIn(Front(trace), Last(trace)).Some?
    ensures var hops, start := HopsOf(Front(trace), id), StartIn(Front(trace), Last(trace)).value;
            var now := Hop(start.event.frame, start.interception, SettingsIn(Front(trace)).wish, false, None);
            HopsOf(trace, id) ==
              if start.event.requestId != id then hops
              else (if start.event.redirect.Some? && hops != []
                    then Front(hops) + [Last(hops).(response := start.event.redirect)] else []) + [now]
  {
    hide StartIn, SettingsIn;
  }

  /** The hops of a request that starts, after those of the live one that it redirects. */
  function Started(hops: seq<Hop>, event: SentEvent, now: Hop): seq<Hop> {
    (if event.redirect.Some? && hops != [] then Front(hops) + [Last(hops).(response := event.redirect)] else []) + [now]
  }

  lemma StartMakes(s: Network, event: SentEvent, interception: Option<FetchId>, hops: seq<Hop>)
    requires LiveAt(s.requests, event.requestId, hops) && (hops != [] ==> Last(hops).response.None?)
    ensures var now := Hop(event.frame, interception, s.userInterception, false, None);
            OnRequest(s, event, interception).requests ==
              s.requests[event.requestId := RequestWith(event.requestId, Started(hops, event, now))]
  {
    var now := Hop(event.frame, interception, s.userInterception, false, None);
    if event.redirect.Some? && hops != [] {
      Redirected(s, event, interception, hops);
    } else {
      StartedAnew(s, event, interception);
      assert [] + [now] == [now];
    }
    hide RequestWith, OnRequest;
  }

  lemma StartStaysLive(trace: seq<Event>, start: Start)
    requires trace != [] && Live(Run(Front(trace)).requests, Front(trace))
    requires StartIn(Front(trace), Last(trace)) == Some(start)
    ensures Live(OnRequest(Run(Front(trace)), start.event, start.interception).requests, trace)
  {
    var s, id := Run(Front(trace)), start.event.requestId;
    var hops, now := HopsOf(Front(trace), id), Hop(start.event.frame, start.interception, s.userInterception, false, None);
    SettingsInEveryRun(Front(trace));
    PresentHopIsOpen(Front(trace), id);
    hide HopsOf, Run, StartIn, OnRequest, RequestWith;
    assert LiveAt(s.requests, id, hops);
    StartMakes(s, start.event, start.interception, hops);
    StartKeepsOthers(trace, id);
    var longer := Started(hops, start.event, now);
    LiveUpdated(s.requests, id, longer);
    hide SettingsIn, LiveAt, Started;
    forall other
      ensures LiveAt(s.requests[id := RequestWith(id, longer)], other, HopsOf(trace, other))
    {
      if other != id {
        StartKeepsOthers(trace, other);
        assert LiveAt(s.requests, other, HopsOf(Front(trace), other));
      }
    }
  }

  lemma LiveUpdated(requests: map<RequestId, HttpRequest>, id: RequestId, hops: seq<Hop>)
    requires hops != []
    ensures var after := requests[id := RequestWith(id, hops)];
            && LiveAt(after, id, hops)
            && forall other, h | other != id && LiveAt(requests, other, h) :: LiveAt(after, other, h)
  {
    hide RequestWith;
  }

  /** In every run the live requests are those with hops: started and not ended since, each hop with the frame, the pause
    * and the wish it started with, and with the response that redirected it. */
  lemma {:induction false} RequestsInEveryRun(trace: seq<Event>)
    ensures Live(Run(trace).requests, trace)
  {
    if trace == [] {
      NR.NothingRun();
    } else {
      var before, e := Front(trace), Last(trace);
      var s := Run(before);
      RequestsInEveryRun(before);
      StartsAgree(before, e);
      NR.StartAndEnd(s, e);
      RunOneMore(trace);
      if StartOf(s, e).Some? {
        StartStaysLive(trace, StartOf(s, e).value);
      } else {
        OtherStaysLive(trace);
      }
    }
  }

  lemma OtherStaysLive(trace: seq<Event>)
    requires trace != [] && Live(Run(Front(trace)).requests, Front(trace))
    requires StartIn(Front(trace), Last(trace)).None? && StartOf(Run(Front(trace)), Last(trace)).None?
    ensures Live(Step(Run(Front(trace)), Last(trace)).requests, trace)
  {
    var s, e := Run(Front(trace)), Last(trace);
    forall id
      ensures LiveAt(Step(s, e).requests, id, HopsOf(trace, id))
    {
      HopsOneMore(trace, id);
      OtherStaysLiveAt(s, e, id, HopsOf(Front(trace), id));
    }
  }

  lemma OtherStaysLiveAt(s: Network, e: Event, id: RequestId, hops: seq<Hop>)
    requires LiveAt(s.requests, id, hops) && StartOf(s, e).None?
    ensures LiveAt(Step(s, e).requests, id,
                   if e.ServedFromCache? && e.id == id && hops != [] then Front(hops) + [Last(hops).(cached := true)]
                   else if (e.ResponseReceived? || e.LoadingFinished? || e.LoadingFailed?) && NR.EndedId(e) == id then []
                   else hops)
  {
    hide RequestWith, Step;
    if e.ServedFromCache? {
      ServedStaysLive(s, e.id, id, hops);
    } else if e.ResponseReceived? || e.LoadingFinished? || e.LoadingFailed? {
      NR.EndsRemove(s, e);
    } else {
      NR.StartAndEnd(s, e);
    }
  }

  lemma ServedStaysLive(s: Network, served: RequestId, id: RequestId, hops: seq<Hop>)
    requires LiveAt(s.requests, id, hops)
    ensures LiveAt(Step(s, ServedFromCache(served)).requests, id,
                   if served == id && hops != [] then Front(hops) + [Last(hops).(cached := true)] else hops)
  {
    NR.ServingStep(s, served);
    hide Step;
    if served == id && hops != [] {
      ServedHops(id, hops);
      var longer := Front(hops) + [Last(hops).(cached := true)];
      hide RequestWith;
      assert OnServedFromCache(s, id).requests == s.requests[id := RequestWith(id, longer)];
      assert longer != [];
    } else {
      hide RequestWith;
      assert OnServedFromCache(s, served).requests ==
        if served in s.requests then s.requests[served := s.requests[served].(fromMemoryCache := true)] else s.requests;
    }
  }

  // ---------- Challenges ----------

  /** The event redirects, finishes or fails a request whose present hop was paused under this id. */
  predicate LetsGo(before: seq<Event>, e: Event, fetchId: FetchId) {
    var start := StartIn(before, e);
    var id := if start.Some? then start.value.event.requestId else NR.EndedId(e);
    var hops := HopsOf(before, id);
    && hops != [] && Last(hops).interception == Some(fetchId)
    && if start.Some? then start.value.event.redirect.Some? else e.LoadingFinished? || e.LoadingFailed?
  }

  /** The credentials were offered for this id, and no request paused under it ended or moved on since. */
  predicate Offered(trace: seq<Event>, fetchId: FetchId) {
    trace != [] &&
    var before, e := Front(trace), Last(trace);
    if e == AuthRequired(fetchId) then Offered(before, fetchId) || SettingsIn(before).login.Some?
    else Offered(before, fetchId) && !LetsGo(before, e, fetchId)
  }

  lemma LetsGoReleases(before: seq<Event>, e: Event, fetchId: FetchId)
    ensures NR.Releases(Run(before), e, fetchId) <==> LetsGo(before, e, fetchId)
  {
    StartsAgree(before, e);
    RequestsInEveryRun(before);
    hide Run, StartOf, HopsOf, HalfOf, SettingsIn;
    var start := StartIn(before, e);
    var id := if start.Some? then start.value.event.requestId else NR.EndedId(e);
    assert id in Run(before).requests <==> HopsOf(before, id) != [];
  }

  lemma NothingMoreTried(s: Network, e: Event, fetchId: FetchId)
    requires fetchId !in s.attempted
    ensures fetchId in Step(s, e).attempted <==> e == AuthRequired(fetchId) && s.credentials.Some?
  {
    hide OnRequestPaused, OnWillBeSent, UpdateInterception;
    match e
    case RequestPaused(paused) => PausedTriesNothing(s, paused);
    case WillBeSent(sent) => SentTriesNothing(s, sent);
    case InterceptionSet(enabled) => NR.SwitchKeepsRequests(s.(userInterception := enabled));
    case Authenticated(credentials) => NR.SwitchKeepsRequests(s.(credentials := Some(credentials)));
    case _ =>
  }

  lemma PausedTriesNothing(s: Network, paused: PausedEvent)
    ensures OnRequestPaused(s, paused).attempted <= s.attempted
  {
    hide OnRequest;
    var s1 := ContinueUnlessAsked(s, paused.fetchId);
    if paused.networkId.Some? && paused.networkId.value in s1.willBeSent {
      var id := paused.networkId.value;
      NR.AttemptsAfterRequest(s1.(willBeSent := s1.willBeSent - {id}), s1.willBeSent[id], Some(paused.fetchId));
    }
  }

  lemma SentTriesNothing(s: Network, sent: SentEvent)
    ensures OnWillBeSent(s, sent).attempted <= s.attempted
  {
    hide OnRequest;
    NR.AttemptsAfterRequest(s, sent, None);
    if sent.requestId in s.interceptionIds {
      NR.AttemptsAfterRequest(s.(interceptionIds := s.interceptionIds - {sent.requestId}), sent,
                              Some(s.interceptionIds[sent.requestId]));
    }
  }

  lemma {:induction false} OffersInEveryRun(trace: seq<Event>, fetchId: FetchId)
    ensures fetchId in Run(trace).attempted <==> Offered(trace, fetchId)
  {
    if trace == [] {
      NR.NothingRun();
    } else {
      var before, e := Front(trace), Last(trace);
      var s := Run(before);
      OffersInEveryRun(before, fetchId);
      SettingsInEveryRun(before);
      LetsGoReleases(before, e, fetchId);
      RunOneMore(trace);
      ChallengeReleasesNothing(s, fetchId);
      hide Run, Step, SettingsIn, LetsGo, NR.Releases;
      if fetchId in s.attempted {
        NR.AttemptsOnlyReleased(s, e, fetchId);
      } else {
        NothingMoreTried(s, e, fetchId);
      }
    }
  }

  lemma ChallengeReleasesNothing(s: Network, fetchId: FetchId)
    ensures !NR.Releases(s, AuthRequired(fetchId), fetchId)
  {
  }

  // ---------- Everything put out ----------

  /** The commands that an event makes the manager send after a run. */
  function CommandsBy(before: seq<Event>, e: Event): seq<Command> {
    var settings := SettingsIn(before);
    match e
    case ExtraHeadersSet(headers) => [ExtraHeaders(headers)]
    case CacheEnabledSet(enabled) => [SetCacheDisabled(!enabled || settings.Pausing())]
    case OfflineSet(value) => if settings.offline == value then [] else [EmulateOffline(value)]
    case InterceptionSet(enabled) =>
      if settings.login.Some? || enabled == settings.wish then []
      else [SetCacheDisabled(settings.cacheOff || settings.wish), if enabled then FetchEnable else FetchDisable]
    case Authenticated(_) => if settings.Pausing() then [] else [SetCacheDisabled(settings.cacheOff), FetchEnable]
    case RequestPaused(paused) => if settings.login.Some? && !settings.wish then [ContinueRequest(paused.fetchId)] else []
    case AuthRequired(fetchId) =>
      [ContinueWithAuth(fetchId,
                        if Offered(before, fetchId) then CancelAuth
                        else if settings.login.Some? then ProvideCredentials else Default,
                        settings.login)]
    case _ => []
  }

  /** The start or the end of a request that the manager reports. */
  function ReportsBy(before: seq<Event>, e: Event): seq<NetworkEvent> {
    var start := StartIn(before, e);
    if start.Some? then [RequestStarted(start.value.event.requestId)]
    else
      var hops := HopsOf(before, NR.EndedId(e));
      if hops == [] then []
      else
        match e
        case ResponseReceived(id, response) => [RequestFinished(RequestWith(id, hops).(response := Some(response)))]
        case LoadingFinished(id) => [RequestFinished(RequestWith(id, hops))]
        case LoadingFailed(id, text) => [RequestFailed(RequestWith(id, hops).(failureText := Some(text)))]
        case _ => []
  }

  function Requests(commands: seq<Command>): seq<NetworkEvent> {
    seq(|commands|, i requires 0 <= i < |commands| => SendCdpRequest(commands[i]))
  }

  /** All that was put out in a run, in order. */
  function PutOut(trace: seq<Event>): seq<NetworkEvent> {
    if trace == [] then []
    else
      var before, e := Front(trace), Last(trace);
      PutOut(before) + (Requests(CommandsBy(before, e)) + ReportsBy(before, e))
  }

  lemma CommandsAgree(before: seq<Event>, e: Event)
    ensures CommandPuts(Run(before), e) == Requests(CommandsBy(before, e))
  {
    SettingsInEveryRun(before);
    if e.AuthRequired? {
      OffersInEveryRun(before, e.fetchId);
    }
    hide Run, SettingsIn, Offered;
  }

  lemma ReportsAgree(before: seq<Event>, e: Event)
    ensures RequestPuts(Run(before), e) == ReportsBy(before, e)
  {
    StartsAgree(before, e);
    RequestsInEveryRun(before);
    hide Run, StartIn, StartOf, HopsOf, RequestWith;
  }

  /** In every run all that was ever put out is what the events alone say, in order: each command by the settings at the
    * time, each request with the frame it was announced for and the pause it was paired with, each end with its response
    * or failure, each challenge with its answer. */
  lemma {:induction false} EverythingPutOut(trace: seq<Event>)
    ensures Emitted(trace) == PutOut(trace)
  {
    if trace == [] {
      NR.NothingRun();
      assert Taken([]) == [];
    } else {
      var before, e := Front(trace), Last(trace);
      EverythingPutOut(before);
      EmittedGrows(trace);
      CommandsAgree(before, e);
      ReportsAgree(before, e);
      hide Run, Emitted, CommandsBy, ReportsBy, Requests, CommandPuts, RequestPuts;
    }
  }
}
