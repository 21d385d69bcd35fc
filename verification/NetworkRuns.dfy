/** What every run of the network manager keeps (src/handler/network.rs). */
module NetworkRuns {
  import opened Options
  import opened Http
  import opened NetworkSpec

  // ---------- Pairing sent and paused requests ----------

  /** Requests sit under their own id, and no id waits both for its pause and for its announcement. */
  predicate Paired(s: Network) {
    && (forall id | id in s.requests :: s.requests[id].requestId == id)
    && (forall id | id in s.willBeSent :: s.willBeSent[id].requestId == id && id !in s.interceptionIds)
  }

  lemma RequestStaysPaired(s: Network, event: SentEvent, interception: Option<FetchId>)
    requires Paired(s)
    ensures Paired(OnRequest(s, event, interception))
  {
  }

  lemma ContinueKeepsTheRest(s: Network, id: FetchId)
    ensures ContinueUnlessAsked(s, id) == s.(queue := ContinueUnlessAsked(s, id).queue)
  {
  }

  lemma PausedStaysPaired(s: Network, paused: PausedEvent)
    requires Paired(s)
    ensures Paired(OnRequestPaused(s, paused))
  {
    hide Paired, PairPaused, ContinueUnlessAsked;
    ContinueStaysPaired(s, paused.fetchId);
    if paused.networkId.Some? {
      PairStaysPaired(ContinueUnlessAsked(s, paused.fetchId), paused.fetchId, paused.networkId.value);
    }
  }

  lemma ContinueStaysPaired(s: Network, id: FetchId)
    requires Paired(s)
    ensures Paired(ContinueUnlessAsked(s, id))
  {
  }

  lemma PairStaysPaired(s: Network, fetchId: FetchId, id: RequestId)
    requires Paired(s)
    ensures Paired(PairPaused(s, fetchId, id))
  {
    hide OnRequest;
    if id in s.willBeSent {
      RequestStaysPaired(s.(willBeSent := s.willBeSent - {id}), s.willBeSent[id], Some(fetchId));
    }
  }

  lemma SentStaysPaired(s: Network, sent: SentEvent)
    requires Paired(s)
    ensures Paired(OnWillBeSent(s, sent))
  {
    hide OnRequest;
    RequestStaysPaired(s, sent, None);
    if sent.requestId in s.interceptionIds {
      RequestStaysPaired(s.(interceptionIds := s.interceptionIds - {sent.requestId}), sent,
                         Some(s.interceptionIds[sent.requestId]));
    }
  }

  lemma StepStaysPaired(s: Network, e: Event)
    requires Paired(s)
    ensures Paired(Step(s, e))
  {
    hide OnRequestPaused, OnWillBeSent, OnRequest, UpdateInterception, OnServedFromCache, OnResponseReceived,
      OnLoadingFinished, OnLoadingFailed, AnswerTo;
    match e
    case RequestPaused(paused) => PausedStaysPaired(s, paused);
    case WillBeSent(sent) => SentStaysPaired(s, sent);
    case InterceptionSet(enabled) => SwitchKeepsRequests(s.(userInterception := enabled));
    case Authenticated(credentials) => SwitchKeepsRequests(s.(credentials := Some(credentials)));
    case ServedFromCache(id) => ServedStaysPaired(s, id);
    case ResponseReceived(id, response) => EndStaysPaired(s, e);
    case LoadingFinished(id) => EndStaysPaired(s, e);
    case LoadingFailed(id, text) => EndStaysPaired(s, e);
    case _ =>
  }

  lemma ServedStaysPaired(s: Network, id: RequestId)
    requires Paired(s)
    ensures Paired(OnServedFromCache(s, id))
  {
  }

  lemma EndStaysPaired(s: Network, e: Event)
    requires Paired(s) && (e.ResponseReceived? || e.LoadingFinished? || e.LoadingFailed?)
    ensures Paired(Step(s, e))
  {
    hide Released;
  }

  lemma SwitchKeepsRequests(s: Network)
    ensures var s' := UpdateInterception(s);
            s'.requests == s.requests && s'.willBeSent == s.willBeSent && s'.interceptionIds == s.interceptionIds
            && s'.attempted == s.attempted
  {
  }

  lemma {:induction false} PairedInEveryRun(trace: seq<Event>)
    ensures Paired(Run(trace))
    ensures Run(trace).willBeSent.Keys !! Run(trace).interceptionIds.Keys
  {
    hide Step;
    if trace != [] {
      PairedInEveryRun(trace[..|trace| - 1]);
      StepStaysPaired(Run(trace[..|trace| - 1]), trace[|trace| - 1]);
    }
  }

  /** What the two handlers do to the two tables. */
  lemma PausedTables(s: Network, fetchId: FetchId, id: RequestId)
    ensures var s' := OnRequestPaused(s, PausedEvent(fetchId, Some(id)));
            && s'.willBeSent == s.willBeSent - {id}
            && s'.interceptionIds == (if id in s.willBeSent then s.interceptionIds else s.interceptionIds[id := fetchId])
            && s'.protocolInterception == s.protocolInterception
  {
    hide ContinueUnlessAsked;
    ContinueKeepsTheRest(s, fetchId);
    if id !in s.willBeSent {
      assert s.willBeSent - {id} == s.willBeSent;
    }
  }

  lemma SentTables(s: Network, sent: SentEvent)
    requires s.protocolInterception && !sent.dataUrl
    ensures var s' := OnWillBeSent(s, sent);
            var id := sent.requestId;
            && s'.willBeSent == (if id in s.interceptionIds then s.willBeSent else s.willBeSent[id := sent])
            && s'.interceptionIds == s.interceptionIds - {id}
  {
    hide Released;
    assert sent.requestId !in s.interceptionIds ==> s.interceptionIds - {sent.requestId} == s.interceptionIds;
  }

  lemma ContinueIgnoresTables(s: Network, willBeSent: map<RequestId, SentEvent>, id: FetchId)
    ensures ContinueUnlessAsked(s.(willBeSent := willBeSent), id).queue == ContinueUnlessAsked(s, id).queue
  {
  }

  lemma SentAndPausedCommute(s: Network, sent: SentEvent, fetchId: FetchId)
    requires s.protocolInterception && !sent.dataUrl
    requires sent.requestId !in s.willBeSent && sent.requestId !in s.interceptionIds
    ensures var paused := PausedEvent(fetchId, Some(sent.requestId));
            OnRequestPaused(OnWillBeSent(s, sent), paused) == OnWillBeSent(OnRequestPaused(s, paused), sent)
  {
    var id := sent.requestId;
    hide OnRequest, ContinueUnlessAsked;
    ContinueKeepsTheRest(s, fetchId);
    ContinueKeepsTheRest(s.(willBeSent := s.willBeSent[id := sent]), fetchId);
    ContinueIgnoresTables(s, s.willBeSent[id := sent], fetchId);
    assert s.willBeSent[id := sent] - {id} == s.willBeSent;
    assert s.interceptionIds[id := fetchId] - {id} == s.interceptionIds;
  }

  /** With interception on, a request's announcement and its pause may arrive in either order exactly when its id waits
    * in neither table: then both orders reach the same state, outgoing queue included. */
  lemma SentAndPausedCommuteExactlyWhen(s: Network, sent: SentEvent, fetchId: FetchId)
    requires Paired(s) && s.protocolInterception && !sent.dataUrl
    ensures var paused := PausedEvent(fetchId, Some(sent.requestId));
            OnRequestPaused(OnWillBeSent(s, sent), paused) == OnWillBeSent(OnRequestPaused(s, paused), sent) <==>
              sent.requestId !in s.willBeSent && sent.requestId !in s.interceptionIds
  {
    var id := sent.requestId;
    if id in s.willBeSent || id in s.interceptionIds {
      var paused := PausedEvent(fetchId, Some(id));
      hide OnRequestPaused, OnWillBeSent;
      PausedTables(s, fetchId, id);
      SentTables(s, sent);
      PausedTables(OnWillBeSent(s, sent), fetchId, id);
      SentTables(OnRequestPaused(s, paused), sent);
      assert id in s.willBeSent ==> id in OnWillBeSent(OnRequestPaused(s, paused), sent).willBeSent;
      assert id !in s.willBeSent ==> id !in OnWillBeSent(OnRequestPaused(s, paused), sent).interceptionIds;
    } else {
      SentAndPausedCommute(s, sent, fetchId);
    }
  }

  /** While an announcement waits for its pause, announcing the request once more makes the order matter: the pause pairs
    * with the announcement before it, so the one that comes last is left waiting. */
  lemma RepeatedAnnouncementDoesNotCommute(sent: SentEvent, fetchId: FetchId)
    requires !sent.dataUrl
    ensures var s := Run([InterceptionSet(true)] + [WillBeSent(sent)]);
            var paused := PausedEvent(fetchId, Some(sent.requestId));
            && s.protocolInterception
            && OnRequestPaused(OnWillBeSent(s, sent), paused).willBeSent == map[]
            && OnWillBeSent(OnRequestPaused(s, paused), sent).willBeSent == map[sent.requestId := sent]
  {
    var on, e, id := InterceptionSet(true), WillBeSent(sent), sent.requestId;
    assert ([on] + [e])[..1] == [on] && [on][..0] == [];
    NothingRun();
    var s1 := Run([on]);
    assert s1 == SetRequestInterception(NEW_NETWORK, true);
    assert s1.willBeSent == map[] && s1.interceptionIds == map[] && s1.protocolInterception;
    var s := Run([on] + [e]);
    assert s == OnWillBeSent(s1, sent);
    hide OnRequestPaused, OnWillBeSent;
    SentTables(s1, sent);
    SentTables(s, sent);
    PausedTables(OnWillBeSent(s, sent), fetchId, id);
    PausedTables(s, fetchId, id);
    SentTables(OnRequestPaused(s, PausedEvent(fetchId, Some(id))), sent);
  }

  lemma RequestKeepsSettings(s: Network, event: SentEvent, interception: Option<FetchId>)
    ensures OnRequest(s, event, interception).protocolInterception == s.protocolInterception
    ensures OnRequest(s, event, interception).userInterception == s.userInterception
    ensures OnRequest(s, event, interception).credentials == s.credentials
  {
  }

  // ---------- Hops ----------

  function Weight(r: HttpRequest): nat {
    1 + |r.redirectChain|
  }

  /** The hops of all live requests. */
  ghost function LiveHops(requests: map<RequestId, HttpRequest>): nat {
    if requests == map[] then 0
    else
      var id :| id in requests;
      Weight(requests[id]) + LiveHops(requests - {id})
  }

  lemma {:induction false} LiveHopsWithout(requests: map<RequestId, HttpRequest>, id: RequestId)
    requires id in requests
    ensures LiveHops(requests) == Weight(requests[id]) + LiveHops(requests - {id})
    decreases |requests|
  {
    var first :| first in requests && LiveHops(requests) == Weight(requests[first]) + LiveHops(requests - {first});
    if first != id {
      LiveHopsWithout(requests - {first}, id);
      assert requests - {first} - {id} == requests - {id} - {first};
      LiveHopsWithout(requests - {id}, first);
    }
  }

  function Started(log: seq<NetworkEvent>): nat {
    if log == [] then 0 else Started(log[..|log| - 1]) + if log[|log| - 1].RequestStarted? then 1 else 0
  }

  function EndedHops(log: seq<NetworkEvent>): nat {
    if log == [] then 0
    else EndedHops(log[..|log| - 1]) +
         match log[|log| - 1]
         case RequestFailed(request) => Weight(request)
         case RequestFinished(request) => Weight(request)
         case _ => 0
  }

  lemma {:induction false} CountsAdd(log: seq<NetworkEvent>, more: seq<NetworkEvent>)
    ensures Started(log + more) == Started(log) + Started(more)
    ensures EndedHops(log + more) == EndedHops(log) + EndedHops(more)
    decreases |more|
  {
    if more == [] {
      assert log + more == log;
    } else {
      var shorter := more[..|more| - 1];
      assert (log + more)[..|log + more| - 1] == log + shorter;
      CountsAdd(log, shorter);
    }
  }

  /** Hops forgotten by a step: a request for a live id that carries no redirect response overwrites the live one. */
  function LostHops(s: Network, e: Event): nat {
    var start := StartOf(s, e);
    if start.Some? && start.value.event.redirect.None? && start.value.event.requestId in s.requests
    then Weight(s.requests[start.value.event.requestId])
    else 0
  }

  function LostInRun(trace: seq<Event>): nat {
    if trace == [] then 0
    else LostInRun(trace[..|trace| - 1]) + LostHops(Run(trace[..|trace| - 1]), trace[|trace| - 1])
  }

  lemma PausedStarts(s: Network, paused: PausedEvent)
    ensures var start := StartOf(s, RequestPaused(paused));
            OnRequestPaused(s, paused).requests ==
              if start.Some? then OnRequest(s, start.value.event, start.value.interception).requests else s.requests
  {
    hide ContinueUnlessAsked, OnRequest;
    ContinueKeepsTheRest(s, paused.fetchId);
    var start := StartOf(s, RequestPaused(paused));
    if start.Some? {
      var s1 := ContinueUnlessAsked(s, paused.fetchId);
      SameRequestsStarted(s1.(willBeSent := s1.willBeSent - {paused.networkId.value}), s, start.value.event,
                          start.value.interception);
    }
  }

  lemma SameRequestsStarted(s: Network, t: Network, event: SentEvent, interception: Option<FetchId>)
    requires s.requests == t.requests && s.userInterception == t.userInterception
    ensures OnRequest(s, event, interception).requests == OnRequest(t, event, interception).requests
  {
  }

  lemma SentStarts(s: Network, sent: SentEvent)
    ensures var start := StartOf(s, WillBeSent(sent));
            OnWillBeSent(s, sent).requests ==
              if start.Some? then OnRequest(s, start.value.event, start.value.interception).requests else s.requests
  {
  }

  lemma EndsRemove(s: Network, e: Event)
    requires e.ResponseReceived? || e.LoadingFinished? || e.LoadingFailed?
    ensures Step(s, e).requests == s.requests - {EndedId(e)}
    ensures EndOf(s, e).Some? <==> EndedId(e) in s.requests
  {
    hide OnRequestPaused, OnWillBeSent, UpdateInterception, OnAuthRequired, OnServedFromCache, SetOfflineMode;
    if EndedId(e) !in s.requests {
      assert s.requests - {EndedId(e)} == s.requests;
    }
  }

  /** The step starts one request, ends one, or leaves the live requests alone. */
  predicate StartsOrEnds(s: Network, e: Event) {
    && (StartOf(s, e).Some? ==>
          && EndOf(s, e).None?
          && Step(s, e).requests == OnRequest(s, StartOf(s, e).value.event, StartOf(s, e).value.interception).requests)
    && (EndOf(s, e).Some? ==> !e.Polled? && EndedId(e) in s.requests && Step(s, e).requests == s.requests - {EndedId(e)})
    && (StartOf(s, e).None? && EndOf(s, e).None? && !e.ServedFromCache? ==> Step(s, e).requests == s.requests)
  }

  lemma StartAndEnd(s: Network, e: Event)
    ensures StartsOrEnds(s, e)
  {
    hide StartsOrEnds;
    match e
    case RequestPaused(paused) => PausedStartsOrEnds(s, paused);
    case WillBeSent(sent) => SentStartsOrEnds(s, sent);
    case InterceptionSet(_) => SwitchStartsOrEnds(s, e);
    case Authenticated(_) => SwitchStartsOrEnds(s, e);
    case ResponseReceived(_, _) => EndStartsOrEnds(s, e);
    case LoadingFinished(_) => EndStartsOrEnds(s, e);
    case LoadingFailed(_, _) => EndStartsOrEnds(s, e);
    case _ => OthersStartNothing(s, e);
  }

  lemma PausedStartsOrEnds(s: Network, paused: PausedEvent)
    ensures StartsOrEnds(s, RequestPaused(paused))
  {
    hide OnRequest, OnRequestPaused;
    PausedStarts(s, paused);
  }

  lemma SentStartsOrEnds(s: Network, sent: SentEvent)
    ensures StartsOrEnds(s, WillBeSent(sent))
  {
    hide OnRequest, OnWillBeSent;
    SentStarts(s, sent);
  }

  lemma SwitchStartsOrEnds(s: Network, e: Event)
    requires e.InterceptionSet? || e.Authenticated?
    ensures StartsOrEnds(s, e)
  {
    hide OnRequest, UpdateInterception;
    SwitchKeepsRequests(if e.InterceptionSet? then s.(userInterception := e.enabled)
                        else s.(credentials := Some(e.credentials)));
  }

  lemma EndStartsOrEnds(s: Network, e: Event)
    requires e.ResponseReceived? || e.LoadingFinished? || e.LoadingFailed?
    ensures StartsOrEnds(s, e)
  {
    EndsRemove(s, e);
    hide Step, OnRequest;
  }

  lemma OthersStartNothing(s: Network, e: Event)
    requires e.ExtraHeadersSet? || e.CacheEnabledSet? || e.OfflineSet? || e.AuthRequired? || e.ServedFromCache? || e.Polled?
    ensures StartsOrEnds(s, e)
  {
    hide OnRequest, OnServedFromCache, AnswerTo;
  }

  function EndedId(e: Event): RequestId {
    match e
    case ResponseReceived(id, _) => id
    case LoadingFinished(id) => id
    case LoadingFailed(id, _) => id
    case _ => RequestId("")
  }

  lemma PutsCount(s: Network, e: Event)
    ensures Started(Puts(s, e)) == if StartOf(s, e).Some? then 1 else 0
    ensures EndedHops(Puts(s, e)) == if StartOf(s, e).None? && EndOf(s, e).Some? then Weight(EndOf(s, e).value) else 0
  {
    CountsAdd(CommandPuts(s, e), RequestPuts(s, e));
    CommandPutsCount(s, e);
    RequestPutsCount(s, e);
    hide CommandPuts, RequestPuts, StartOf, EndOf;
  }

  lemma CommandPutsCount(s: Network, e: Event)
    ensures Started(CommandPuts(s, e)) == 0 && EndedHops(CommandPuts(s, e)) == 0
  {
    CommandsCountNothing(CommandPuts(s, e));
  }

  lemma RequestPutsCount(s: Network, e: Event)
    ensures Started(RequestPuts(s, e)) == if StartOf(s, e).Some? then 1 else 0
    ensures EndedHops(RequestPuts(s, e)) ==
            if StartOf(s, e).None? && EndOf(s, e).Some? then Weight(EndOf(s, e).value) else 0
  {
    hide StartOf, EndOf;
    if RequestPuts(s, e) != [] {
      assert RequestPuts(s, e)[..0] == [];
    }
  }

  lemma {:induction false} CommandsCountNothing(log: seq<NetworkEvent>)
    requires forall i | 0 <= i < |log| :: log[i].SendCdpRequest?
    ensures Started(log) == 0 && EndedHops(log) == 0
  {
    if log != [] {
      CommandsCountNothing(log[..|log| - 1]);
    }
  }

  lemma StartWeighs(requests: map<RequestId, HttpRequest>, id: RequestId, r: HttpRequest)
    ensures LiveHops(requests[id := r]) == Weight(r) + LiveHops(requests - {id})
    ensures id in requests ==> LiveHops(requests) == Weight(requests[id]) + LiveHops(requests - {id})
    ensures id !in requests ==> LiveHops(requests) == LiveHops(requests - {id})
  {
    LiveHopsWithout(requests[id := r], id);
    assert requests[id := r] - {id} == requests - {id};
    if id in requests {
      LiveHopsWithout(requests, id);
    } else {
      assert requests - {id} == requests;
    }
  }

  /** One step balances: requests started are live, ended or overwritten. */
  lemma StepConservesHops(s: Network, e: Event)
    ensures LiveHops(s.requests) + Started(Puts(s, e)) ==
            LiveHops(Step(s, e).requests) + EndedHops(Puts(s, e)) + LostHops(s, e)
  {
    PutsCount(s, e);
    StartAndEnd(s, e);
    if StartOf(s, e).Some? {
      var start := StartOf(s, e).value;
      var id := start.event.requestId;
      StartWeighs(s.requests, id, OnRequest(s, start.event, start.interception).requests[id]);
    } else if EndOf(s, e).Some? {
      LiveHopsWithout(s.requests, EndedId(e));
    } else if e.ServedFromCache? && e.id in s.requests {
      StartWeighs(s.requests, e.id, s.requests[e.id].(fromMemoryCache := true));
    }
  }

  /** In every run, the requests announced equal the hops of ended and of live requests and those overwritten. */
  lemma {:induction false} HopsAreConserved(trace: seq<Event>)
    ensures Started(Emitted(trace)) == EndedHops(Emitted(trace)) + LiveHops(Run(trace).requests) + LostInRun(trace)
  {
    hide Step, Puts, StartOf, EndOf;
    if trace != [] {
      var before := trace[..|trace| - 1];
      HopsAreConserved(before);
      EmittedGrows(trace);
      CountsAdd(Emitted(before), Puts(Run(before), trace[|trace| - 1]));
      StepConservesHops(Run(before), trace[|trace| - 1]);
    }
  }

  lemma {:induction false} LossesAddUp(trace: seq<Event>)
    ensures LostInRun(trace) == 0 <==> forall i | 0 <= i < |trace| :: LostHops(Run(trace[..i]), trace[i]) == 0
  {
    hide Run, LostHops;
    if trace != [] {
      var last := |trace| - 1;
      var before := trace[..last];
      LossesAddUp(before);
      forall i | 0 <= i < last
        ensures LostHops(Run(before[..i]), before[i]) == LostHops(Run(trace[..i]), trace[i])
      {
        assert before[..i] == trace[..i];
      }
    }
  }

  /** A request that starts for an id that is live carries the redirect response of the live one. */
  predicate RedirectsIfLive(s: Network, e: Event) {
    StartOf(s, e).Some? ==>
      var event := StartOf(s, e).value.event;
      event.requestId in s.requests ==> event.redirect.Some?
  }

  /** All requests announced are hops of ended or of live requests exactly in the runs in which every request for a live
    * id carries a redirect response. */
  lemma NoHopIsLostExactlyWhen(trace: seq<Event>)
    ensures Started(Emitted(trace)) == EndedHops(Emitted(trace)) + LiveHops(Run(trace).requests) <==>
            forall i | 0 <= i < |trace| :: RedirectsIfLive(Run(trace[..i]), trace[i])
  {
    HopsAreConserved(trace);
    LossesAddUp(trace);
    forall i | 0 <= i < |trace|
      ensures LostHops(Run(trace[..i]), trace[i]) == 0 <==> RedirectsIfLive(Run(trace[..i]), trace[i])
    {
      hide Run, StartOf;
    }
  }

  /** A request announced again without a redirect response takes the place of the live one, whose hop is never
    * reported. */
  lemma RepeatedRequestLosesAHop(sent: SentEvent)
    requires sent.redirect.None?
    ensures var trace := [WillBeSent(sent)] + [WillBeSent(sent)];
            && Started(Emitted(trace)) == 2 && EndedHops(Emitted(trace)) == 0 && LiveHops(Run(trace).requests) == 1
  {
    var e, id := WillBeSent(sent), sent.requestId;
    assert ([e] + [e])[..1] == [e] && [e][..0] == [];
    var r, started := NewRequest(id, sent.frame, None, false, []), RequestStarted(id);
    var s1 := NEW_NETWORK.(requests := map[id := r], queue := [started]);
    var s2 := s1.(queue := [started] + [started]);
    NothingRun();
    assert Run([e]) == Step(NEW_NETWORK, e) == s1;
    assert Run([e] + [e]) == Step(s1, e) == s2;
    assert Taken([e]) == Taken([]) + [] == [];
    assert Taken([e] + [e]) == Taken([e]) + [] == [];
    assert Emitted([e] + [e]) == [started] + [started];
    CountsAdd([started], [started]);
    assert [started][..0] == [];
    LiveHopsWithout(s2.requests, id);
    assert s2.requests - {id} == map[];
  }

  lemma NothingRun()
    ensures Run([]) == NEW_NETWORK
  {
  }

  // ---------- Chains ----------

  /** A chain is flat, all its hops have the request's own id, and each holds the response that redirected it. */
  predicate ChainIsFlat(r: HttpRequest) {
    forall i | 0 <= i < |r.redirectChain| ::
      && r.redirectChain[i].redirectChain == [] && r.redirectChain[i].requestId == r.requestId
      && r.redirectChain[i].response.Some?
  }

  /** The responses along the chain, first hop first. */
  function Redirects(r: HttpRequest): seq<Option<HttpResponse>> {
    seq(|r.redirectChain|, i requires 0 <= i < |r.redirectChain| => r.redirectChain[i].response)
  }

  /** The redirect responses announced for each live id, in order, since its last announcement without one. */
  function Announced(trace: seq<Event>): map<RequestId, seq<Option<HttpResponse>>> {
    if trace == [] then map[]
    else
      var s := Run(trace[..|trace| - 1]);
      var e := trace[|trace| - 1];
      var known := Announced(trace[..|trace| - 1]);
      if StartOf(s, e).Some? then
        var event := StartOf(s, e).value.event;
        known[event.requestId :=
                if event.redirect.Some? && event.requestId in known then known[event.requestId] + [event.redirect] else []]
      else if EndOf(s, e).Some? then known - {EndedId(e)}
      else known
  }

  predicate ChainsMatch(s: Network, known: map<RequestId, seq<Option<HttpResponse>>>) {
    && s.requests.Keys == known.Keys
    && forall id | id in s.requests ::
         s.requests[id].requestId == id && ChainIsFlat(s.requests[id]) && Redirects(s.requests[id]) == known[id]
  }

  lemma RedirectExtendsChain(s: Network, event: SentEvent, interception: Option<FetchId>)
    requires event.requestId in s.requests && s.requests[event.requestId].requestId == event.requestId
    requires event.redirect.Some? && ChainIsFlat(s.requests[event.requestId])
    ensures var r := OnRequest(s, event, interception).requests[event.requestId];
            ChainIsFlat(r) && Redirects(r) == Redirects(s.requests[event.requestId]) + [event.redirect]
  {
  }

  lemma RequestAdds(s: Network, event: SentEvent, interception: Option<FetchId>)
    ensures var s' := OnRequest(s, event, interception);
            && event.requestId in s'.requests
            && s'.requests == s.requests[event.requestId := s'.requests[event.requestId]]
            && s'.requests[event.requestId].requestId == event.requestId
            && (event.redirect.None? || event.requestId !in s.requests ==> s'.requests[event.requestId].redirectChain == [])
  {
  }

  lemma StepMatches(s: Network, e: Event, known: map<RequestId, seq<Option<HttpResponse>>>, trace: seq<Event>)
    requires ChainsMatch(s, known) && s == Run(trace) && known == Announced(trace)
    ensures ChainsMatch(Step(s, e), Announced(trace + [e]))
  {
    hide Step, StartOf, EndOf, Run, OnRequest;
    assert (trace + [e])[..|trace|] == trace;
    StartAndEnd(s, e);
    if StartOf(s, e).Some? {
      var start := StartOf(s, e).value;
      RequestAdds(s, start.event, start.interception);
      if start.event.redirect.Some? && start.event.requestId in s.requests {
        RedirectExtendsChain(s, start.event, start.interception);
      }
    } else if EndOf(s, e).None? && e.ServedFromCache? {
      ServingStep(s, e.id);
      ServedFromCacheKeepsChains(s, e.id);
    }
  }

  lemma ServedFromCacheKeepsChains(s: Network, id: RequestId)
    ensures var s' := OnServedFromCache(s, id);
            && s'.requests.Keys == s.requests.Keys
            && forall x | x in s.requests ::
                 s'.requests[x].requestId == s.requests[x].requestId && s'.requests[x].redirectChain == s.requests[x].redirectChain
  {
    var s' := OnServedFromCache(s, id);
    assert s'.requests == if id in s.requests then s.requests[id := s.requests[id].(fromMemoryCache := true)] else s.requests;
  }

  lemma ServingStep(s: Network, id: RequestId)
    ensures Step(s, ServedFromCache(id)) == OnServedFromCache(s, id)
  {
    hide OnServedFromCache;
  }

  /** In every run, each live request carries exactly the redirects announced for its id, in hop order. */
  lemma {:induction false} ChainsInEveryRun(trace: seq<Event>)
    ensures ChainsMatch(Run(trace), Announced(trace))
  {
    hide Step, Puts, StartOf, EndOf;
    if trace != [] {
      var before := trace[..|trace| - 1];
      ChainsInEveryRun(before);
      assert before + [trace[|trace| - 1]] == trace;
      StepMatches(Run(before), trace[|trace| - 1], Announced(before), before);
    }
  }

  /** The requests reported as finished or failed, in order. */
  function Reported(log: seq<NetworkEvent>): seq<HttpRequest> {
    if log == [] then []
    else Reported(log[..|log| - 1]) +
         match log[|log| - 1]
         case RequestFailed(request) => [request]
         case RequestFinished(request) => [request]
         case _ => []
  }

  /** For every step that ended a request, the id and the redirect responses announced for it by then. */
  function EndedChains(trace: seq<Event>): seq<(RequestId, seq<Option<HttpResponse>>)> {
    if trace == [] then []
    else
      var before, e := trace[..|trace| - 1], trace[|trace| - 1];
      EndedChains(before) +
      if EndOf(Run(before), e).Some? && EndedId(e) in Announced(before)
      then [(EndedId(e), Announced(before)[EndedId(e)])] else []
  }

  /** Each of these requests has the id and exactly the redirects given for it, on a flat chain. */
  predicate Match(reported: seq<HttpRequest>, ended: seq<(RequestId, seq<Option<HttpResponse>>)>) {
    && |reported| == |ended|
    && forall i | 0 <= i < |reported| ::
         && ChainIsFlat(reported[i]) && reported[i].requestId == ended[i].0 && Redirects(reported[i]) == ended[i].1
  }

  /** So does every request that was reported finished or failed: it carries exactly the redirects announced for its id
    * until it ended. */
  lemma {:induction false} ReportedChainsAreAnnounced(trace: seq<Event>)
    ensures Match(Reported(Emitted(trace)), EndedChains(trace))
  {
    if trace != [] {
      var before, e := trace[..|trace| - 1], trace[|trace| - 1];
      ReportedChainsAreAnnounced(before);
      ReportedOneMore(trace);
      EndedOneMore(trace);
      hide Run, Emitted, Reported, EndOf, EndedChains, Announced, Match;
      var reported, ended := Reported(Emitted(before)), EndedChains(before);
      var end := EndOf(Run(before), e);
      if end.Some? {
        MatchOneMore(reported, ended, end.value, EndedId(e), Announced(before)[EndedId(e)]);
      } else {
        assert reported + [] == reported && ended + [] == ended;
      }
    }
  }

  lemma ReportedOneMore(trace: seq<Event>)
    requires trace != []
    ensures var before := trace[..|trace| - 1];
            var end := EndOf(Run(before), trace[|trace| - 1]);
            Reported(Emitted(trace)) == Reported(Emitted(before)) + if end.Some? then [end.value] else []
  {
    var before, e := trace[..|trace| - 1], trace[|trace| - 1];
    hide Run, Emitted, Puts, Reported, EndOf;
    EmittedGrows(trace);
    ReportedAppends(Emitted(before), Puts(Run(before), e));
    PutsReport(Run(before), e);
  }

  /** What a step ends was announced. */
  lemma EndedOneMore(trace: seq<Event>)
    requires trace != []
    ensures var before, e := trace[..|trace| - 1], trace[|trace| - 1];
            if EndOf(Run(before), e).None? then EndedChains(trace) == EndedChains(before) + []
            else
              var r, id := EndOf(Run(before), e).value, EndedId(e);
              && id in Announced(before) && EndedChains(trace) == EndedChains(before) + [(id, Announced(before)[id])]
              && ChainIsFlat(r) && r.requestId == id && Redirects(r) == Announced(before)[id]
  {
    var before, e := trace[..|trace| - 1], trace[|trace| - 1];
    hide Run, EndOf, Announced, ChainIsFlat, Redirects, ChainsMatch;
    ChainsInEveryRun(before);
    if EndOf(Run(before), e).Some? {
      EndMatches(Run(before), e, Announced(before));
    }
  }

  lemma MatchOneMore(reported: seq<HttpRequest>, ended: seq<(RequestId, seq<Option<HttpResponse>>)>, r: HttpRequest,
                     id: RequestId, known: seq<Option<HttpResponse>>)
    requires Match(reported, ended) && ChainIsFlat(r) && r.requestId == id && Redirects(r) == known
    ensures Match(reported + [r], ended + [(id, known)])
  {
    hide ChainIsFlat, Redirects;
  }

  lemma {:induction false} ReportedAppends(log: seq<NetworkEvent>, more: seq<NetworkEvent>)
    ensures Reported(log + more) == Reported(log) + Reported(more)
    decreases |more|
  {
    if more == [] {
      assert log + more == log;
    } else {
      assert (log + more)[..|log + more| - 1] == log + more[..|more| - 1];
      ReportedAppends(log, more[..|more| - 1]);
    }
  }

  /** A step reports the request that it ends, and no other. */
  lemma PutsReport(s: Network, e: Event)
    ensures Reported(Puts(s, e)) == if EndOf(s, e).Some? then [EndOf(s, e).value] else []
  {
    ReportedAppends(CommandPuts(s, e), RequestPuts(s, e));
    CommandsReportNothing(CommandPuts(s, e));
    RequestPutsReport(s, e);
    hide CommandPuts, RequestPuts, StartOf, EndOf, Reported;
  }

  lemma RequestPutsReport(s: Network, e: Event)
    ensures Reported(RequestPuts(s, e)) == if EndOf(s, e).Some? then [EndOf(s, e).value] else []
  {
    StartedEndsNone(s, e);
    hide StartOf, EndOf;
    if RequestPuts(s, e) != [] {
      assert RequestPuts(s, e)[..0] == [];
    }
  }

  lemma StartedEndsNone(s: Network, e: Event)
    ensures StartOf(s, e).Some? ==> EndOf(s, e).None?
  {
  }

  lemma {:induction false} CommandsReportNothing(log: seq<NetworkEvent>)
    requires forall i | 0 <= i < |log| :: log[i].SendCdpRequest?
    ensures Reported(log) == []
  {
    if log != [] {
      CommandsReportNothing(log[..|log| - 1]);
    }
  }

  lemma EndMatches(s: Network, e: Event, known: map<RequestId, seq<Option<HttpResponse>>>)
    requires ChainsMatch(s, known) && EndOf(s, e).Some?
    ensures var id, r := EndedId(e), EndOf(s, e).value;
            id in known && ChainIsFlat(r) && r.requestId == id && Redirects(r) == known[id]
  {
  }

  // ---------- Switching interception ----------

  predicate IsSwitch(event: NetworkEvent) {
    event.SendCdpRequest? && (event.command.FetchEnable? || event.command.FetchDisable?)
  }

  function Switches(log: seq<NetworkEvent>): seq<NetworkEvent> {
    if log == [] then []
    else Switches(log[..|log| - 1]) + if IsSwitch(log[|log| - 1]) then [log[|log| - 1]] else []
  }

  lemma {:induction false} SwitchesAppend(log: seq<NetworkEvent>, more: seq<NetworkEvent>)
    ensures Switches(log + more) == Switches(log) + Switches(more)
    decreases |more|
  {
    if more == [] {
      assert log + more == log;
    } else {
      assert (log + more)[..|log + more| - 1] == log + more[..|more| - 1];
      SwitchesAppend(log, more[..|more| - 1]);
    }
  }

  /** Enable, disable, enable, ... */
  predicate EnableDisable(switches: seq<NetworkEvent>) {
    forall i | 0 <= i < |switches| :: switches[i] == SendCdpRequest(if i % 2 == 0 then FetchEnable else FetchDisable)
  }

  predicate SwitchesAgree(s: Network, switches: seq<NetworkEvent>) {
    && EnableDisable(switches)
    && s.protocolInterception == (s.userInterception || s.credentials.Some?)
    && s.protocolInterception == (|switches| % 2 == 1)
  }

  lemma {:induction false} NoSwitches(log: seq<NetworkEvent>)
    requires forall i | 0 <= i < |log| :: !IsSwitch(log[i])
    ensures Switches(log) == []
  {
    if log != [] {
      NoSwitches(log[..|log| - 1]);
    }
  }

  lemma OthersKeepSettings(s: Network, e: Event)
    requires !e.InterceptionSet? && !e.Authenticated?
    ensures var s' := Step(s, e);
            && s'.protocolInterception == s.protocolInterception && s'.userInterception == s.userInterception
            && s'.credentials == s.credentials
  {
    hide OnRequestPaused, OnWillBeSent, UpdateInterception, OnLoadingFinished, OnLoadingFailed, OnResponseReceived,
      OnServedFromCache, OnAuthRequired, SetOfflineMode, SetExtraHeaders, SetCacheEnabled;
    match e
    case RequestPaused(paused) => PausedKeepsSettings(s, paused);
    case WillBeSent(sent) => SentKeepsSettings(s, sent);
    case LoadingFinished(id) => EndKeepsSettings(s, e);
    case LoadingFailed(id, _) => EndKeepsSettings(s, e);
    case ResponseReceived(id, _) => EndKeepsSettings(s, e);
    case ServedFromCache(id) => EndKeepsSettings(s, e);
    case _ => CommandsKeepSettings(s, e);
  }

  lemma CommandsKeepSettings(s: Network, e: Event)
    requires e.ExtraHeadersSet? || e.CacheEnabledSet? || e.OfflineSet? || e.AuthRequired? || e.Polled?
    ensures var s' := Step(s, e);
            && s'.protocolInterception == s.protocolInterception && s'.userInterception == s.userInterception
            && s'.credentials == s.credentials
  {
    hide AnswerTo;
  }

  lemma EndKeepsSettings(s: Network, e: Event)
    requires e.LoadingFinished? || e.LoadingFailed? || e.ResponseReceived? || e.ServedFromCache?
    ensures var s' := Step(s, e);
            && s'.protocolInterception == s.protocolInterception && s'.userInterception == s.userInterception
            && s'.credentials == s.credentials
  {
    hide Released;
  }

  lemma OthersSwitchNothing(s: Network, e: Event)
    requires !e.InterceptionSet? && !e.Authenticated?
    ensures Switches(CommandPuts(s, e)) == []
  {
    var c := CommandPuts(s, e);
    assert forall i | 0 <= i < |c| :: !IsSwitch(c[i]);
    NoSwitches(c);
  }

  lemma PausedKeepsSettings(s: Network, paused: PausedEvent)
    ensures var s' := OnRequestPaused(s, paused);
            && s'.protocolInterception == s.protocolInterception && s'.userInterception == s.userInterception
            && s'.credentials == s.credentials
  {
    hide OnRequest, ContinueUnlessAsked;
    ContinueKeepsTheRest(s, paused.fetchId);
    if StartOf(s, RequestPaused(paused)).Some? {
      var id := paused.networkId.value;
      RequestKeepsSettings(ContinueUnlessAsked(s, paused.fetchId).(willBeSent := s.willBeSent - {id}),
                           s.willBeSent[id], Some(paused.fetchId));
    }
  }

  lemma SentKeepsSettings(s: Network, sent: SentEvent)
    ensures var s' := OnWillBeSent(s, sent);
            && s'.protocolInterception == s.protocolInterception && s'.userInterception == s.userInterception
            && s'.credentials == s.credentials
  {
    hide OnRequest;
    var start := StartOf(s, WillBeSent(sent));
    if start.Some? {
      RequestKeepsSettings(s, sent, None);
      RequestKeepsSettings(s.(interceptionIds := s.interceptionIds - {sent.requestId}), sent, start.value.interception);
    }
  }

  lemma InterceptionSwitches(s: Network, switched: bool)
    requires switched == (s.userInterception || s.credentials.Some?)
    ensures var s' := UpdateInterception(s);
            && s'.protocolInterception == switched
            && s'.userInterception == s.userInterception && s'.credentials == s.credentials
            && Switches(InterceptionPuts(s)) ==
                 if switched == s.protocolInterception then []
                 else [SendCdpRequest(if switched then FetchEnable else FetchDisable)]
  {
    var c := InterceptionPuts(s);
    if |c| == 2 {
      assert c[..1] == [c[0]];
      NoSwitches(c[..1]);
    }
  }

  lemma SwitchesPut(s: Network, e: Event)
    requires s.protocolInterception == (s.userInterception || s.credentials.Some?)
    ensures var s' := Step(s, e);
            && s'.protocolInterception == (s'.userInterception || s'.credentials.Some?)
            && Switches(Puts(s, e)) ==
                 if s'.protocolInterception == s.protocolInterception then []
                 else [SendCdpRequest(if s'.protocolInterception then FetchEnable else FetchDisable)]
  {
    SwitchesAppend(CommandPuts(s, e), RequestPuts(s, e));
    RequestsSwitchNothing(s, e);
    assert Switches(CommandPuts(s, e)) + [] == Switches(CommandPuts(s, e));
    if e.InterceptionSet? {
      hide UpdateInterception, InterceptionPuts, RequestPuts;
      InterceptionSwitches(s.(userInterception := e.enabled), e.enabled || s.credentials.Some?);
    } else if e.Authenticated? {
      hide UpdateInterception, InterceptionPuts, RequestPuts;
      InterceptionSwitches(s.(credentials := Some(e.credentials)), true);
    } else {
      hide Step, CommandPuts, RequestPuts;
      OthersKeepSettings(s, e);
      OthersSwitchNothing(s, e);
    }
  }

  lemma RequestsSwitchNothing(s: Network, e: Event)
    ensures Switches(RequestPuts(s, e)) == []
  {
    NoSwitches(RequestPuts(s, e));
  }

  /** In every run, the interception commands strictly alternate starting with enable, and the last one agrees with
    * what the user asked for: interception on, or credentials set. */
  lemma {:induction false} SwitchesAlternateInEveryRun(trace: seq<Event>)
    ensures SwitchesAgree(Run(trace), Switches(Emitted(trace)))
  {
    hide Step, Puts, StartOf, EndOf;
    if trace != [] {
      var before := trace[..|trace| - 1];
      SwitchesAlternateInEveryRun(before);
      EmittedGrows(trace);
      SwitchesAppend(Emitted(before), Puts(Run(before), trace[|trace| - 1]));
      SwitchesPut(Run(before), trace[|trace| - 1]);
      SwitchesExtend(Run(before), Run(trace), Switches(Emitted(before)), Switches(Puts(Run(before), trace[|trace| - 1])));
    }
  }

  lemma SwitchesExtend(s: Network, s': Network, switches: seq<NetworkEvent>, more: seq<NetworkEvent>)
    requires SwitchesAgree(s, switches) && s'.protocolInterception == (s'.userInterception || s'.credentials.Some?)
    requires more == if s'.protocolInterception == s.protocolInterception then []
                     else [SendCdpRequest(if s'.protocolInterception then FetchEnable else FetchDisable)]
    ensures SwitchesAgree(s', switches + more)
  {
    var longer := switches + more;
    if more == [] {
      assert longer == switches;
    } else {
      assert forall i | 0 <= i < |switches| :: longer[i] == switches[i];
      assert longer[|switches|] == more[0];
    }
  }

  // ---------- Credentials ----------

  /** The step redirects, finishes or fails a request with this interception id. */
  predicate Releases(s: Network, e: Event, id: FetchId) {
    || (&& (e.LoadingFinished? || e.LoadingFailed?) && EndedId(e) in s.requests
        && s.requests[EndedId(e)].interceptionId == Some(id))
    || (&& StartOf(s, e).Some? && StartOf(s, e).value.event.redirect.Some?
        && StartOf(s, e).value.event.requestId in s.requests
        && s.requests[StartOf(s, e).value.event.requestId].interceptionId == Some(id))
  }

  lemma AttemptsAfterRequest(s: Network, event: SentEvent, interception: Option<FetchId>)
    ensures OnRequest(s, event, interception).attempted ==
      if event.redirect.Some? && event.requestId in s.requests
      then Released(s.attempted, s.requests[event.requestId]) else s.attempted
  {
  }

  lemma AttemptsOnlyReleased(s: Network, e: Event, id: FetchId)
    requires id in s.attempted
    ensures id in Step(s, e).attempted <==> !Releases(s, e, id)
  {
    hide OnRequestPaused, OnWillBeSent, Releases, OnLoadingFinished, OnLoadingFailed, OnResponseReceived, OnAuthRequired,
      UpdateInterception, UpdateCacheDisabled;
    match e
    case RequestPaused(paused) => PausedReleases(s, paused, id);
    case WillBeSent(sent) => SentReleases(s, sent, id);
    case _ => OthersRelease(s, e, id);
  }

  lemma EndReleases(s: Network, e: Event, id: FetchId)
    requires id in s.attempted && (e.LoadingFinished? || e.LoadingFailed?)
    ensures id in Step(s, e).attempted <==> !Releases(s, e, id)
  {
  }

  lemma OthersRelease(s: Network, e: Event, id: FetchId)
    requires id in s.attempted && !e.RequestPaused? && !e.WillBeSent?
    ensures id in Step(s, e).attempted <==> !Releases(s, e, id)
  {
    hide UpdateInterception, OnRequestPaused, OnWillBeSent, OnLoadingFinished, OnLoadingFailed, Released;
    match e
    case LoadingFinished(_) => EndReleases(s, e, id);
    case LoadingFailed(_, _) => EndReleases(s, e, id);
    case InterceptionSet(enabled) => SwitchKeepsRequests(s.(userInterception := enabled));
    case Authenticated(credentials) => SwitchKeepsRequests(s.(credentials := Some(credentials)));
    case _ =>
  }

  lemma PausedReleases(s: Network, paused: PausedEvent, id: FetchId)
    requires id in s.attempted
    ensures id in OnRequestPaused(s, paused).attempted <==> !Releases(s, RequestPaused(paused), id)
  {
    hide OnRequest, ContinueUnlessAsked;
    ContinueKeepsTheRest(s, paused.fetchId);
    if StartOf(s, RequestPaused(paused)).Some? {
      var n := paused.networkId.value;
      AttemptsAfterRequest(ContinueUnlessAsked(s, paused.fetchId).(willBeSent := s.willBeSent - {n}), s.willBeSent[n],
                           Some(paused.fetchId));
    }
  }

  lemma SentReleases(s: Network, sent: SentEvent, id: FetchId)
    requires id in s.attempted
    ensures id in OnWillBeSent(s, sent).attempted <==> !Releases(s, WillBeSent(sent), id)
  {
    hide OnRequest;
    var start := StartOf(s, WillBeSent(sent));
    if start.Some? {
      AttemptsAfterRequest(s, sent, None);
      AttemptsAfterRequest(s.(interceptionIds := s.interceptionIds - {sent.requestId}), sent, start.value.interception);
    }
  }

  /** Event `i` is a challenge for `id` that is answered with the credentials. */
  predicate CredentialsGivenAt(trace: seq<Event>, i: nat, id: FetchId) {
    i < |trace| && trace[i] == AuthRequired(id) && AnswerTo(Run(trace[..i]), id) == ProvideCredentials
  }

  lemma {:induction false} AttemptStays(trace: seq<Event>, i: nat, j: nat, id: FetchId)
    requires i <= j <= |trace| && id in Run(trace[..i]).attempted
    requires forall k | i <= k < j :: !Releases(Run(trace[..k]), trace[k], id)
    ensures id in Run(trace[..j]).attempted
    decreases j - i
  {
    hide Step, Puts, StartOf, EndOf;
    if i < j {
      AttemptStays(trace, i, j - 1, id);
      assert trace[..j][..j - 1] == trace[..j - 1];
      AttemptsOnlyReleased(Run(trace[..j - 1]), trace[j - 1], id);
    }
  }

  /** Credentials are not offered twice for one paused request, unless in between a request with that interception id
    * was redirected, finished or failed. */
  lemma CredentialsGivenOnce(trace: seq<Event>, i: nat, j: nat, id: FetchId)
    requires i < j && CredentialsGivenAt(trace, i, id) && CredentialsGivenAt(trace, j, id)
    ensures exists k | i < k < j :: Releases(Run(trace[..k]), trace[k], id)
  {
    if forall k | i < k < j :: !Releases(Run(trace[..k]), trace[k], id) {
      assert trace[..i + 1][..i] == trace[..i];
      AttemptStays(trace, i + 1, j, id);
      assert false;
    }
  }
}
