/** The network manager as a function of its state (src/handler/network.rs:22-279). */
module NetworkSpec {
  import opened Options
  import opened Http

  datatype Credentials = Credentials(username: string, password: string)

  /** A request announced by the browser. Data URLs, those that start with `data:`, are never intercepted. */
  datatype SentEvent = SentEvent(requestId: RequestId, frame: Option<FrameId>, dataUrl: bool,
                                 redirect: Option<HttpResponse>)

  datatype PausedEvent = PausedEvent(fetchId: FetchId, networkId: Option<RequestId>)

  datatype AuthAnswer = CancelAuth | ProvideCredentials | Default

  datatype Command =
    | ExtraHeaders(headers: map<string, string>)
    | SetCacheDisabled(disabled: bool)
    | FetchEnable
    | FetchDisable
    | ContinueRequest(id: FetchId)
    | ContinueWithAuth(id: FetchId, answer: AuthAnswer, credentials: Option<Credentials>)
    | EmulateOffline(offline: bool)

  datatype NetworkEvent =
    | SendCdpRequest(command: Command)
    | RequestStarted(id: RequestId)
    | RequestFailed(request: HttpRequest)
    | RequestFinished(request: HttpRequest)

  datatype Network = Network(
    queue: seq<NetworkEvent>,
    requests: map<RequestId, HttpRequest>,
    willBeSent: map<RequestId, SentEvent>,
    interceptionIds: map<RequestId, FetchId>,
    extraHeaders: map<string, string>,
    userCacheDisabled: bool,
    attempted: set<FetchId>,
    credentials: Option<Credentials>,
    userInterception: bool,
    protocolInterception: bool,
    offline: bool)
  {
    function Push(event: NetworkEvent): Network {
      this.(queue := queue + [event])
    }
  }

  const NEW_NETWORK := Network([], map[], map[], map[], map[], false, {}, None, false, false, false)

  // ---------- Settings ----------

  function SetExtraHeaders(s: Network, headers: map<string, string>): Network {
    s.(extraHeaders := headers).Push(SendCdpRequest(ExtraHeaders(headers)))
  }

  function UpdateCacheDisabled(s: Network): Network {
    s.Push(SendCdpRequest(SetCacheDisabled(s.userCacheDisabled || s.protocolInterception)))
  }

  /** The cache command goes out before the flag changes. */
  function UpdateInterception(s: Network): Network {
    var enabled := s.userInterception || s.credentials.Some?;
    if enabled == s.protocolInterception then s
    else UpdateCacheDisabled(s).(protocolInterception := enabled)
         .Push(SendCdpRequest(if enabled then FetchEnable else FetchDisable))
  }

  function SetRequestInterception(s: Network, enabled: bool): Network {
    UpdateInterception(s.(userInterception := enabled))
  }

  function Authenticate(s: Network, credentials: Credentials): Network {
    UpdateInterception(s.(credentials := Some(credentials)))
  }

  function SetCacheEnabled(s: Network, enabled: bool): Network {
    UpdateCacheDisabled(s.(userCacheDisabled := !enabled))
  }

  function SetOfflineMode(s: Network, value: bool): Network {
    if s.offline == value then s else s.(offline := value).Push(SendCdpRequest(EmulateOffline(value)))
  }

  // ---------- Requests ----------

  function Released(attempted: set<FetchId>, request: HttpRequest): set<FetchId> {
    if request.interceptionId.Some? then attempted - {request.interceptionId.value} else attempted
  }

  /** Starts a request. A redirect of a live request turns that request into the last hop of the new one's chain. */
  function OnRequest(s: Network, event: SentEvent, interception: Option<FetchId>): Network {
    var id := event.requestId;
    var redirected := event.redirect.Some? && id in s.requests;
    var chain :=
      if redirected
      then s.requests[id].redirectChain + [s.requests[id].(response := event.redirect, redirectChain := [])]
      else [];
    s.(attempted := if redirected then Released(s.attempted, s.requests[id]) else s.attempted,
       requests := s.requests[id := NewRequest(id, event.frame, interception, s.userInterception, chain)])
    .Push(RequestStarted(id))
  }

  /** A request paused only for the sake of authentication is continued at once. */
  function ContinueUnlessAsked(s: Network, id: FetchId): Network {
    if !s.userInterception && s.protocolInterception then s.Push(SendCdpRequest(ContinueRequest(id))) else s
  }

  /** Pairs a pause with the announcement of the same request, or keeps it until that announcement. */
  function PairPaused(s: Network, fetchId: FetchId, id: RequestId): Network {
    if id in s.willBeSent
    then OnRequest(s.(willBeSent := s.willBeSent - {id}), s.willBeSent[id], Some(fetchId))
    else s.(interceptionIds := s.interceptionIds[id := fetchId])
  }

  function OnRequestPaused(s: Network, event: PausedEvent): Network {
    var s1 := ContinueUnlessAsked(s, event.fetchId);
    match event.networkId
    case None => s1
    case Some(id) => PairPaused(s1, event.fetchId, id)
  }

  function OnWillBeSent(s: Network, event: SentEvent): Network {
    var id := event.requestId;
    if s.protocolInterception && !event.dataUrl then
      if id in s.interceptionIds
      then OnRequest(s.(interceptionIds := s.interceptionIds - {id}), event, Some(s.interceptionIds[id]))
      else s.(willBeSent := s.willBeSent[id := event])
    else OnRequest(s, event, None)
  }

  function OnServedFromCache(s: Network, id: RequestId): Network {
    if id in s.requests then s.(requests := s.requests[id := s.requests[id].(fromMemoryCache := true)]) else s
  }

  function OnResponseReceived(s: Network, id: RequestId, response: HttpResponse): Network {
    if id in s.requests
    then s.(requests := s.requests - {id}).Push(RequestFinished(s.requests[id].(response := Some(response))))
    else s
  }

  function OnLoadingFinished(s: Network, id: RequestId): Network {
    if id in s.requests
    then s.(requests := s.requests - {id}, attempted := Released(s.attempted, s.requests[id]))
         .Push(RequestFinished(s.requests[id]))
    else s
  }

  function OnLoadingFailed(s: Network, id: RequestId, text: string): Network {
    if id in s.requests
    then s.(requests := s.requests - {id}, attempted := Released(s.attempted, s.requests[id]))
         .Push(RequestFailed(s.requests[id].(failureText := Some(text))))
    else s
  }

  // ---------- Authentication ----------

  function AnswerTo(s: Network, id: FetchId): AuthAnswer {
    if id in s.attempted then CancelAuth
    else if s.credentials.Some? then ProvideCredentials
    else Default
  }

  function OnAuthRequired(s: Network, id: FetchId): Network {
    var answer := AnswerTo(s, id);
    s.(attempted := if answer == ProvideCredentials then s.attempted + {id} else s.attempted)
    .Push(SendCdpRequest(ContinueWithAuth(id, answer, s.credentials)))
  }

  // ---------- Steps and runs ----------

  datatype Event =
    | ExtraHeadersSet(headers: map<string, string>)
    | InterceptionSet(enabled: bool)
    | CacheEnabledSet(enabled: bool)
    | Authenticated(credentials: Credentials)
    | OfflineSet(value: bool)
    | RequestPaused(paused: PausedEvent)
    | AuthRequired(fetchId: FetchId)
    | WillBeSent(sent: SentEvent)
    | ServedFromCache(id: RequestId)
    | ResponseReceived(id: RequestId, response: HttpResponse)
    | LoadingFinished(id: RequestId)
    | LoadingFailed(id: RequestId, text: string)
    | Polled

  function Step(s: Network, e: Event): Network {
    match e
    case ExtraHeadersSet(headers) => SetExtraHeaders(s, headers)
    case InterceptionSet(enabled) => SetRequestInterception(s, enabled)
    case CacheEnabledSet(enabled) => SetCacheEnabled(s, enabled)
    case Authenticated(credentials) => Authenticate(s, credentials)
    case OfflineSet(value) => SetOfflineMode(s, value)
    case RequestPaused(paused) => OnRequestPaused(s, paused)
    case AuthRequired(id) => OnAuthRequired(s, id)
    case WillBeSent(sent) => OnWillBeSent(s, sent)
    case ServedFromCache(id) => OnServedFromCache(s, id)
    case ResponseReceived(id, response) => OnResponseReceived(s, id, response)
    case LoadingFinished(id) => OnLoadingFinished(s, id)
    case LoadingFailed(id, text) => OnLoadingFailed(s, id, text)
    case Polled => if s.queue == [] then s else s.(queue := s.queue[1..])
  }

  function Run(trace: seq<Event>): Network {
    if trace == [] then NEW_NETWORK else Step(Run(trace[..|trace| - 1]), trace[|trace| - 1])
  }

  /** What polls have taken from the front of the queue so far. */
  function Taken(trace: seq<Event>): seq<NetworkEvent> {
    if trace == [] then []
    else
      var s := Run(trace[..|trace| - 1]);
      Taken(trace[..|trace| - 1]) + if trace[|trace| - 1].Polled? && s.queue != [] then [s.queue[0]] else []
  }

  /** Everything put out so far: what was taken, then what still waits. */
  function Emitted(trace: seq<Event>): seq<NetworkEvent> {
    Taken(trace) + Run(trace).queue
  }

  // ---------- What one step puts out ----------

  /** A request about to start, with the interception it was paired with. */
  datatype Start = Start(event: SentEvent, interception: Option<FetchId>)

  /** The request that a step starts, if any. */
  function StartOf(s: Network, e: Event): Option<Start> {
    match e
    case RequestPaused(paused) =>
      if paused.networkId.Some? && paused.networkId.value in s.willBeSent
      then Some(Start(s.willBeSent[paused.networkId.value], Some(paused.fetchId)))
      else None
    case WillBeSent(sent) =>
      if !s.protocolInterception || sent.dataUrl then Some(Start(sent, None))
      else if sent.requestId in s.interceptionIds then Some(Start(sent, Some(s.interceptionIds[sent.requestId])))
      else None
    case _ => None
  }

  /** The request that a step ends, as it is reported. */
  function EndOf(s: Network, e: Event): Option<HttpRequest> {
    match e
    case ResponseReceived(id, response) =>
      if id in s.requests then Some(s.requests[id].(response := Some(response))) else None
    case LoadingFinished(id) => if id in s.requests then Some(s.requests[id]) else None
    case LoadingFailed(id, text) => if id in s.requests then Some(s.requests[id].(failureText := Some(text))) else None
    case _ => None
  }

  function InterceptionPuts(s: Network): seq<NetworkEvent> {
    var enabled := s.userInterception || s.credentials.Some?;
    if enabled == s.protocolInterception then []
    else [SendCdpRequest(SetCacheDisabled(s.userCacheDisabled || s.protocolInterception)),
          SendCdpRequest(if enabled then FetchEnable else FetchDisable)]
  }

  function CommandPuts(s: Network, e: Event): seq<NetworkEvent> {
    match e
    case ExtraHeadersSet(headers) => [SendCdpRequest(ExtraHeaders(headers))]
    case InterceptionSet(enabled) => InterceptionPuts(s.(userInterception := enabled))
    case CacheEnabledSet(enabled) => [SendCdpRequest(SetCacheDisabled(!enabled || s.protocolInterception))]
    case Authenticated(credentials) => InterceptionPuts(s.(credentials := Some(credentials)))
    case OfflineSet(value) => if s.offline == value then [] else [SendCdpRequest(EmulateOffline(value))]
    case RequestPaused(paused) =>
      if !s.userInterception && s.protocolInterception then [SendCdpRequest(ContinueRequest(paused.fetchId))] else []
    case AuthRequired(id) => [SendCdpRequest(ContinueWithAuth(id, AnswerTo(s, id), s.credentials))]
    case _ => []
  }

  function RequestPuts(s: Network, e: Event): seq<NetworkEvent> {
    if StartOf(s, e).Some? then [RequestStarted(StartOf(s, e).value.event.requestId)]
    else if EndOf(s, e).Some? then
      [if e.LoadingFailed? then RequestFailed(EndOf(s, e).value) else RequestFinished(EndOf(s, e).value)]
    else []
  }

  /** A step puts out its commands, then the request it starts or ends. */
  function Puts(s: Network, e: Event): seq<NetworkEvent> {
    CommandPuts(s, e) + RequestPuts(s, e)
  }

  lemma InterceptionAppends(s: Network)
    ensures UpdateInterception(s).queue == s.queue + InterceptionPuts(s)
  {
  }

  lemma OnRequestAppends(s: Network, event: SentEvent, interception: Option<FetchId>)
    ensures OnRequest(s, event, interception).queue == s.queue + [RequestStarted(event.requestId)]
  {
  }

  lemma PausedAppends(s: Network, paused: PausedEvent)
    ensures OnRequestPaused(s, paused).queue == s.queue + Puts(s, RequestPaused(paused))
  {
    hide OnRequest;
    var e := RequestPaused(paused);
    var s1 := ContinueUnlessAsked(s, paused.fetchId);
    assert s1.queue == s.queue + CommandPuts(s, e);
    if StartOf(s, e).Some? {
      var id := paused.networkId.value;
      OnRequestAppends(s1.(willBeSent := s1.willBeSent - {id}), s1.willBeSent[id], Some(paused.fetchId));
    }
    assert s.queue + CommandPuts(s, e) + RequestPuts(s, e) == s.queue + (CommandPuts(s, e) + RequestPuts(s, e));
  }

  lemma SentAppends(s: Network, sent: SentEvent)
    ensures OnWillBeSent(s, sent).queue == s.queue + Puts(s, WillBeSent(sent))
  {
    var e := WillBeSent(sent);
    if StartOf(s, e).Some? {
      OnRequestAppends(s.(interceptionIds := s.interceptionIds - {sent.requestId}), sent, StartOf(s, e).value.interception);
      assert [] + RequestPuts(s, e) == RequestPuts(s, e);
    }
  }

  lemma StepAppends(s: Network, e: Event)
    requires !e.Polled?
    ensures Step(s, e).queue == s.queue + Puts(s, e)
  {
    match e
    case InterceptionSet(enabled) => SwitchAppends(s, e);
    case Authenticated(credentials) => SwitchAppends(s, e);
    case RequestPaused(paused) =>
      hide Puts, OnRequestPaused;
      PausedAppends(s, paused);
    case WillBeSent(sent) =>
      hide Puts, OnWillBeSent;
      SentAppends(s, sent);
    case ResponseReceived(_, _) => EndAppends(s, e);
    case LoadingFinished(_) => EndAppends(s, e);
    case LoadingFailed(_, _) => EndAppends(s, e);
    case _ => OthersAppend(s, e);
  }

  lemma SwitchAppends(s: Network, e: Event)
    requires e.InterceptionSet? || e.Authenticated?
    ensures Step(s, e).queue == s.queue + Puts(s, e)
  {
    hide InterceptionPuts, UpdateInterception;
    var s1 := if e.InterceptionSet? then s.(userInterception := e.enabled) else s.(credentials := Some(e.credentials));
    InterceptionAppends(s1);
    assert InterceptionPuts(s1) + [] == InterceptionPuts(s1);
  }

  lemma EndAppends(s: Network, e: Event)
    requires e.ResponseReceived? || e.LoadingFinished? || e.LoadingFailed?
    ensures Step(s, e).queue == s.queue + Puts(s, e)
  {
    hide Released;
    assert [] + RequestPuts(s, e) == RequestPuts(s, e);
    assert s.queue + [] == s.queue;
  }

  lemma OthersAppend(s: Network, e: Event)
    requires !e.Polled? && !e.InterceptionSet? && !e.Authenticated? && !e.RequestPaused? && !e.WillBeSent?
    requires !e.ResponseReceived? && !e.LoadingFinished? && !e.LoadingFailed?
    ensures Step(s, e).queue == s.queue + Puts(s, e)
  {
    hide OnRequestPaused, OnWillBeSent, UpdateInterception, OnLoadingFinished, OnLoadingFailed, OnResponseReceived, AnswerTo;
    assert RequestPuts(s, e) == [];
    assert CommandPuts(s, e) + [] == CommandPuts(s, e);
  }

  lemma PollTakesFirst(trace: seq<Event>)
    requires trace != [] && trace[|trace| - 1].Polled?
    ensures Emitted(trace) == Emitted(trace[..|trace| - 1])
    ensures Puts(Run(trace[..|trace| - 1]), trace[|trace| - 1]) == []
  {
  }

  /** The queue is first in, first out: a step appends what it puts out to everything put out before. */
  lemma EmittedGrows(trace: seq<Event>)
    requires trace != []
    ensures Emitted(trace) == Emitted(trace[..|trace| - 1]) + Puts(Run(trace[..|trace| - 1]), trace[|trace| - 1])
  {
    var before := trace[..|trace| - 1];
    var e := trace[|trace| - 1];
    hide Step, Puts, EndOf, StartOf;
    assert trace == before + [e];
    if e.Polled? {
      PollTakesFirst(trace);
      assert Emitted(before) + [] == Emitted(before);
    } else {
      StepAppends(Run(before), e);
      var queue, more := Run(before).queue, Puts(Run(before), e);
      assert Run(trace).queue == queue + more;
      assert Taken(trace) == Taken(before) + [] == Taken(before);
      assert Taken(before) + (queue + more) == Taken(before) + queue + more;
    }
  }
}
