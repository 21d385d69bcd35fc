/** The handler as a function of its state (src/handler/mod.rs:55-522): the calls it waits for, the navigations it
  * joins, and where every reply sender is. A sender is a ticket; what is sent on it is an answer to the ticket. */
module HandlerSpec {
  import opened Options
  import opened Identifiers
  import opened Navigation

  datatype CallId = CallId(raw: nat)
  datatype TargetId = TargetId(raw: string)

  datatype Payload = CreatedTarget(target: TargetId) | TargetList(targets: seq<TargetId>) | Data(raw: string) | Refused

  datatype Response = Response(id: CallId, payload: Payload)

  datatype Reply =
    | RespondedWith(response: Response)
    | Page(target: TargetId)
    | Pages
    | TargetInfos(targets: seq<TargetId>)
    | Closed
    | TimedOut
    | Failed
    | NavigationFailed(error: NavigationError)

  datatype Answer = Answer(ticket: Ticket, reply: Reply)

  datatype PendingRequest =
    | CreateTarget(tx: Ticket)
    | GetTargets(tx: Ticket)
    | Navigate(id: NavigationId)
    | ExternalCommand(tx: Ticket)
    | InternalCommand(target: TargetId)
    | CloseBrowser(tx: Ticket)
  {
    predicate HasSender() {
      CreateTarget? || GetTargets? || ExternalCommand? || CloseBrowser?
    }
  }

  datatype PendingCall = PendingCall(request: PendingRequest, since: nat)

  /** A navigation waits for the response to its call and for the page to have loaded, in either order. */
  datatype NavigationInProgress = NavigationInProgress(navigated: bool, response: Option<Response>, tx: Ticket)

  /** Of a target the handler's bookkeeping only concerns who asked for its page. */
  datatype Handler = Handler(
    pending: map<CallId, PendingCall>,
    navigations: map<NavigationId, NavigationInProgress>,
    targets: map<TargetId, Option<Ticket>>,
    targetIds: seq<TargetId>,
    nextCall: nat,
    nextNavigation: nat,
    closing: bool,
    answered: seq<Answer>,
    discarded: seq<Ticket>)
  {
    function Answering(ticket: Ticket, reply: Reply): Handler {
      this.(answered := answered + [Answer(ticket, reply)])
    }

    function Discarding(ticket: Option<Ticket>): Handler {
      if ticket.Some? then this.(discarded := discarded + [ticket.value]) else this
    }
  }

  /** Right after start-up: one command, to discover targets, was already submitted and is not waited for. */
  const NEW_HANDLER := Handler(map[], map[], map[], [], 1, 0, false, [], [])

  // ---------- Submitting calls ----------

  function SenderOf(request: PendingRequest): Option<Ticket> {
    if request.HasSender() then Some(request.tx) else None
  }

  function SenderAt(pending: map<CallId, PendingCall>, id: CallId): Option<Ticket> {
    if id in pending then SenderOf(pending[id].request) else None
  }

  /** Submits a call and waits for its response. An entry under the same id would be overwritten. */
  function Track(s: Handler, request: PendingRequest, now: nat): Handler {
    var id := CallId(s.nextCall);
    s.Discarding(SenderAt(s.pending, id))
     .(pending := s.pending[id := PendingCall(request, now)], nextCall := Wrap(s.nextCall))
  }

  /** Creating a page is refused right away if its url is invalid. */
  function CreatePage(s: Handler, tx: Ticket, valid: bool, now: nat): Handler {
    if valid then Track(s, CreateTarget(tx), now) else s.Answering(tx, Failed)
  }

  /** A navigation asked for through a page is registered under the next navigation id. */
  function AskNavigation(s: Handler, tx: Ticket): Handler {
    var id := NavigationId(s.nextNavigation);
    s.Discarding(if id in s.navigations then Some(s.navigations[id].tx) else None)
     .(navigations := s.navigations[id := NavigationInProgress(false, None, tx)], nextNavigation := Wrap(s.nextNavigation))
  }

  // ---------- Joining the two halves of a navigation ----------

  function OnNavigationResponse(s: Handler, id: NavigationId, response: Response): Handler {
    if id !in s.navigations then s
    else
      var nav := s.navigations[id];
      if nav.navigated
      then s.(navigations := s.navigations - {id}).Answering(nav.tx, RespondedWith(response))
      else s.(navigations := s.navigations[id := nav.(response := Some(response))])
  }

  function OnLifecycleCompleted(s: Handler, result: NavigationResult): Handler {
    var id := result.Id();
    if id !in s.navigations then s
    else
      var nav := s.navigations[id];
      match result
      case Ok(_) =>
        if nav.response.Some?
        then s.(navigations := s.navigations - {id}).Answering(nav.tx, RespondedWith(nav.response.value))
        else s.(navigations := s.navigations[id := nav.(navigated := true)])
      case Err(error) => s.(navigations := s.navigations - {id}).Answering(nav.tx, NavigationFailed(error))
  }

  // ---------- Targets ----------

  function InitiatorOf(s: Handler, id: TargetId): Option<Ticket> {
    if id in s.targets then s.targets[id] else None
  }

  /** A target announced again replaces the one that was there. */
  function OnTargetCreated(s: Handler, id: TargetId): Handler {
    s.Discarding(InitiatorOf(s, id)).(targets := s.targets[id := None], targetIds := s.targetIds + [id])
  }

  function OnTargetDestroyed(s: Handler, id: TargetId): Handler {
    s.Discarding(InitiatorOf(s, id)).(targets := s.targets - {id})
  }

  function SetInitiator(s: Handler, id: TargetId, tx: Ticket): Handler {
    s.Discarding(InitiatorOf(s, id)).(targets := s.targets[id := Some(tx)])
  }

  /** A target answers whoever asked for its page: with the page, or with a timeout if it could not be initialized. */
  function OnTargetDone(s: Handler, id: TargetId, ready: bool): Handler {
    var tx := InitiatorOf(s, id);
    if tx.None? then s
    else s.(targets := s.targets[id := None]).Answering(tx.value, if ready then Page(id) else TimedOut)
  }

  /** Known targets are announced one by one, and a command to attach to each is submitted without waiting for it. */
  function AnnounceTargets(s: Handler, ids: seq<TargetId>): Handler
    decreases |ids|
  {
    if ids == [] then s
    else
      var s1 := OnTargetCreated(s, ids[0]);
      AnnounceTargets(s1.(nextCall := Wrap(s1.nextCall)), ids[1..])
  }

  // ---------- Responses ----------

  datatype Outcome = Alive(handler: Handler) | Panicked

  function OnResponse(s: Handler, response: Response): Outcome {
    if response.id !in s.pending then Alive(s)
    else
      var request := s.pending[response.id].request;
      var s1 := s.(pending := s.pending - {response.id});
      match request
      case CreateTarget(tx) =>
        if response.payload.CreatedTarget? then
          if response.payload.target in s.targets then Alive(SetInitiator(s1, response.payload.target, tx)) else Panicked
        else Alive(s1.Answering(tx, Failed))
      case GetTargets(tx) =>
        if response.payload.TargetList?
        then Alive(AnnounceTargets(s1, response.payload.targets).Answering(tx, TargetInfos(response.payload.targets)))
        else Alive(s1.Answering(tx, Failed))
      case Navigate(id) => Alive(OnNavigationResponse(s1, id, response))
      case ExternalCommand(tx) => Alive(s1.Answering(tx, RespondedWith(response)))
      case InternalCommand(_) => Alive(s1)
      case CloseBrowser(tx) => Alive(s1.(closing := true).Answering(tx, Closed))
  }

  // ---------- Evicting calls ----------

  predicate IsTimedOut(s: Handler, id: CallId, now: nat, timeout: nat) {
    id in s.pending && now > s.pending[id].since + timeout
  }

  function EvictOne(s: Handler, call: CallId): Handler {
    if call !in s.pending then s
    else
      var request := s.pending[call].request;
      var s1 := s.(pending := s.pending - {call});
      match request
      case Navigate(id) =>
        if id in s.navigations
        then s1.(navigations := s.navigations - {id}).Answering(s.navigations[id].tx, TimedOut)
        else s1
      case InternalCommand(_) => s1
      case _ => s1.Answering(request.tx, TimedOut)
  }

  /** Calls are evicted one after the other, in the order in which they were collected. */
  function Evict(s: Handler, calls: seq<CallId>): Handler {
    if calls == [] then s else EvictOne(Evict(s, calls[..|calls| - 1]), calls[|calls| - 1])
  }

  /** `calls` lists the timed-out calls without repetition, in whatever order the table yields them. */
  predicate Collects(s: Handler, calls: seq<CallId>, now: nat, timeout: nat) {
    && (forall i, j | 0 <= i < j < |calls| :: calls[i] != calls[j])
    && (forall id | id in s.pending :: IsTimedOut(s, id, now, timeout) <==> id in calls)
    && (forall id | id in calls :: id in s.pending)
  }

  // ---------- Steps and runs ----------

  datatype Event =
    | CommandSubmitted(tx: Ticket, now: nat)
    | FetchTargetsSubmitted(tx: Ticket, now: nat)
    | CloseSubmitted(tx: Ticket, now: nat)
    | PageRequested(tx: Ticket, valid: bool, now: nat)
    | PagesListed(tx: Ticket)
    | NavigationAsked(tx: Ticket)
    | NavigationSubmitted(id: NavigationId, now: nat)
    | InternalSubmitted(target: TargetId, now: nat)
    | LifecycleCompleted(result: NavigationResult)
    | ResponseArrived(response: Response)
    | TargetCreated(target: TargetId)
    | TargetDestroyed(target: TargetId)
    | TargetDone(target: TargetId, ready: bool)
    | Evicted(calls: seq<CallId>, now: nat, timeout: nat)

  function Step(s: Handler, e: Event): Outcome {
    match e
    case CommandSubmitted(tx, now) => Alive(Track(s, ExternalCommand(tx), now))
    case FetchTargetsSubmitted(tx, now) => Alive(Track(s, GetTargets(tx), now))
    case CloseSubmitted(tx, now) => Alive(Track(s, CloseBrowser(tx), now))
    case PageRequested(tx, valid, now) => Alive(CreatePage(s, tx, valid, now))
    case PagesListed(tx) => Alive(s.Answering(tx, Pages))
    case NavigationAsked(tx) => Alive(AskNavigation(s, tx))
    case NavigationSubmitted(id, now) => Alive(Track(s, Navigate(id), now))
    case InternalSubmitted(target, now) => Alive(Track(s, InternalCommand(target), now))
    case LifecycleCompleted(result) => Alive(OnLifecycleCompleted(s, result))
    case ResponseArrived(response) => OnResponse(s, response)
    case TargetCreated(target) => Alive(OnTargetCreated(s, target))
    case TargetDestroyed(target) => Alive(OnTargetDestroyed(s, target))
    case TargetDone(target, ready) => Alive(OnTargetDone(s, target, ready))
    case Evicted(calls, _, _) => Alive(Evict(s, calls))
  }

  /** Only eviction constrains its event: it names the timed-out calls. */
  predicate Possible(s: Handler, e: Event) {
    e.Evicted? ==> Collects(s, e.calls, e.now, e.timeout)
  }

  function Run(trace: seq<Event>): Outcome {
    if trace == [] then Alive(NEW_HANDLER)
    else match Run(trace[..|trace| - 1])
         case Panicked => Panicked
         case Alive(s) => Step(s, trace[|trace| - 1])
  }

  /** The sender an event brings in, if any. */
  function Brings(e: Event): Option<Ticket> {
    match e
    case CommandSubmitted(tx, _) => Some(tx)
    case FetchTargetsSubmitted(tx, _) => Some(tx)
    case CloseSubmitted(tx, _) => Some(tx)
    case PageRequested(tx, _, _) => Some(tx)
    case PagesListed(tx) => Some(tx)
    case NavigationAsked(tx) => Some(tx)
    case _ => None
  }

  function Accepted(trace: seq<Event>): set<Ticket> {
    if trace == [] then {}
    else
      var tx := Brings(trace[|trace| - 1]);
      Accepted(trace[..|trace| - 1]) + if tx.Some? then {tx.value} else {}
  }

  /** A sender cannot be duplicated, so no two events bring the same one. */
  predicate FreshSenders(trace: seq<Event>) {
    forall i, j | 0 <= i < j < |trace| && Brings(trace[i]).Some? :: Brings(trace[i]) != Brings(trace[j])
  }
}
