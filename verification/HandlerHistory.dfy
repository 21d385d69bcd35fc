/** What the handler waits for and whom it answers, computed from its events alone (src/handler/mod.rs:147-522). */
module HandlerHistory {
  import opened Options
  import opened Sequences
  import opened Identifiers
  import opened Navigation
  import opened HandlerSpec

  // ---------- The calls that wait ----------

  /** The call that an event submits and waits for. */
  function Submitted(e: Event): Option<PendingCall> {
    match e
    case CommandSubmitted(tx, now) => Some(PendingCall(ExternalCommand(tx), now))
    case FetchTargetsSubmitted(tx, now) => Some(PendingCall(GetTargets(tx), now))
    case CloseSubmitted(tx, now) => Some(PendingCall(CloseBrowser(tx), now))
    case PageRequested(tx, valid, now) => if valid then Some(PendingCall(CreateTarget(tx), now)) else None
    case NavigationSubmitted(id, now) => Some(PendingCall(Navigate(id), now))
    case InternalSubmitted(target, now) => Some(PendingCall(InternalCommand(target), now))
    case _ => None
  }

  /** How many call ids an event uses up. Every announced target is attached to by a call that nothing waits for. */
  function IdsBy(before: seq<Event>, e: Event): nat
    decreases |before|, 1
  {
    if Submitted(e).Some? then 1
    else
      match e
      case ResponseArrived(Response(id, TargetList(targets))) =>
        (match CallOf(before, id) case Some(PendingCall(GetTargets(_), _)) => |targets| case _ => 0)
      case _ => 0
  }

  /** The next call id: the first one went to the discovery of targets. */
  function NextCallOf(trace: seq<Event>): nat
    decreases |trace|, 0
  {
    if trace == [] then 1 else (NextCallOf(Front(trace)) + IdsBy(Front(trace), Last(trace))) % USIZE
  }

  /** The call that waits under this id: submitted, and neither answered nor evicted since. */
  function CallOf(trace: seq<Event>, call: CallId): Option<PendingCall>
    decreases |trace|, 0
  {
    if trace == [] then None
    else
      var before, e := Front(trace), Last(trace);
      if Submitted(e).Some? && NextCallOf(before) == call.raw then Submitted(e)
      else
        match e
        case ResponseArrived(response) => if response.id == call then None else CallOf(before, call)
        case Evicted(calls, _, _) => if call in calls then None else CallOf(before, call)
        case _ => CallOf(before, call)
  }

  /** The request that waits under this id. */
  function WaitingFor(trace: seq<Event>, call: CallId): Option<PendingRequest> {
    match CallOf(trace, call) case None => None case Some(c) => Some(c.request)
  }

  // ---------- The navigations that wait ----------

  function NextNavigationOf(trace: seq<Event>): nat {
    if trace == [] then 0
    else if Last(trace).NavigationAsked? then Wrap(NextNavigationOf(Front(trace)))
    else NextNavigationOf(Front(trace))
  }

  /** The event is the response to a call for this navigation, or names one that is evicted. */
  predicate Responds(before: seq<Event>, e: Event, id: NavigationId) {
    e.ResponseArrived? && WaitingFor(before, e.response.id) == Some(Navigate(id))
  }

  predicate EvictsNavigation(before: seq<Event>, e: Event, id: NavigationId) {
    e.Evicted? && exists call :: call in e.calls && WaitingFor(before, call) == Some(Navigate(id))
  }

  /** How far the navigation with this id is: asked for, and neither answered nor failed nor evicted since. */
  function NavigationOf(trace: seq<Event>, id: NavigationId): Option<NavigationInProgress> {
    if trace == [] then None
    else
      var before, e := Front(trace), Last(trace);
      var nav := NavigationOf(before, id);
      if e.NavigationAsked? && NextNavigationOf(before) == id.raw then Some(NavigationInProgress(false, None, e.tx))
      else if nav.None? then None
      else if e.LifecycleCompleted? && e.result.Id() == id then
        if e.result.Err? || nav.value.response.Some? then None else Some(nav.value.(navigated := true))
      else if Responds(before, e, id) then
        if nav.value.navigated then None else Some(nav.value.(response := Some(e.response)))
      else if EvictsNavigation(before, e, id) then None
      else nav
  }

  // ---------- The targets, and who asked for them ----------

  predicate AnnouncesTarget(before: seq<Event>, e: Event, target: TargetId) {
    || e == TargetCreated(target)
    || (&& e.ResponseArrived? && e.response.payload.TargetList? && target in e.response.payload.targets
        && WaitingFor(before, e.response.id).Some? && WaitingFor(before, e.response.id).value.GetTargets?)
  }

  /** Who asked for the target, if it is known. */
  function InitiatorIn(trace: seq<Event>, target: TargetId): Option<Option<Ticket>> {
    if trace == [] then None
    else
      var before, e := Front(trace), Last(trace);
      var initiator := InitiatorIn(before, target);
      if AnnouncesTarget(before, e, target) then Some(None)
      else
        match e
        case TargetDestroyed(t) => if t == target then None else initiator
        case TargetDone(t, _) => if t == target && initiator.Some? then Some(None) else initiator
        case ResponseArrived(Response(id, CreatedTarget(t))) =>
          (match WaitingFor(before, id)
           case Some(CreateTarget(tx)) => if t == target then Some(Some(tx)) else initiator
           case _ => initiator)
        case _ => initiator
  }

  // ---------- The tables are these ----------

  ghost predicate CallFits(s: Handler, trace: seq<Event>, call: CallId) {
    CallOf(trace, call) == if call in s.pending then Some(s.pending[call]) else None
  }

  ghost predicate NavigationFits(s: Handler, trace: seq<Event>, id: NavigationId) {
    NavigationOf(trace, id) == if id in s.navigations then Some(s.navigations[id]) else None
  }

  ghost predicate TargetFits(s: Handler, trace: seq<Event>, target: TargetId) {
    InitiatorIn(trace, target) == if target in s.targets then Some(s.targets[target]) else None
  }

  ghost predicate TablesFit(s: Handler, trace: seq<Event>) {
    && s.nextCall == NextCallOf(trace) && s.nextNavigation == NextNavigationOf(trace) && s.nextCall < USIZE
    && (forall call :: CallFits(s, trace, call))
    && (forall id :: NavigationFits(s, trace, id))
    && (forall target :: TargetFits(s, trace, target))
  }

  // ---------- One step ----------

  /** Announcing these targets makes them known, with nobody asking for them, and uses up a call id for each. */
  ghost predicate AnnouncedTo(s: Handler, s': Handler, targets: seq<TargetId>) {
    && s'.pending == s.pending && s'.navigations == s.navigations && s'.nextNavigation == s.nextNavigation
    && s'.nextCall == (s.nextCall + |targets|) % USIZE && s'.answered == s.answered && s'.closing == s.closing
    && (forall t :: t in s'.targets <==> t in s.targets || t in targets)
    && (forall t | t in s'.targets :: s'.targets[t] == if t in targets then None else s.targets[t])
  }

  lemma {:induction false} AnnouncedTables(s: Handler, targets: seq<TargetId>)
    requires s.nextCall < USIZE
    ensures AnnouncedTo(s, AnnounceTargets(s, targets), targets)
    decreases |targets|
  {
    hide Wrap, OnTargetCreated, AnnounceTargets, AnnouncedTo;
    if targets == [] {
      NothingAnnounced(s);
    } else {
      var s1 := OnTargetCreated(s, targets[0]);
      var s2 := s1.(nextCall := Wrap(s1.nextCall));
      var rest := targets[1..];
      CreatedTables(s, targets[0]);
      OneMoreId(s.nextCall);
      AnnouncedTables(s2, rest);
      AddInSteps(s.nextCall, |rest|);
      AnnounceFirst(s, targets);
      AnnouncedMore(s, s2, AnnounceTargets(s2, rest), targets[0], rest);
      assert targets == [targets[0]] + rest;
    }
  }

  lemma NothingAnnounced(s: Handler)
    requires s.nextCall < USIZE
    ensures AnnouncedTo(s, AnnounceTargets(s, []), [])
  {
    NoIdTaken(s.nextCall);
  }

  lemma AnnounceFirst(s: Handler, targets: seq<TargetId>)
    requires targets != []
    ensures var s1 := OnTargetCreated(s, targets[0]);
            AnnounceTargets(s, targets) == AnnounceTargets(s1.(nextCall := Wrap(s1.nextCall)), targets[1..])
  {
    hide OnTargetCreated, Wrap;
  }

  lemma AnnouncedMore(s: Handler, s2: Handler, s': Handler, first: TargetId, rest: seq<TargetId>)
    requires s2 == s.(targets := s.targets[first := None], discarded := s2.discarded, targetIds := s2.targetIds,
                      nextCall := s2.nextCall)
    requires (s2.nextCall + |rest|) % USIZE == (s.nextCall + (|rest| + 1)) % USIZE
    requires AnnouncedTo(s2, s', rest)
    ensures AnnouncedTo(s, s', [first] + rest)
  {
    assert |[first] + rest| == |rest| + 1;
  }

  lemma CreatedTables(s: Handler, t: TargetId)
    ensures var s' := OnTargetCreated(s, t);
            s' == s.(targets := s.targets[t := None], discarded := s'.discarded, targetIds := s.targetIds + [t])
  {
  }

  lemma AddInSteps(n: nat, k: nat)
    ensures (Wrap(n) + k) % USIZE == (n + (k + 1)) % USIZE
  {
    var q, r := (n + 1) / USIZE, (n + 1) % USIZE;
    assert n + 1 == USIZE * q + r;
    ModuloOf(r + k, q);
  }

  lemma {:induction false} ModuloOf(n: nat, q: nat)
    ensures (n + USIZE * q) % USIZE == n % USIZE
    decreases q
  {
    if q > 0 {
      ModuloOf(n, q - 1);
      assert n + USIZE * q == (n + USIZE * (q - 1)) + USIZE;
      PlusOnce(n + USIZE * (q - 1));
    }
  }

  lemma PlusOnce(n: nat)
    ensures (n + USIZE) % USIZE == n % USIZE
  {
  }

  /** One of the calls belongs to this navigation. */
  predicate Named(s: Handler, calls: seq<CallId>, id: NavigationId) {
    exists c :: c in calls && c in s.pending && s.pending[c].request == Navigate(id)
  }

  /** Exactly the named calls are gone, with the navigations that they belong to. */
  ghost predicate EvictedTo(s: Handler, s': Handler, calls: seq<CallId>) {
    && s'.nextCall == s.nextCall && s'.nextNavigation == s.nextNavigation && s'.targets == s.targets
    && s'.discarded == s.discarded && s'.closing == s.closing && s'.targetIds == s.targetIds
    && s'.pending == (map c | c in s.pending && c !in calls :: s.pending[c])
    && (forall id :: id in s'.navigations <==> id in s.navigations && !Named(s, calls, id))
    && (forall id | id in s'.navigations :: s'.navigations[id] == s.navigations[id])
  }

  lemma {:induction false} EvictedTables(s: Handler, calls: seq<CallId>)
    ensures EvictedTo(s, Evict(s, calls), calls)
    decreases |calls|
  {
    if calls != [] {
      EvictedTables(s, Front(calls));
      EvictOneMore(s, calls);
      hide Evict, EvictedTo;
      EvictedOne(s, Evict(s, Front(calls)), Front(calls), Last(calls));
      assert calls == Front(calls) + [Last(calls)];
    }
  }

  lemma EvictOneMore(s: Handler, calls: seq<CallId>)
    requires calls != []
    ensures Evict(s, calls) == EvictOne(Evict(s, Front(calls)), Last(calls))
  {
    hide EvictOne;
  }

  lemma EvictOneTables(s: Handler, call: CallId)
    ensures var s' := EvictOne(s, call);
            && s'.nextCall == s.nextCall && s'.nextNavigation == s.nextNavigation && s'.targets == s.targets
            && s'.discarded == s.discarded && s'.closing == s.closing && s'.targetIds == s.targetIds
            && s'.pending == s.pending - {call}
            && s'.navigations == if call in s.pending && s.pending[call].request.Navigate?
                                 then s.navigations - {s.pending[call].request.id} else s.navigations
  {
    if call !in s.pending {
      assert s.pending - {call} == s.pending;
    } else if s.pending[call].request.Navigate? && s.pending[call].request.id !in s.navigations {
      assert s.navigations - {s.pending[call].request.id} == s.navigations;
    }
  }

  lemma NamedOneMore(s: Handler, calls: seq<CallId>, call: CallId, id: NavigationId)
    ensures Named(s, calls + [call], id) <==>
            Named(s, calls, id) || (call in s.pending && s.pending[call].request == Navigate(id))
  {
  }

  lemma EvictedOne(s: Handler, s1: Handler, fewer: seq<CallId>, call: CallId)
    requires EvictedTo(s, s1, fewer)
    ensures EvictedTo(s, EvictOne(s1, call), fewer + [call])
  {
    EvictOneTables(s1, call);
    hide EvictOne, Named;
    forall id
      ensures Named(s, fewer + [call], id) <==>
              Named(s, fewer, id) || (call in s.pending && s.pending[call].request == Navigate(id))
    {
      NamedOneMore(s, fewer, call, id);
    }
    if call in s.pending && call in fewer && s.pending[call].request.Navigate? {
      NamedAlready(s, fewer, call);
    }
  }

  lemma NamedAlready(s: Handler, calls: seq<CallId>, call: CallId)
    requires call in calls && call in s.pending && s.pending[call].request.Navigate?
    ensures Named(s, calls, s.pending[call].request.id)
  {
  }

  // ---------- What a step does to each table ----------

  lemma OneMoreId(n: nat)
    requires n < USIZE
    ensures Wrap(n) == (n + 1) % USIZE && (n + 0) % USIZE == n && Wrap(n) < USIZE
  {
  }

  lemma NoIdTaken(n: nat)
    requires n < USIZE
    ensures (n + 0) % USIZE == n
  {
  }

  /** How many call ids the step uses up. */
  function IdsIn(s: Handler, e: Event): nat {
    if Submitted(e).Some? then 1
    else if e.ResponseArrived? && e.response.payload.TargetList? && e.response.id in s.pending
            && s.pending[e.response.id].request.GetTargets?
    then |e.response.payload.targets|
    else 0
  }

  ghost predicate PendingAfter(s: Handler, e: Event, s': Handler) {
    && s'.nextCall == (s.nextCall + IdsIn(s, e)) % USIZE
    && s'.pending ==
         if Submitted(e).Some? then s.pending[CallId(s.nextCall) := Submitted(e).value]
         else if e.ResponseArrived? then s.pending - {e.response.id}
         else if e.Evicted? then map c | c in s.pending && c !in e.calls :: s.pending[c]
         else s.pending
  }

  lemma StepPending(s: Handler, e: Event)
    requires s.nextCall < USIZE && Step(s, e).Alive?
    ensures PendingAfter(s, e, Step(s, e).handler)
  {
    OneMoreId(s.nextCall);
    hide OnResponse, Evict, Wrap, AskNavigation, OnLifecycleCompleted, OnTargetCreated, OnTargetDestroyed, OnTargetDone;
    match e
    case ResponseArrived(response) => ResponsePending(s, response);
    case Evicted(calls, _, _) => EvictedTables(s, calls);
    case NavigationAsked(tx) => OthersKeepPending(s, e);
    case LifecycleCompleted(result) => OthersKeepPending(s, e);
    case TargetCreated(target) => OthersKeepPending(s, e);
    case TargetDestroyed(target) => OthersKeepPending(s, e);
    case TargetDone(target, ready) => OthersKeepPending(s, e);
    case _ =>
  }

  lemma OthersKeepPending(s: Handler, e: Event)
    requires e.NavigationAsked? || e.LifecycleCompleted? || e.TargetCreated? || e.TargetDestroyed? || e.TargetDone?
    ensures Step(s, e).handler.pending == s.pending && Step(s, e).handler.nextCall == s.nextCall
  {
  }

  lemma ResponsePending(s: Handler, response: Response)
    requires s.nextCall < USIZE && OnResponse(s, response).Alive?
    ensures PendingAfter(s, ResponseArrived(response), OnResponse(s, response).handler)
  {
    NoIdTaken(s.nextCall);
    hide AnnounceTargets, OnNavigationResponse;
    if response.id !in s.pending {
      assert s.pending - {response.id} == s.pending;
    } else {
      var s1 := s.(pending := s.pending - {response.id});
      match s.pending[response.id].request
      case GetTargets(_) => if response.payload.TargetList? { AnnouncedTables(s1, response.payload.targets); }
      case Navigate(id) => NavigationResponseTables(s1, id, response);
      case _ =>
    }
  }

  lemma NavigationResponseTables(s: Handler, id: NavigationId, response: Response)
    ensures var s' := OnNavigationResponse(s, id, response);
            && s'.pending == s.pending && s'.nextCall == s.nextCall && s'.targets == s.targets
            && s'.nextNavigation == s.nextNavigation
            && s'.navigations ==
                 if id !in s.navigations then s.navigations
                 else if s.navigations[id].navigated then s.navigations - {id}
                 else s.navigations[id := s.navigations[id].(response := Some(response))]
  {
  }

  ghost predicate NavigationsAfter(s: Handler, e: Event, s': Handler) {
    && s'.nextNavigation == (if e.NavigationAsked? then Wrap(s.nextNavigation) else s.nextNavigation)
    && match e
       case NavigationAsked(tx) =>
         s'.navigations == s.navigations[NavigationId(s.nextNavigation) := NavigationInProgress(false, None, tx)]
       case LifecycleCompleted(result) =>
         var id := result.Id();
         s'.navigations ==
           if id !in s.navigations then s.navigations
           else if result.Err? || s.navigations[id].response.Some? then s.navigations - {id}
           else s.navigations[id := s.navigations[id].(navigated := true)]
       case ResponseArrived(response) =>
         s'.navigations ==
           (if response.id !in s.pending || !s.pending[response.id].request.Navigate? then s.navigations
            else
              var id := s.pending[response.id].request.id;
              if id !in s.navigations then s.navigations
              else if s.navigations[id].navigated then s.navigations - {id}
              else s.navigations[id := s.navigations[id].(response := Some(response))])
       case Evicted(calls, _, _) =>
         && (forall id :: id in s'.navigations <==> id in s.navigations && !Named(s, calls, id))
         && (forall id | id in s'.navigations :: s'.navigations[id] == s.navigations[id])
       case _ => s'.navigations == s.navigations
  }

  lemma StepNavigations(s: Handler, e: Event)
    requires s.nextCall < USIZE && Step(s, e).Alive?
    ensures NavigationsAfter(s, e, Step(s, e).handler)
  {
    hide OnResponse, Evict, Wrap, Named;
    match e
    case ResponseArrived(response) => ResponseNavigations(s, response);
    case Evicted(calls, _, _) => EvictedTables(s, calls);
    case _ =>
  }

  lemma ResponseNavigations(s: Handler, response: Response)
    requires s.nextCall < USIZE && OnResponse(s, response).Alive?
    ensures NavigationsAfter(s, ResponseArrived(response), OnResponse(s, response).handler)
  {
    hide AnnounceTargets, OnNavigationResponse;
    if response.id in s.pending {
      var s1 := s.(pending := s.pending - {response.id});
      match s.pending[response.id].request
      case GetTargets(_) => if response.payload.TargetList? { AnnouncedTables(s1, response.payload.targets); }
      case Navigate(id) => NavigationResponseTables(s1, id, response);
      case _ =>
    }
  }

  ghost predicate TargetsAfter(s: Handler, e: Event, s': Handler) {
    match e
    case TargetCreated(t) => s'.targets == s.targets[t := None]
    case TargetDestroyed(t) => s'.targets == s.targets - {t}
    case TargetDone(t, _) => s'.targets == if t in s.targets then s.targets[t := None] else s.targets
    case ResponseArrived(Response(id, payload)) =>
      if id !in s.pending then s'.targets == s.targets
      else (match s.pending[id].request
            case CreateTarget(tx) => s'.targets == if payload.CreatedTarget? then s.targets[payload.target := Some(tx)] else s.targets
            case GetTargets(_) =>
              && (forall t :: t in s'.targets <==> t in s.targets || (payload.TargetList? && t in payload.targets))
              && (forall t | t in s'.targets ::
                    s'.targets[t] == if payload.TargetList? && t in payload.targets then None else s.targets[t])
            case _ => s'.targets == s.targets)
    case _ => s'.targets == s.targets
  }

  lemma StepTargets(s: Handler, e: Event)
    requires s.nextCall < USIZE && Step(s, e).Alive?
    ensures TargetsAfter(s, e, Step(s, e).handler)
  {
    hide OnResponse, Evict, Wrap;
    match e
    case ResponseArrived(response) => ResponseTargets(s, response);
    case Evicted(calls, _, _) => EvictedTables(s, calls);
    case _ =>
  }

  lemma ResponseTargets(s: Handler, response: Response)
    requires s.nextCall < USIZE && OnResponse(s, response).Alive?
    ensures TargetsAfter(s, ResponseArrived(response), OnResponse(s, response).handler)
  {
    hide AnnounceTargets, OnNavigationResponse;
    if response.id in s.pending {
      var s1 := s.(pending := s.pending - {response.id});
      match s.pending[response.id].request
      case GetTargets(_) => if response.payload.TargetList? { AnnouncedTables(s1, response.payload.targets); }
      case Navigate(id) => NavigationResponseTables(s1, id, response);
      case _ =>
    }
  }

  // ---------- Runs ----------

  lemma RunBefore(trace: seq<Event>)
    requires trace != [] && Run(trace).Alive?
    ensures Run(Front(trace)).Alive? && Run(trace) == Step(Run(Front(trace)).handler, Last(trace))
  {
    hide Step;
  }

  lemma FitsWaiting(s: Handler, trace: seq<Event>, call: CallId)
    requires CallFits(s, trace, call)
    ensures WaitingFor(trace, call) == if call in s.pending then Some(s.pending[call].request) else None
  {
    hide CallOf;
  }

  lemma CallsStayFit(s: Handler, trace: seq<Event>, s': Handler)
    requires trace != [] && TablesFit(s, Front(trace)) && PendingAfter(s, Last(trace), s')
    ensures s'.nextCall == NextCallOf(trace) && s'.nextCall < USIZE
    ensures forall call :: CallFits(s', trace, call)
  {
    IdsFit(s, Front(trace), Last(trace));
    NextCallStaysFit(s, trace, s');
    hide IdsBy, IdsIn, Submitted, PendingAfter;
    forall call
      ensures CallFits(s', trace, call)
    {
      assert CallFits(s, Front(trace), call);
      hide TablesFit, CallFits;
      CallStaysFit(s, trace, s', call);
    }
  }

  lemma NextCallStaysFit(s: Handler, trace: seq<Event>, s': Handler)
    requires trace != [] && s.nextCall == NextCallOf(Front(trace)) && IdsBy(Front(trace), Last(trace)) == IdsIn(s, Last(trace))
    requires PendingAfter(s, Last(trace), s')
    ensures s'.nextCall == NextCallOf(trace) && s'.nextCall < USIZE
  {
    hide IdsBy, IdsIn, Submitted;
  }

  lemma IdsFit(s: Handler, before: seq<Event>, e: Event)
    requires TablesFit(s, before)
    ensures IdsBy(before, e) == IdsIn(s, e)
  {
    if e.ResponseArrived? {
      assert CallFits(s, before, e.response.id);
    }
    hide TablesFit, CallOf;
  }

  lemma CallStaysFit(s: Handler, trace: seq<Event>, s': Handler, call: CallId)
    requires trace != [] && CallFits(s, Front(trace), call) && s.nextCall == NextCallOf(Front(trace))
    requires PendingAfter(s, Last(trace), s')
    ensures CallFits(s', trace, call)
  {
    hide NextCallOf;
  }

  lemma NavigationsStayFit(s: Handler, trace: seq<Event>, s': Handler)
    requires trace != [] && TablesFit(s, Front(trace)) && NavigationsAfter(s, Last(trace), s')
    ensures s'.nextNavigation == NextNavigationOf(trace)
    ensures forall id :: NavigationFits(s', trace, id)
  {
    var before, e := Front(trace), Last(trace);
    if e.ResponseArrived? {
      assert CallFits(s, before, e.response.id);
      FitsWaiting(s, before, e.response.id);
    }
    forall id
      ensures NavigationFits(s', trace, id)
    {
      assert NavigationFits(s, before, id);
      if e.Evicted? {
        EvictedIsNamed(s, before, e, id);
      }
      hide WaitingFor, Named, CallOf;
    }
  }

  lemma EvictedIsNamed(s: Handler, before: seq<Event>, e: Event, id: NavigationId)
    requires TablesFit(s, before) && e.Evicted?
    ensures EvictsNavigation(before, e, id) <==> Named(s, e.calls, id)
  {
    forall call
      ensures WaitingFor(before, call) == if call in s.pending then Some(s.pending[call].request) else None
    {
      assert CallFits(s, before, call);
      FitsWaiting(s, before, call);
    }
    hide WaitingFor;
  }

  lemma TargetsStayFit(s: Handler, trace: seq<Event>, s': Handler)
    requires trace != [] && TablesFit(s, Front(trace)) && TargetsAfter(s, Last(trace), s')
    ensures forall target :: TargetFits(s', trace, target)
  {
    var before, e := Front(trace), Last(trace);
    if e.ResponseArrived? {
      assert CallFits(s, before, e.response.id);
      FitsWaiting(s, before, e.response.id);
    }
    forall target
      ensures TargetFits(s', trace, target)
    {
      assert TargetFits(s, before, target);
      hide WaitingFor;
    }
  }

  /** In every run the handler waits for exactly the calls and the navigations that the events leave open, and knows
    * exactly the targets and the initiators that they leave. */
  lemma {:induction false} TablesInEveryRun(trace: seq<Event>)
    requires Run(trace).Alive?
    ensures TablesFit(Run(trace).handler, trace)
  {
    if trace != [] {
      var s, e := Run(Front(trace)).handler, Last(trace);
      RunBefore(trace);
      hide Run, Step, PendingAfter, NavigationsAfter, TargetsAfter;
      TablesInEveryRun(Front(trace));
      StepPending(s, e);
      StepNavigations(s, e);
      StepTargets(s, e);
      var s' := Step(s, e).handler;
      CallsStayFit(s, trace, s');
      NavigationsStayFit(s, trace, s');
      TargetsStayFit(s, trace, s');
    } else {
      NothingWaits();
    }
  }

  lemma NothingWaits()
    ensures Run([]) == Alive(NEW_HANDLER) && TablesFit(NEW_HANDLER, [])
  {
  }

  // ---------- Whom a step answers ----------

  /** The event, after a run, makes the handler give this answer. */
  ghost predicate Gives(before: seq<Event>, e: Event, a: Answer) {
    match e
    case PageRequested(tx, valid, _) => !valid && a == Answer(tx, Failed)
    case PagesListed(tx) => a == Answer(tx, Pages)
    case LifecycleCompleted(result) =>
      (match NavigationOf(before, result.Id())
       case None => false
       case Some(nav) =>
         match result
         case Ok(_) => nav.response.Some? && a == Answer(nav.tx, RespondedWith(nav.response.value))
         case Err(error) => a == Answer(nav.tx, NavigationFailed(error)))
    case ResponseArrived(response) => GivesResponse(before, response, a)
    case TargetDone(target, ready) =>
      (match InitiatorIn(before, target)
       case Some(Some(tx)) => a == Answer(tx, if ready then Page(target) else TimedOut)
       case _ => false)
    case Evicted(calls, _, _) => a.reply == TimedOut && exists call :: call in calls && BelongsTo(before, call, a.ticket)
    case _ => false
  }

  ghost predicate GivesResponse(before: seq<Event>, response: Response, a: Answer) {
    match WaitingFor(before, response.id)
    case Some(CreateTarget(tx)) => !response.payload.CreatedTarget? && a == Answer(tx, Failed)
    case Some(GetTargets(tx)) =>
      a == Answer(tx, if response.payload.TargetList? then TargetInfos(response.payload.targets) else Failed)
    case Some(Navigate(id)) =>
      (match NavigationOf(before, id)
       case None => false
       case Some(nav) => nav.navigated && a == Answer(nav.tx, RespondedWith(response)))
    case Some(ExternalCommand(tx)) => a == Answer(tx, RespondedWith(response))
    case Some(CloseBrowser(tx)) => a == Answer(tx, Closed)
    case _ => false
  }

  /** The call waits for this sender: its own, or that of the navigation that it is for. */
  ghost predicate BelongsTo(before: seq<Event>, call: CallId, tx: Ticket) {
    match WaitingFor(before, call)
    case None => false
    case Some(InternalCommand(_)) => false
    case Some(Navigate(id)) => NavigationOf(before, id).Some? && NavigationOf(before, id).value.tx == tx
    case Some(request) => SenderOf(request) == Some(tx)
  }

  /** The answers that a step adds are exactly those that the event makes the handler give. */
  ghost predicate AddsAnswers(s: Handler, s': Handler, before: seq<Event>, e: Event) {
    && s.answered <= s'.answered
    && forall a :: a in s'.answered[|s.answered|..] <==> Gives(before, e, a)
  }

  lemma StepAnswers(s: Handler, before: seq<Event>, e: Event)
    requires TablesFit(s, before) && Step(s, e).Alive?
    ensures AddsAnswers(s, Step(s, e).handler, before, e)
  {
    hide TablesFit, OnResponse, Evict, OnLifecycleCompleted, OnTargetDone;
    match e
    case ResponseArrived(response) => ResponseAnswers(s, before, response);
    case LifecycleCompleted(result) => LifecycleAnswers(s, before, result);
    case TargetDone(target, ready) => DoneAnswers(s, before, target, ready);
    case Evicted(calls, _, _) => EvictedAnswers(s, before, e);
    case _ => OthersAnswer(s, before, e);
  }

  lemma OthersAnswer(s: Handler, before: seq<Event>, e: Event)
    requires !e.ResponseArrived? && !e.LifecycleCompleted? && !e.TargetDone? && !e.Evicted?
    ensures AddsAnswers(s, Step(s, e).handler, before, e)
  {
  }

  lemma LifecycleAnswers(s: Handler, before: seq<Event>, result: NavigationResult)
    requires TablesFit(s, before)
    ensures AddsAnswers(s, OnLifecycleCompleted(s, result), before, LifecycleCompleted(result))
  {
    assert NavigationFits(s, before, result.Id());
    hide TablesFit, NavigationOf;
  }

  lemma DoneAnswers(s: Handler, before: seq<Event>, target: TargetId, ready: bool)
    requires TablesFit(s, before)
    ensures AddsAnswers(s, OnTargetDone(s, target, ready), before, TargetDone(target, ready))
  {
    assert TargetFits(s, before, target);
    hide TablesFit, InitiatorIn;
  }

  lemma ResponseAnswers(s: Handler, before: seq<Event>, response: Response)
    requires TablesFit(s, before) && OnResponse(s, response).Alive?
    ensures AddsAnswers(s, OnResponse(s, response).handler, before, ResponseArrived(response))
  {
    assert CallFits(s, before, response.id) && s.nextCall < USIZE;
    FitsWaiting(s, before, response.id);
    if response.id in s.pending {
      var s1 := s.(pending := s.pending - {response.id});
      match s.pending[response.id].request {
        case GetTargets(_) => if response.payload.TargetList? { AnnouncedTables(s1, response.payload.targets); }
        case Navigate(id) => assert NavigationFits(s, before, id);
        case _ =>
      }
    }
    hide TablesFit, NavigationOf, WaitingFor, AnnounceTargets;
  }

  lemma EvictedAnswers(s: Handler, before: seq<Event>, e: Event)
    requires TablesFit(s, before) && e.Evicted?
    ensures AddsAnswers(s, Evict(s, e.calls), before, e)
  {
    EvictedAnswered(s, before, e.calls);
    hide Evict, TablesFit;
  }

  /** The same, as the tables have it. */
  function HolderOf(s: Handler, call: CallId): Option<Ticket> {
    if call !in s.pending then None
    else match s.pending[call].request
      case InternalCommand(_) => None
      case Navigate(id) => if id in s.navigations then Some(s.navigations[id].tx) else None
      case request => SenderOf(request)
  }

  predicate HeldFor(s: Handler, call: CallId, tx: Ticket) {
    HolderOf(s, call) == Some(tx)
  }

  lemma BelongsInTables(s: Handler, before: seq<Event>, call: CallId, tx: Ticket)
    requires TablesFit(s, before)
    ensures BelongsTo(before, call, tx) <==> HeldFor(s, call, tx)
  {
    assert CallFits(s, before, call);
    FitsWaiting(s, before, call);
    if call in s.pending && s.pending[call].request.Navigate? {
      assert NavigationFits(s, before, s.pending[call].request.id);
    }
    hide TablesFit, NavigationOf, WaitingFor;
  }

  lemma {:induction false} EvictedAnswered(s: Handler, before: seq<Event>, calls: seq<CallId>)
    requires TablesFit(s, before)
    ensures var s' := Evict(s, calls);
            s.answered <= s'.answered && TimesOut(before, calls, s'.answered[|s.answered|..])
    decreases |calls|
  {
    hide Evict, EvictOne, TablesFit, BelongsTo, EvictedTo, TimesOut, TimesOutNext;
    if calls == [] {
      NothingTimesOut(s, before);
    } else {
      var fewer, call := Front(calls), Last(calls);
      EvictedAnswered(s, before, fewer);
      EvictedTables(s, fewer);
      EvictOneMore(s, calls);
      assert calls == fewer + [call];
      var s1 := Evict(s, fewer);
      EvictOneAnswered(s, before, fewer, call);
      var s' := EvictOne(s1, call);
      var sooner, later := s1.answered[|s.answered|..], s'.answered[|s1.answered|..];
      assert s'.answered[|s.answered|..] == sooner + later;
      TimesOutOneMore(before, fewer, call, sooner, later);
    }
  }

  /** These are timeouts for the senders that these calls wait for. */
  ghost predicate TimesOut(before: seq<Event>, calls: seq<CallId>, answers: seq<Answer>) {
    forall a :: a in answers <==> a.reply == TimedOut && exists call :: call in calls && BelongsTo(before, call, a.ticket)
  }

  /** The same for one more call, except for the senders that were told before. */
  ghost predicate TimesOutNext(before: seq<Event>, fewer: seq<CallId>, call: CallId, later: seq<Answer>) {
    && (forall a | a in later :: a.reply == TimedOut && BelongsTo(before, call, a.ticket))
    && forall tx | BelongsTo(before, call, tx) ::
         Answer(tx, TimedOut) in later || exists c :: c in fewer && BelongsTo(before, c, tx)
  }

  lemma NothingTimesOut(s: Handler, before: seq<Event>)
    ensures Evict(s, []) == s && TimesOut(before, [], s.answered[|s.answered|..])
  {
    hide BelongsTo;
  }

  lemma TimesOutOneMore(before: seq<Event>, fewer: seq<CallId>, call: CallId, sooner: seq<Answer>, later: seq<Answer>)
    requires TimesOut(before, fewer, sooner) && TimesOutNext(before, fewer, call, later)
    ensures TimesOut(before, fewer + [call], sooner + later)
  {
    hide BelongsTo;
  }

  lemma EvictOneAnswered(s: Handler, before: seq<Event>, fewer: seq<CallId>, call: CallId)
    requires TablesFit(s, before) && EvictedTo(s, Evict(s, fewer), fewer)
    ensures var s1 := Evict(s, fewer);
            var s' := EvictOne(s1, call);
            s1.answered <= s'.answered && TimesOutNext(before, fewer, call, s'.answered[|s1.answered|..])
  {
    hide Evict, EvictOne, TablesFit, BelongsTo, HeldFor, EvictedTo;
    forall c, tx
      ensures BelongsTo(before, c, tx) <==> HeldFor(s, c, tx)
    {
      BelongsInTables(s, before, c, tx);
    }
    OneTimesOut(Evict(s, fewer), call);
    forall tx
      ensures HeldFor(Evict(s, fewer), call, tx) ==> HeldFor(s, call, tx)
      ensures HeldFor(s, call, tx) ==> HeldFor(Evict(s, fewer), call, tx) || exists c :: c in fewer && HeldFor(s, c, tx)
    {
      HeldWhileEvicting(s, fewer, call, tx);
    }
  }

  /** Evicting one call answers a timeout to the one that it is held for. */
  lemma OneTimesOut(s: Handler, call: CallId)
    ensures var s' := EvictOne(s, call);
            && s.answered <= s'.answered
            && (forall a | a in s'.answered[|s.answered|..] :: a.reply == TimedOut && HeldFor(s, call, a.ticket))
            && forall tx | HeldFor(s, call, tx) :: Answer(tx, TimedOut) in s'.answered[|s.answered|..]
  {
    HolderAnswered(s, call);
    hide EvictOne, HolderOf;
  }

  lemma HolderAnswered(s: Handler, call: CallId)
    ensures EvictOne(s, call).answered ==
            s.answered + if HolderOf(s, call).Some? then [Answer(HolderOf(s, call).value, TimedOut)] else []
  {
    assert s.answered + [] == s.answered;
  }

  /** What a call is held for stays while others are evicted, unless one of them belongs to the same navigation. */
  lemma HeldWhileEvicting(s: Handler, fewer: seq<CallId>, call: CallId, tx: Ticket)
    requires EvictedTo(s, Evict(s, fewer), fewer)
    ensures HeldFor(Evict(s, fewer), call, tx) ==> HeldFor(s, call, tx)
    ensures HeldFor(s, call, tx) ==> HeldFor(Evict(s, fewer), call, tx) || exists c :: c in fewer && HeldFor(s, c, tx)
  {
    hide Evict;
    if HeldFor(s, call, tx) && call !in fewer && s.pending[call].request.Navigate? {
      var id := s.pending[call].request.id;
      if Named(s, fewer, id) {
        var c :| c in fewer && c in s.pending && s.pending[c].request == Navigate(id);
        assert HeldFor(s, c, tx);
      }
    }
  }

  /** Step `i` of the run gives this answer. */
  ghost predicate GivenAt(trace: seq<Event>, i: nat, a: Answer)
    requires i < |trace|
  {
    Gives(trace[..i], trace[i], a)
  }

  lemma GivenOneMore(trace: seq<Event>, a: Answer)
    requires trace != []
    ensures (exists i: nat | i < |trace| :: GivenAt(trace, i, a)) <==>
            (exists i: nat | i < |Front(trace)| :: GivenAt(Front(trace), i, a)) || Gives(Front(trace), Last(trace), a)
  {
    hide Gives;
    var before := Front(trace);
    forall i: nat | i < |before|
      ensures GivenAt(before, i, a) <==> GivenAt(trace, i, a)
    {
      assert before[..i] == trace[..i] && before[i] == trace[i];
    }
    assert GivenAt(trace, |before|, a) <==> Gives(before, Last(trace), a) by {
      assert trace[..|before|] == before;
    }
  }

  /** In every run the answers are exactly those that its events make the handler give. */
  lemma {:induction false} AnswersInEveryRun(trace: seq<Event>, a: Answer)
    requires Run(trace).Alive?
    ensures a in Run(trace).handler.answered <==> exists i: nat | i < |trace| :: GivenAt(trace, i, a)
  {
    if trace == [] {
      NothingWaits();
    } else {
      var before, e := Front(trace), Last(trace);
      RunBefore(trace);
      GivenOneMore(trace, a);
      AnswersInEveryRun(before, a);
      TablesInEveryRun(before);
      hide Run, Step, Gives, GivenAt, TablesFit;
      var s := Run(before).handler;
      StepAnswers(s, before, e);
      var s' := Step(s, e).handler;
      assert s'.answered == s.answered + s'.answered[|s.answered|..];
    }
  }

  // ---------- Whom a step drops ----------

  /** The event, after a run, makes the handler lose this sender unanswered: an id in use is taken again, or the target
    * that it waits for is destroyed or announced again or gets another initiator. */
  ghost predicate Drops(before: seq<Event>, e: Event, tx: Ticket) {
    || (Submitted(e).Some? && Holds(WaitingFor(before, CallId(NextCallOf(before))), tx))
    || (&& e.NavigationAsked?
        && var nav := NavigationOf(before, NavigationId(NextNavigationOf(before))); nav.Some? && nav.value.tx == tx)
    || exists t :: Replaces(before, e, t) && InitiatorIn(before, t) == Some(Some(tx))
  }

  predicate Holds(request: Option<PendingRequest>, tx: Ticket) {
    request.Some? && SenderOf(request.value) == Some(tx)
  }

  /** The event takes from the target whoever asked for it. */
  predicate Replaces(before: seq<Event>, e: Event, t: TargetId) {
    || AnnouncesTarget(before, e, t)
    || e == TargetDestroyed(t)
    || (&& e.ResponseArrived? && e.response.payload == CreatedTarget(t)
        && WaitingFor(before, e.response.id).Some? && WaitingFor(before, e.response.id).value.CreateTarget?)
  }

  ghost predicate AddsDrops(s: Handler, s': Handler, before: seq<Event>, e: Event) {
    && s.discarded <= s'.discarded
    && forall tx :: tx in s'.discarded[|s.discarded|..] <==> Drops(before, e, tx)
  }

  lemma StepDrops(s: Handler, before: seq<Event>, e: Event)
    requires TablesFit(s, before) && Step(s, e).Alive?
    ensures AddsDrops(s, Step(s, e).handler, before, e)
  {
    hide TablesFit, OnResponse, Evict, OnTargetCreated, OnTargetDestroyed, AskNavigation, AddsDrops;
    match e
    case ResponseArrived(response) => ResponseDrops(s, before, response);
    case TargetCreated(t) => TargetDrops(s, before, e, t);
    case TargetDestroyed(t) => TargetDrops(s, before, e, t);
    case NavigationAsked(tx) => AskDrops(s, before, tx);
    case Evicted(calls, _, _) => NothingDropped(s, before, e);
    case LifecycleCompleted(_) => NothingDropped(s, before, e);
    case TargetDone(_, _) => NothingDropped(s, before, e);
    case PagesListed(_) => NothingDropped(s, before, e);
    case _ => SubmissionDrops(s, before, e);
  }

  lemma SubmissionDrops(s: Handler, before: seq<Event>, e: Event)
    requires TablesFit(s, before) && (Submitted(e).Some? || e.PageRequested?)
    ensures AddsDrops(s, Step(s, e).handler, before, e)
  {
    assert CallFits(s, before, CallId(s.nextCall));
    FitsWaiting(s, before, CallId(s.nextCall));
    hide TablesFit, WaitingFor, NextCallOf, InitiatorIn, NavigationOf;
  }

  lemma AskDrops(s: Handler, before: seq<Event>, tx: Ticket)
    requires TablesFit(s, before)
    ensures AddsDrops(s, AskNavigation(s, tx), before, NavigationAsked(tx))
  {
    assert NavigationFits(s, before, NavigationId(s.nextNavigation));
    hide TablesFit, InitiatorIn, NavigationOf, NextNavigationOf;
  }

  lemma TargetDrops(s: Handler, before: seq<Event>, e: Event, t: TargetId)
    requires TablesFit(s, before) && (e == TargetCreated(t) || e == TargetDestroyed(t))
    ensures AddsDrops(s, Step(s, e).handler, before, e)
  {
    assert TargetFits(s, before, t);
    assert forall u :: Replaces(before, e, u) <==> u == t;
    hide TablesFit, InitiatorIn;
  }

  lemma NothingDropped(s: Handler, before: seq<Event>, e: Event)
    requires e.Evicted? || e.LifecycleCompleted? || e.TargetDone? || e.PagesListed?
    ensures AddsDrops(s, Step(s, e).handler, before, e)
  {
    assert forall u :: !Replaces(before, e, u);
    hide Evict, InitiatorIn, Replaces;
    if e.Evicted? {
      EvictedTables(s, e.calls);
    }
  }

  /** Exactly the initiators of these targets are dropped. */
  ghost predicate DropsInitiators(s: Handler, s': Handler, targets: seq<TargetId>) {
    && s.discarded <= s'.discarded
    && forall tx :: tx in s'.discarded[|s.discarded|..] <==> AsksForOne(s, targets, tx)
  }

  predicate AsksForOne(s: Handler, targets: seq<TargetId>, tx: Ticket) {
    exists t :: t in targets && InitiatorOf(s, t) == Some(tx)
  }

  lemma {:induction false} AnnouncedDrops(s: Handler, targets: seq<TargetId>)
    ensures DropsInitiators(s, AnnounceTargets(s, targets), targets)
    decreases |targets|
  {
    hide AnnounceTargets, OnTargetCreated, Wrap, DropsInitiators;
    if targets == [] {
      NothingToDrop(s);
    } else {
      var first, rest := targets[0], targets[1..];
      var s1 := OnTargetCreated(s, first);
      var s2 := s1.(nextCall := Wrap(s1.nextCall));
      AnnouncedDrops(s2, rest);
      AnnounceFirst(s, targets);
      CreatedDrops(s, first);
      assert targets == [first] + rest;
      DropsMore(s, s2, AnnounceTargets(s2, rest), first, rest);
    }
  }

  lemma NothingToDrop(s: Handler)
    ensures DropsInitiators(s, AnnounceTargets(s, []), [])
  {
  }

  lemma CreatedDrops(s: Handler, t: TargetId)
    ensures OnTargetCreated(s, t).discarded ==
            s.discarded + if InitiatorOf(s, t).Some? then [InitiatorOf(s, t).value] else []
    ensures OnTargetCreated(s, t).targets == s.targets[t := None]
  {
    assert s.discarded + [] == s.discarded;
  }

  lemma DropsMore(s: Handler, s2: Handler, s': Handler, first: TargetId, rest: seq<TargetId>)
    requires s2.targets == s.targets[first := None]
    requires s2.discarded == s.discarded + if InitiatorOf(s, first).Some? then [InitiatorOf(s, first).value] else []
    requires DropsInitiators(s2, s', rest)
    ensures DropsInitiators(s, s', [first] + rest)
  {
    var one := if InitiatorOf(s, first).Some? then [InitiatorOf(s, first).value] else [];
    assert s'.discarded[|s.discarded|..] == one + s'.discarded[|s2.discarded|..];
    forall tx: Ticket
      ensures AsksForOne(s, [first] + rest, tx) <==> InitiatorOf(s, first) == Some(tx) || AsksForOne(s2, rest, tx)
    {
      AskersMore(s, s2, first, rest, tx);
    }
    hide AsksForOne, InitiatorOf;
  }

  lemma AskersMore(s: Handler, s2: Handler, first: TargetId, rest: seq<TargetId>, tx: Ticket)
    requires s2.targets == s.targets[first := None]
    ensures AsksForOne(s, [first] + rest, tx) <==> InitiatorOf(s, first) == Some(tx) || AsksForOne(s2, rest, tx)
  {
    assert forall t :: InitiatorOf(s2, t) == if t == first then None else InitiatorOf(s, t);
    hide InitiatorOf;
    assert first in [first] + rest;
    if AsksForOne(s2, rest, tx) {
      var t :| t in rest && InitiatorOf(s2, t) == Some(tx);
      assert t in [first] + rest && InitiatorOf(s, t) == Some(tx);
    }
  }

  lemma ResponseDrops(s: Handler, before: seq<Event>, response: Response)
    requires TablesFit(s, before) && OnResponse(s, response).Alive?
    ensures AddsDrops(s, OnResponse(s, response).handler, before, ResponseArrived(response))
  {
    assert CallFits(s, before, response.id);
    FitsWaiting(s, before, response.id);
    forall t
      ensures InitiatorIn(before, t) == if t in s.targets then Some(s.targets[t]) else None
    {
      assert TargetFits(s, before, t);
    }
    hide TablesFit, InitiatorIn, WaitingFor, AnnounceTargets, OnNavigationResponse;
    if response.id in s.pending {
      var s1 := s.(pending := s.pending - {response.id});
      match s.pending[response.id].request
      case GetTargets(_) => if response.payload.TargetList? { AnnouncedDrops(s1, response.payload.targets); }
      case Navigate(id) => ResponseDropsNothing(s1, id, response);
      case _ =>
    }
  }

  lemma ResponseDropsNothing(s: Handler, id: NavigationId, response: Response)
    ensures OnNavigationResponse(s, id, response).discarded == s.discarded
  {
  }

  /** Step `i` of the run drops this sender. */
  ghost predicate DroppedAt(trace: seq<Event>, i: nat, tx: Ticket)
    requires i < |trace|
  {
    Drops(trace[..i], trace[i], tx)
  }

  lemma DroppedOneMore(trace: seq<Event>, tx: Ticket)
    requires trace != []
    ensures (exists i: nat | i < |trace| :: DroppedAt(trace, i, tx)) <==>
            (exists i: nat | i < |Front(trace)| :: DroppedAt(Front(trace), i, tx)) || Drops(Front(trace), Last(trace), tx)
  {
    hide Drops;
    var before := Front(trace);
    forall i: nat | i < |before|
      ensures DroppedAt(before, i, tx) <==> DroppedAt(trace, i, tx)
    {
      assert before[..i] == trace[..i] && before[i] == trace[i];
    }
    assert DroppedAt(trace, |before|, tx) <==> Drops(before, Last(trace), tx) by {
      assert trace[..|before|] == before;
    }
  }

  /** In every run the senders lost unanswered are exactly those that its events make the handler drop. */
  lemma {:induction false} DropsInEveryRun(trace: seq<Event>, tx: Ticket)
    requires Run(trace).Alive?
    ensures tx in Run(trace).handler.discarded <==> exists i: nat | i < |trace| :: DroppedAt(trace, i, tx)
  {
    if trace == [] {
      NothingWaits();
    } else {
      var before, e := Front(trace), Last(trace);
      RunBefore(trace);
      DroppedOneMore(trace, tx);
      DropsInEveryRun(before, tx);
      TablesInEveryRun(before);
      hide Run, Step, Drops, DroppedAt, TablesFit;
      var s := Run(before).handler;
      StepDrops(s, before, e);
      var s' := Step(s, e).handler;
      assert s'.discarded == s.discarded + s'.discarded[|s.discarded|..];
    }
  }

  // ---------- Closing, and the order of the targets ----------

  /** The browser answered a call to close. */
  predicate ClosesIn(trace: seq<Event>) {
    trace != [] &&
    (|| ClosesIn(Front(trace))
     || (&& Last(trace).ResponseArrived? && WaitingFor(Front(trace), Last(trace).response.id).Some?
         && WaitingFor(Front(trace), Last(trace).response.id).value.CloseBrowser?))
  }

  /** The targets in the order in which they were announced. */
  function AnnouncedIn(trace: seq<Event>): seq<TargetId> {
    if trace == [] then []
    else
      var before := Front(trace);
      AnnouncedIn(before) +
      match Last(trace)
      case TargetCreated(t) => [t]
      case ResponseArrived(Response(id, TargetList(targets))) =>
        (match WaitingFor(before, id) case Some(GetTargets(_)) => targets case _ => [])
      case _ => []
  }

  lemma {:induction false} AnnouncedInOrder(s: Handler, targets: seq<TargetId>)
    ensures AnnounceTargets(s, targets).targetIds == s.targetIds + targets
    ensures AnnounceTargets(s, targets).closing == s.closing
    decreases |targets|
  {
    if targets == [] {
      assert s.targetIds + [] == s.targetIds;
    } else {
      var s1 := OnTargetCreated(s, targets[0]);
      AnnouncedInOrder(s1.(nextCall := Wrap(s1.nextCall)), targets[1..]);
      CreatedTables(s, targets[0]);
      AnnounceFirst(s, targets);
      hide Wrap, OnTargetCreated, AnnounceTargets;
      assert s.targetIds + targets == s.targetIds + [targets[0]] + targets[1..];
    }
  }

  lemma ResponseOrder(s: Handler, before: seq<Event>, response: Response)
    requires TablesFit(s, before) && OnResponse(s, response).Alive?
    ensures var s', trace := OnResponse(s, response).handler, before + [ResponseArrived(response)];
            s.targetIds == AnnouncedIn(before) && s.closing == ClosesIn(before) ==>
              s'.targetIds == AnnouncedIn(trace) && s'.closing == ClosesIn(trace)
  {
    assert Front(before + [ResponseArrived(response)]) == before;
    assert CallFits(s, before, response.id);
    FitsWaiting(s, before, response.id);
    hide TablesFit, WaitingFor, AnnounceTargets;
    if response.id in s.pending {
      var s1 := s.(pending := s.pending - {response.id});
      match s.pending[response.id].request
      case GetTargets(_) => if response.payload.TargetList? { AnnouncedInOrder(s1, response.payload.targets); }
      case _ =>
    }
  }

  lemma {:induction false} OrderInEveryRun(trace: seq<Event>)
    requires Run(trace).Alive?
    ensures Run(trace).handler.targetIds == AnnouncedIn(trace)
    ensures Run(trace).handler.closing <==> ClosesIn(trace)
  {
    if trace == [] {
      NothingWaits();
    } else {
      var before, e := Front(trace), Last(trace);
      RunBefore(trace);
      OrderInEveryRun(before);
      TablesInEveryRun(before);
      assert trace == before + [e];
      var s := Run(before).handler;
      hide Run, TablesFit, Step;
      if e.ResponseArrived? {
        ResponseIsStep(s, e.response);
        ResponseOrder(s, before, e.response);
      } else {
        OtherOrder(s, e);
        OtherOrderIn(before, e);
      }
      hide AnnouncedIn, ClosesIn;
    }
  }

  lemma OtherOrderIn(before: seq<Event>, e: Event)
    requires !e.ResponseArrived?
    ensures AnnouncedIn(before + [e]) == AnnouncedIn(before) + if e.TargetCreated? then [e.target] else []
    ensures ClosesIn(before + [e]) <==> ClosesIn(before)
  {
    assert Front(before + [e]) == before;
  }

  lemma ResponseIsStep(s: Handler, response: Response)
    ensures Step(s, ResponseArrived(response)) == OnResponse(s, response)
  {
    hide OnResponse;
  }

  lemma OtherOrder(s: Handler, e: Event)
    requires !e.ResponseArrived?
    ensures var s' := Step(s, e).handler;
            && s'.closing == s.closing
            && s'.targetIds == s.targetIds + if e.TargetCreated? then [e.target] else []
  {
    assert s.targetIds + [] == s.targetIds;
    hide Evict;
    if e.Evicted? {
      EvictedTables(s, e.calls);
    }
  }
}
