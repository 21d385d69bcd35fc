/** What every run of the handler keeps: answers to navigations, ids, evictions (src/handler/mod.rs). */
module HandlerRuns {
  import opened Options
  import opened Identifiers
  import opened Navigation
  import opened HandlerSpec
  import opened HandlerSenders

  // ---------- No insertion overwrites an entry while ids have not wrapped ----------

  /** Ids handed out so far. */
  function CallsIn(s: Handler, e: Event): nat {
    match e
    case CommandSubmitted(_, _) => 1
    case FetchTargetsSubmitted(_, _) => 1
    case CloseSubmitted(_, _) => 1
    case PageRequested(_, valid, _) => if valid then 1 else 0
    case NavigationSubmitted(_, _) => 1
    case InternalSubmitted(_, _) => 1
    case ResponseArrived(response) =>
      if response.id in s.pending && s.pending[response.id].request.GetTargets? && response.payload.TargetList?
      then |response.payload.targets| else 0
    case _ => 0
  }

  function Calls(trace: seq<Event>): nat {
    if trace == [] then 1
    else
      var before := trace[..|trace| - 1];
      Calls(before) + if Run(before).Alive? then CallsIn(Run(before).handler, trace[|trace| - 1]) else 0
  }

  function Navigations(trace: seq<Event>): nat {
    if trace == [] then 0 else Navigations(trace[..|trace| - 1]) + if trace[|trace| - 1].NavigationAsked? then 1 else 0
  }

  predicate IdsBelow(s: Handler, calls: nat, navigations: nat) {
    && s.nextCall == calls && s.nextNavigation == navigations
    && (forall id | id in s.pending :: id.raw < calls)
    && (forall id | id in s.navigations :: id.raw < navigations)
  }

  lemma {:induction false} AnnounceCounts(s: Handler, ids: seq<TargetId>)
    requires s.nextCall + |ids| < USIZE
    ensures var s' := AnnounceTargets(s, ids);
            && s'.nextCall == s.nextCall + |ids| && s'.nextNavigation == s.nextNavigation
            && s'.pending == s.pending && s'.navigations == s.navigations
    decreases |ids|
  {
    if ids != [] {
      CreatedCounts(s, ids[0]);
      WrapBelow(s.nextCall);
      hide OnTargetCreated, Wrap;
      var s1 := OnTargetCreated(s, ids[0]);
      AnnounceCounts(s1.(nextCall := Wrap(s1.nextCall)), ids[1..]);
    }
  }

  lemma CreatedCounts(s: Handler, id: TargetId)
    ensures var s' := OnTargetCreated(s, id);
            && s'.nextCall == s.nextCall && s'.nextNavigation == s.nextNavigation
            && s'.pending == s.pending && s'.navigations == s.navigations
  {
  }

  lemma {:induction false} EvictOnlyRemoves(s: Handler, calls: seq<CallId>)
    ensures var s' := Evict(s, calls);
            && s'.nextCall == s.nextCall && s'.nextNavigation == s.nextNavigation
            && s'.pending.Keys <= s.pending.Keys && s'.navigations.Keys <= s.navigations.Keys
            && (forall id | id in s'.pending :: s'.pending[id] == s.pending[id])
            && (forall id | id in s'.navigations :: s'.navigations[id] == s.navigations[id])
    decreases |calls|
  {
    if calls != [] {
      hide EvictOne;
      EvictOnlyRemoves(s, calls[..|calls| - 1]);
      EvictOneOnlyRemoves(Evict(s, calls[..|calls| - 1]), calls[|calls| - 1]);
    }
  }

  lemma EvictOneOnlyRemoves(s: Handler, call: CallId)
    ensures var s' := EvictOne(s, call);
            && s'.nextCall == s.nextCall && s'.nextNavigation == s.nextNavigation
            && s'.pending.Keys <= s.pending.Keys && s'.navigations.Keys <= s.navigations.Keys
            && (forall id | id in s'.pending :: s'.pending[id] == s.pending[id])
            && (forall id | id in s'.navigations :: s'.navigations[id] == s.navigations[id])
  {
    if call in s.pending {
      var s1 := s.(pending := s.pending - {call});
      assert s1.pending.Keys <= s.pending.Keys;
    }
  }

  lemma StepCounts(s: Handler, e: Event, calls: nat, navigations: nat)
    requires IdsBelow(s, calls, navigations) && Step(s, e).Alive?
    requires calls + CallsIn(s, e) < USIZE && navigations + 1 < USIZE
    ensures IdsBelow(Step(s, e).handler, calls + CallsIn(s, e), navigations + if e.NavigationAsked? then 1 else 0)
  {
    hide Evict, AnnounceTargets, OnResponse;
    match e
    case Evicted(cs, _, _) => EvictOnlyRemoves(s, cs);
    case ResponseArrived(response) => ResponseCounts(s, response, calls, navigations);
    case _ =>
  }

  lemma ResponseCounts(s: Handler, response: Response, calls: nat, navigations: nat)
    requires IdsBelow(s, calls, navigations) && OnResponse(s, response).Alive?
    requires calls + CallsIn(s, ResponseArrived(response)) < USIZE
    ensures IdsBelow(OnResponse(s, response).handler, calls + CallsIn(s, ResponseArrived(response)), navigations)
  {
    hide AnnounceTargets;
    if response.payload.TargetList? && CallsIn(s, ResponseArrived(response)) == |response.payload.targets| {
      AnnounceCounts(s.(pending := s.pending - {response.id}), response.payload.targets);
    }
  }

  /** While ids have not wrapped, the next ids are free: no insertion overwrites an entry. */
  lemma {:induction false} NextIdsAreFree(trace: seq<Event>)
    requires Run(trace).Alive? && Calls(trace) < USIZE && Navigations(trace) + 1 < USIZE
    ensures IdsBelow(Run(trace).handler, Calls(trace), Navigations(trace))
    ensures CallId(Run(trace).handler.nextCall) !in Run(trace).handler.pending
    ensures NavigationId(Run(trace).handler.nextNavigation) !in Run(trace).handler.navigations
  {
    hide Step;
    if trace != [] {
      NextIdsAreFree(trace[..|trace| - 1]);
      StepCounts(Run(trace[..|trace| - 1]).handler, trace[|trace| - 1], Calls(trace[..|trace| - 1]),
                 Navigations(trace[..|trace| - 1]));
    }
  }

  // ---------- Joining the response and the lifecycle of a navigation ----------

  ghost predicate AskedFor(trace: seq<Event>, id: NavigationId, tx: Ticket) {
    exists i | 0 <= i < |trace| :: Asks(trace, i, id, tx)
  }

  ghost predicate Asks(trace: seq<Event>, i: nat, id: NavigationId, tx: Ticket)
    requires i < |trace|
  {
    trace[i] == NavigationAsked(tx) && Run(trace[..i]).Alive? && Run(trace[..i]).handler.nextNavigation == id.raw
  }

  /** A Page.navigate call for this navigation was submitted under this call id. */
  ghost predicate SubmittedFor(trace: seq<Event>, id: NavigationId, call: CallId) {
    exists i | 0 <= i < |trace| :: Submits(trace, i, id, call)
  }

  ghost predicate Submits(trace: seq<Event>, i: nat, id: NavigationId, call: CallId)
    requires i < |trace|
  {
    && trace[i].NavigationSubmitted? && trace[i].id == id
    && Run(trace[..i]).Alive? && Run(trace[..i]).handler.nextCall == call.raw
  }

  /** The response arrived to the navigation's own call. */
  ghost predicate RespondedFor(trace: seq<Event>, id: NavigationId, response: Response) {
    SubmittedFor(trace, id, response.id) && ResponseArrived(response) in trace
  }

  /** The frame manager reported this navigation complete. */
  ghost predicate CompletedFor(trace: seq<Event>, id: NavigationId) {
    exists ok: NavigationOk :: ok.id == id && LifecycleCompleted(Ok(ok)) in trace
  }

  /** What is known of an answer with a response: it went to a plain command, or to a navigation that had both halves. */
  ghost predicate Justified(trace: seq<Event>, answer: Answer) {
    answer.reply.RespondedWith? ==>
      || (exists now :: CommandSubmitted(answer.ticket, now) in trace)
      || (exists id :: AskedFor(trace, id, answer.ticket)
                       && RespondedFor(trace, id, answer.reply.response) && CompletedFor(trace, id))
  }

  /** A stored navigation knows only what happened, and never holds both halves. */
  ghost predicate NavigationExplained(trace: seq<Event>, id: NavigationId, nav: NavigationInProgress) {
    && AskedFor(trace, id, nav.tx)
    && (nav.response.Some? ==> RespondedFor(trace, id, nav.response.value))
    && (nav.navigated ==> CompletedFor(trace, id))
    && !(nav.navigated && nav.response.Some?)
  }

  ghost predicate CallExplained(trace: seq<Event>, call: CallId, request: PendingRequest) {
    match request
    case Navigate(id) => SubmittedFor(trace, id, call)
    case ExternalCommand(tx) => exists now :: CommandSubmitted(tx, now) in trace
    case _ => true
  }

  ghost predicate Explained(trace: seq<Event>, s: Handler) {
    && (forall id | id in s.pending :: CallExplained(trace, id, s.pending[id].request))
    && (forall id | id in s.navigations :: NavigationExplained(trace, id, s.navigations[id]))
    && (forall i | 0 <= i < |s.answered| :: Justified(trace, s.answered[i]))
  }

  lemma Longer(trace: seq<Event>, e: Event)
    ensures (trace + [e])[|trace|] == e && (trace + [e])[..|trace|] == trace && e in trace + [e]
    ensures forall i | 0 <= i < |trace| :: (trace + [e])[i] == trace[i] && (trace + [e])[..i] == trace[..i]
    ensures forall x | x in trace :: x in trace + [e]
  {
    assert (trace + [e])[|trace|] == e;
  }

  lemma AskingStaysKnown(trace: seq<Event>, e: Event, id: NavigationId, tx: Ticket)
    requires AskedFor(trace, id, tx) ||
             (e == NavigationAsked(tx) && Run(trace).Alive? && Run(trace).handler.nextNavigation == id.raw)
    ensures AskedFor(trace + [e], id, tx)
  {
    hide Run;
    Longer(trace, e);
    if AskedFor(trace, id, tx) {
      var i :| 0 <= i < |trace| && Asks(trace, i, id, tx);
      assert Asks(trace + [e], i, id, tx);
    } else {
      assert Asks(trace + [e], |trace|, id, tx);
    }
  }

  lemma SubmittingStaysKnown(trace: seq<Event>, e: Event, id: NavigationId, call: CallId)
    requires SubmittedFor(trace, id, call) ||
             (e.NavigationSubmitted? && e.id == id && Run(trace).Alive? && Run(trace).handler.nextCall == call.raw)
    ensures SubmittedFor(trace + [e], id, call)
  {
    hide Run;
    Longer(trace, e);
    if SubmittedFor(trace, id, call) {
      var i :| 0 <= i < |trace| && Submits(trace, i, id, call);
      assert Submits(trace + [e], i, id, call);
    } else {
      assert Submits(trace + [e], |trace|, id, call);
    }
  }

  lemma CompletionStaysKnown(trace: seq<Event>, e: Event, id: NavigationId, ok: NavigationOk)
    requires CompletedFor(trace, id) || (e == LifecycleCompleted(Ok(ok)) && ok.id == id)
    ensures CompletedFor(trace + [e], id)
  {
    hide Run;
    Longer(trace, e);
    if CompletedFor(trace, id) {
      var known: NavigationOk :| known.id == id && LifecycleCompleted(Ok(known)) in trace;
      assert LifecycleCompleted(Ok(known)) in trace + [e];
    }
  }

  /** What was known stays known, and the new event is known as well. */
  lemma KnowledgeGrows(trace: seq<Event>, e: Event, s: Handler)
    requires Explained(trace, s)
    ensures Explained(trace + [e], s)
    ensures forall id: NavigationId, ok: NavigationOk ::
      CompletedFor(trace, id) || (e == LifecycleCompleted(Ok(ok)) && ok.id == id) ==> CompletedFor(trace + [e], id)
    ensures forall id: NavigationId, r: Response | SubmittedFor(trace, id, r.id) && e == ResponseArrived(r) ::
      RespondedFor(trace + [e], id, r)
    ensures forall id: NavigationId, tx: Ticket
              | e == NavigationAsked(tx) && Run(trace).Alive? && Run(trace).handler.nextNavigation == id.raw ::
      AskedFor(trace + [e], id, tx)
    ensures forall id: NavigationId, call: CallId
              | e.NavigationSubmitted? && e.id == id && Run(trace).Alive? && Run(trace).handler.nextCall == call.raw ::
      SubmittedFor(trace + [e], id, call)
  {
    hide Run, SubmittedFor, AskedFor, CompletedFor;
    var longer := trace + [e];
    Longer(trace, e);
    forall id, tx | AskedFor(trace, id, tx)
      ensures AskedFor(longer, id, tx)
    {
      AskingStaysKnown(trace, e, id, tx);
    }
    forall id: NavigationId, tx: Ticket
      | e == NavigationAsked(tx) && Run(trace).Alive? && Run(trace).handler.nextNavigation == id.raw
      ensures AskedFor(longer, id, tx)
    {
      AskingStaysKnown(trace, e, id, tx);
    }
    forall id, call | SubmittedFor(trace, id, call)
      ensures SubmittedFor(longer, id, call)
    {
      SubmittingStaysKnown(trace, e, id, call);
    }
    forall id: NavigationId, call: CallId
      | e.NavigationSubmitted? && e.id == id && Run(trace).Alive? && Run(trace).handler.nextCall == call.raw
      ensures SubmittedFor(longer, id, call)
    {
      SubmittingStaysKnown(trace, e, id, call);
    }
    forall id: NavigationId, ok: NavigationOk | CompletedFor(trace, id) || (e == LifecycleCompleted(Ok(ok)) && ok.id == id)
      ensures CompletedFor(longer, id)
    {
      CompletionStaysKnown(trace, e, id, ok);
    }
    forall id | CompletedFor(trace, id)
      ensures CompletedFor(longer, id)
    {
      CompletionStaysKnown(trace, e, id, SameDocumentNavigation(id));
    }
    forall i | 0 <= i < |s.answered|
      ensures Justified(longer, s.answered[i])
    {
      assert Justified(trace, s.answered[i]);
    }
  }

  lemma TrackExplains(trace: seq<Event>, s: Handler, request: PendingRequest, now: nat)
    requires Explained(trace, s) && CallExplained(trace, CallId(s.nextCall), request)
    ensures Explained(trace, Track(s, request, now))
  {
    hide CallExplained, NavigationExplained, Justified;
  }

  lemma AnswerExplains(trace: seq<Event>, s: Handler, tx: Ticket, reply: Reply)
    requires Explained(trace, s) && Justified(trace, Answer(tx, reply))
    ensures Explained(trace, s.Answering(tx, reply))
  {
    hide CallExplained, NavigationExplained, Justified;
  }

  lemma AskExplains(trace: seq<Event>, s: Handler, tx: Ticket)
    requires Explained(trace, s) && AskedFor(trace, NavigationId(s.nextNavigation), tx)
    ensures Explained(trace, AskNavigation(s, tx))
  {
    hide CallExplained, Justified, AskedFor;
  }

  lemma RemovedExplains(trace: seq<Event>, s: Handler, call: CallId, id: NavigationId)
    requires Explained(trace, s)
    ensures Explained(trace, s.(pending := s.pending - {call}))
    ensures Explained(trace, s.(navigations := s.navigations - {id}))
  {
    hide CallExplained, NavigationExplained, Justified;
  }

  lemma NavigationResponseExplains(trace: seq<Event>, s: Handler, id: NavigationId, response: Response)
    requires Explained(trace, s) && RespondedFor(trace, id, response)
    ensures Explained(trace, OnNavigationResponse(s, id, response))
  {
    hide CallExplained, RespondedFor, CompletedFor, AskedFor;
    if id in s.navigations {
      assert NavigationExplained(trace, id, s.navigations[id]);
      RemovedExplains(trace, s, response.id, id);
      if s.navigations[id].navigated {
        AnswerExplains(trace, s.(navigations := s.navigations - {id}), s.navigations[id].tx, RespondedWith(response));
      }
    }
  }

  lemma LifecycleExplains(trace: seq<Event>, s: Handler, result: NavigationResult)
    requires Explained(trace, s) && (result.Ok? ==> CompletedFor(trace, result.Id()))
    ensures Explained(trace, OnLifecycleCompleted(s, result))
  {
    hide CallExplained, RespondedFor, CompletedFor, AskedFor;
    var id := result.Id();
    if id in s.navigations {
      var nav := s.navigations[id];
      assert NavigationExplained(trace, id, nav);
      RemovedExplains(trace, s, CallId(0), id);
      if result.Err? {
        AnswerExplains(trace, s.(navigations := s.navigations - {id}), nav.tx, NavigationFailed(result.error));
      } else if nav.response.Some? {
        AnswerExplains(trace, s.(navigations := s.navigations - {id}), nav.tx, RespondedWith(nav.response.value));
      }
    }
  }

  /** The handler's tables, which targets coming and going do not touch. */
  predicate SameTables(s: Handler, s': Handler) {
    s'.pending == s.pending && s'.navigations == s.navigations && s'.answered == s.answered
  }

  lemma SameTablesExplain(trace: seq<Event>, s: Handler, s': Handler)
    requires Explained(trace, s) && SameTables(s, s')
    ensures Explained(trace, s')
  {
  }

  lemma {:induction false} AnnounceKeepsTables(s: Handler, ids: seq<TargetId>)
    ensures SameTables(s, AnnounceTargets(s, ids))
    decreases |ids|
  {
    if ids != [] {
      var s1 := OnTargetCreated(s, ids[0]);
      AnnounceKeepsTables(s1.(nextCall := Wrap(s1.nextCall)), ids[1..]);
    }
  }

  lemma ResponseExplains(trace: seq<Event>, s: Handler, response: Response)
    requires Explained(trace, s) && OnResponse(s, response).Alive?
    requires forall id: NavigationId | SubmittedFor(trace, id, response.id) :: RespondedFor(trace, id, response)
    ensures Explained(trace, OnResponse(s, response).handler)
  {
    hide OnNavigationResponse, AnnounceTargets, NavigationExplained, SubmittedFor, RespondedFor;
    var call := response.id;
    if call in s.pending {
      assert CallExplained(trace, call, s.pending[call].request);
      var s1 := s.(pending := s.pending - {call});
      RemovedExplains(trace, s, call, NavigationId(0));
      match s.pending[call].request
      case CreateTarget(tx) =>
        if response.payload.CreatedTarget? {
          SameTablesExplain(trace, s1, SetInitiator(s1, response.payload.target, tx));
        } else {
          AnswerExplains(trace, s1, tx, Failed);
        }
      case GetTargets(tx) =>
        if response.payload.TargetList? {
          var s2 := AnnounceTargets(s1, response.payload.targets);
          AnnounceKeepsTables(s1, response.payload.targets);
          SameTablesExplain(trace, s1, s2);
          AnswerExplains(trace, s2, tx, TargetInfos(response.payload.targets));
        } else {
          AnswerExplains(trace, s1, tx, Failed);
        }
      case Navigate(id) => NavigationResponseExplains(trace, s1, id, response);
      case ExternalCommand(tx) => AnswerExplains(trace, s1, tx, RespondedWith(response));
      case InternalCommand(_) =>
      case CloseBrowser(tx) =>
        SameTablesExplain(trace, s1, s1.(closing := true));
        AnswerExplains(trace, s1.(closing := true), tx, Closed);
    }
  }

  lemma {:induction false} EvictExplains(trace: seq<Event>, s: Handler, calls: seq<CallId>)
    requires Explained(trace, s)
    ensures Explained(trace, Evict(s, calls))
    decreases |calls|
  {
    if calls != [] {
      EvictExplains(trace, s, calls[..|calls| - 1]);
      EvictOneExplains(trace, Evict(s, calls[..|calls| - 1]), calls[|calls| - 1]);
    }
  }

  lemma EvictOneExplains(trace: seq<Event>, s: Handler, call: CallId)
    requires Explained(trace, s)
    ensures Explained(trace, EvictOne(s, call))
  {
    if call in s.pending {
      var s1 := s.(pending := s.pending - {call});
      RemovedExplains(trace, s, call, NavigationId(0));
      hide Explained;
      match s.pending[call].request
      case Navigate(id) =>
        if id in s.navigations {
          RemovedExplains(trace, s1, call, id);
          AnswerExplains(trace, s1.(navigations := s.navigations - {id}), s.navigations[id].tx, TimedOut);
        }
      case InternalCommand(_) =>
      case _ => AnswerExplains(trace, s1, s.pending[call].request.tx, TimedOut);
    }
  }

  lemma StepExplains(trace: seq<Event>, s: Handler, e: Event)
    requires Run(trace) == Alive(s) && Explained(trace, s) && Step(s, e).Alive?
    ensures Explained(trace + [e], Step(s, e).handler)
  {
    var longer := trace + [e];
    KnowledgeGrows(trace, e, s);
    assert e in longer by {
      assert longer[|trace|] == e;
    }
    hide Explained, Track, OnResponse, Evict, AskNavigation, OnLifecycleCompleted;
    hide SubmittedFor, RespondedFor, CompletedFor, AskedFor, Run;
    match e
    case NavigationAsked(tx) => AskExplains(longer, s, tx);
    case NavigationSubmitted(id, now) => TrackExplains(longer, s, Navigate(id), now);
    case LifecycleCompleted(result) =>
      assert result.Ok? ==> CompletedFor(longer, result.Id());
      LifecycleExplains(longer, s, result);
    case ResponseArrived(response) =>
      ResponseGivesReply(longer, response);
      ResponseExplains(longer, s, response);
    case TargetCreated(_) => TargetEventExplains(longer, s, e);
    case TargetDestroyed(_) => TargetEventExplains(longer, s, e);
    case TargetDone(_, _) => TargetEventExplains(longer, s, e);
    case Evicted(calls, _, _) => EvictExplains(longer, s, calls);
    case _ => SubmissionExplains(longer, s, e);
  }

  lemma TargetEventExplains(trace: seq<Event>, s: Handler, e: Event)
    requires Explained(trace, s) && (e.TargetCreated? || e.TargetDestroyed? || e.TargetDone?)
    ensures Explained(trace, Step(s, e).handler)
  {
    hide Explained;
    match e
    case TargetCreated(target) => SameTablesExplain(trace, s, OnTargetCreated(s, target));
    case TargetDestroyed(target) => SameTablesExplain(trace, s, OnTargetDestroyed(s, target));
    case TargetDone(target, ready) =>
      var tx := InitiatorOf(s, target);
      if tx.Some? {
        SameTablesExplain(trace, s, s.(targets := s.targets[target := None]));
        AnswerExplains(trace, s.(targets := s.targets[target := None]), tx.value, if ready then Page(target) else TimedOut);
      }
  }

  /** Calls other than navigations, and what is answered at once. */
  lemma SubmissionExplains(trace: seq<Event>, s: Handler, e: Event)
    requires Explained(trace, s) && e in trace
    requires e.CommandSubmitted? || e.FetchTargetsSubmitted? || e.CloseSubmitted? || e.PageRequested? || e.PagesListed?
             || e.InternalSubmitted?
    ensures Explained(trace, Step(s, e).handler)
  {
    hide Explained, Track;
    match e
    case CommandSubmitted(tx, now) => TrackExplains(trace, s, ExternalCommand(tx), now);
    case FetchTargetsSubmitted(tx, now) => TrackExplains(trace, s, GetTargets(tx), now);
    case CloseSubmitted(tx, now) => TrackExplains(trace, s, CloseBrowser(tx), now);
    case PageRequested(tx, valid, now) =>
      if valid {
        TrackExplains(trace, s, CreateTarget(tx), now);
      } else {
        AnswerExplains(trace, s, tx, Failed);
      }
    case PagesListed(tx) => AnswerExplains(trace, s, tx, Pages);
    case InternalSubmitted(target, now) => TrackExplains(trace, s, InternalCommand(target), now);
  }

  lemma ResponseGivesReply(trace: seq<Event>, response: Response)
    requires ResponseArrived(response) in trace
    ensures forall id: NavigationId | SubmittedFor(trace, id, response.id) :: RespondedFor(trace, id, response)
  {
    hide SubmittedFor;
  }

  lemma {:induction false} ExplainedInEveryRun(trace: seq<Event>)
    requires Run(trace).Alive?
    ensures Explained(trace, Run(trace).handler)
  {
    hide Step;
    if trace != [] {
      var before := trace[..|trace| - 1];
      assert trace == before + [trace[|trace| - 1]];
      hide Explained;
      ExplainedInEveryRun(before);
      StepExplains(before, Run(before).handler, trace[|trace| - 1]);
    }
  }

  /** In every run, for every order of responses, completions, errors and evictions: a caller who asked for a navigation
    * gets at most one reply, and gets a response only when it is the response to that navigation's own call and the
    * navigation was reported complete under the same id. */
  lemma NavigationAnsweredOnlyWhenBothHalvesArrived(trace: seq<Event>, tx: Ticket, i: nat)
    requires FreshSenders(trace) && Run(trace).Alive? && NavigationAsked(tx) in trace
    requires i < |Run(trace).handler.answered| && Run(trace).handler.answered[i].ticket == tx
    ensures forall j | 0 <= j < |Run(trace).handler.answered| && j != i :: Run(trace).handler.answered[j].ticket != tx
    ensures var reply := Run(trace).handler.answered[i].reply;
            reply.RespondedWith? ==>
              exists id: NavigationId ::
                AskedFor(trace, id, tx) && RespondedFor(trace, id, reply.response) && CompletedFor(trace, id)
  {
    hide Step, Run, FreshSenders;
    SendersAreConserved(trace);
    ExplainedInEveryRun(trace);
    assert Justified(trace, Run(trace).handler.answered[i]);
    forall now | CommandSubmitted(tx, now) in trace
      ensures NavigationAsked(tx) == CommandSubmitted(tx, now)
    {
      BroughtOnce(trace, NavigationAsked(tx), CommandSubmitted(tx, now));
    }
  }

  lemma BroughtOnce(trace: seq<Event>, e: Event, f: Event)
    requires FreshSenders(trace) && e in trace && f in trace && Brings(e).Some? && Brings(e) == Brings(f)
    ensures e == f
  {
    var a :| 0 <= a < |trace| && trace[a] == e;
    var b :| 0 <= b < |trace| && trace[b] == f;
  }

  /** A stored navigation never holds both halves: the second one to arrive takes it out of the table. */
  lemma NeverBothHalves(trace: seq<Event>, id: NavigationId)
    requires Run(trace).Alive? && id in Run(trace).handler.navigations
    ensures var nav := Run(trace).handler.navigations[id];
            !(nav.navigated && nav.response.Some?)
  {
    ExplainedInEveryRun(trace);
    assert NavigationExplained(trace, id, Run(trace).handler.navigations[id]);
  }

  // ---------- Eviction ----------

  /** The sender that evicting a call answers: its own, or that of the navigation it belongs to. */
  function SenderBehind(s: Handler, call: CallId): Option<Ticket>
    requires call in s.pending
  {
    match s.pending[call].request
    case Navigate(id) => if id in s.navigations then Some(s.navigations[id].tx) else None
    case request => SenderOf(request)
  }

  /** The senders behind a set of calls. */
  function SendersBehind(s: Handler, calls: set<CallId>): set<Ticket> {
    set call | call in calls && call in s.pending && SenderBehind(s, call).Some? :: SenderBehind(s, call).value
  }

  function Recipients(answers: seq<Answer>): set<Ticket> {
    set answer | answer in answers :: answer.ticket
  }

  /** Eviction only adds timeouts, and they go exactly to the senders behind the evicted calls. */
  predicate EvictionAnswers(s: Handler, s': Handler, gone: set<CallId>) {
    && s.answered <= s'.answered
    && (forall answer | answer in s'.answered[|s.answered|..] :: answer.reply == TimedOut)
    && Recipients(s'.answered[|s.answered|..]) == SendersBehind(s, gone)
  }

  predicate NavigatesTo(s: Handler, call: CallId, id: NavigationId) {
    call in s.pending && s.pending[call].request == Navigate(id)
  }

  ghost predicate EvictedDown(s: Handler, s': Handler, gone: set<CallId>) {
    && s'.pending == s.pending - gone
    && (forall id :: id in s'.navigations <==>
          id in s.navigations && forall call | call in gone :: !NavigatesTo(s, call, id))
    && (forall id | id in s'.navigations :: s'.navigations[id] == s.navigations[id])
  }

  lemma {:induction false} EvictTakes(s: Handler, calls: seq<CallId>)
    requires forall i, j | 0 <= i < j < |calls| :: calls[i] != calls[j]
    ensures EvictedDown(s, Evict(s, calls), set c | c in calls) && EvictionAnswers(s, Evict(s, calls), set c | c in calls)
    decreases |calls|
  {
    if calls != [] {
      var fewer := calls[..|calls| - 1];
      var call := calls[|calls| - 1];
      EvictTakes(s, fewer);
      var gone := set c | c in fewer;
      assert (set c | c in calls) == gone + {call} by {
        assert calls == fewer + [call];
      }
      assert call !in gone;
      EvictOneTakes(s, Evict(s, fewer), gone, call);
    }
  }

  lemma EvictOneTakes(s: Handler, s1: Handler, gone: set<CallId>, call: CallId)
    requires EvictedDown(s, s1, gone) && EvictionAnswers(s, s1, gone) && call !in gone
    ensures EvictedDown(s, EvictOne(s1, call), gone + {call})
    ensures EvictionAnswers(s, EvictOne(s1, call), gone + {call})
  {
    EvictOneGoesDown(s, s1, gone, call);
    if call in s.pending {
      assert s1.pending[call] == s.pending[call];
      EvictOneAnswers(s, s1, gone, call);
    }
  }

  lemma EvictOneGoesDown(s: Handler, s1: Handler, gone: set<CallId>, call: CallId)
    requires EvictedDown(s, s1, gone) && call !in gone
    ensures EvictedDown(s, EvictOne(s1, call), gone + {call})
  {
    assert s.pending - gone - {call} == s.pending - (gone + {call});
    assert call in s.pending ==> s1.pending[call] == s.pending[call];
  }

  lemma EvictOneAnswers(s: Handler, s1: Handler, gone: set<CallId>, call: CallId)
    requires EvictedDown(s, s1, gone) && EvictionAnswers(s, s1, gone)
    requires call in s.pending && call in s1.pending && s1.pending[call] == s.pending[call]
    ensures EvictionAnswers(s, EvictOne(s1, call), gone + {call})
  {
    var s2 := EvictOne(s1, call);
    var tx := SenderBehind(s, call);
    assert s2.answered == s1.answered || (tx.Some? && s2.answered == s1.answered + [Answer(tx.value, TimedOut)]);
    if tx.Some? && s2.answered == s1.answered {
      // the navigation was already answered on behalf of another call
      var other :| other in gone && NavigatesTo(s, other, s.pending[call].request.id);
      assert SenderBehind(s, other) == tx;
      assert tx.value in SendersBehind(s, gone);
    }
    hide EvictOne, SenderBehind, EvictedDown;
    assert SendersBehind(s, gone + {call}) == SendersBehind(s, gone) + if tx.Some? then {tx.value} else {};
    if s2.answered != s1.answered {
      var since := s1.answered[|s.answered|..];
      assert s2.answered[|s.answered|..] == since + [Answer(tx.value, TimedOut)];
      RecipientsAppend(since, Answer(tx.value, TimedOut));
    }
  }

  lemma RecipientsAppend(answers: seq<Answer>, answer: Answer)
    ensures Recipients(answers + [answer]) == Recipients(answers) + {answer.ticket}
  {
    assert forall a | a in answers :: a in answers + [answer];
    assert answer in answers + [answer];
  }

  /** Whatever the order in which the table yields them, eviction forgets exactly the calls older than the timeout, with
    * the navigations they belong to, and answers with a timeout exactly the senders behind them. */
  lemma EvictionIsExact(s: Handler, calls: seq<CallId>, now: nat, timeout: nat)
    requires Collects(s, calls, now, timeout)
    ensures var s' := Evict(s, calls);
            var gone := set c | c in s.pending && now > s.pending[c].since + timeout;
            EvictedDown(s, s', gone) && EvictionAnswers(s, s', gone)
  {
    var gone := set c | c in s.pending && now > s.pending[c].since + timeout;
    assert gone == set c | c in calls;
    EvictTakes(s, calls);
  }
}
