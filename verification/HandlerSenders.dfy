/** Reply senders are conserved (src/handler/mod.rs:147-522): each is in exactly one place. */
module HandlerSenders {
  import opened Options
  import opened Identifiers
  import opened Navigation
  import opened HandlerSpec

  /** Where a sender can be. */
  datatype Place =
    | InCall(call: CallId)
    | InNavigation(navigation: NavigationId)
    | InTarget(target: TargetId)
    | Answered(index: nat)
    | Discarded(index: nat)

  function At(s: Handler, p: Place): Option<Ticket> {
    match p
    case InCall(id) => SenderAt(s.pending, id)
    case InNavigation(id) => if id in s.navigations then Some(s.navigations[id].tx) else None
    case InTarget(id) => InitiatorOf(s, id)
    case Answered(i) => if i < |s.answered| then Some(s.answered[i].ticket) else None
    case Discarded(i) => if i < |s.discarded| then Some(s.discarded[i]) else None
  }

  /** Exactly the accepted senders are somewhere, and none is in two places. */
  ghost predicate Conserved(s: Handler, accepted: set<Ticket>) {
    && (forall p | At(s, p).Some? :: At(s, p).value in accepted)
    && (forall t | t in accepted :: exists p :: At(s, p) == Some(t))
    && (forall p, q | At(s, p).Some? && At(s, p) == At(s, q) :: p == q)
  }

  // ---------- The ways a sender can move ----------

  ghost predicate SameBut(s: Handler, s': Handler, p: Place, q: Place) {
    forall r | r != p && r != q :: At(s', r) == At(s, r)
  }

  lemma Moved(s: Handler, s': Handler, accepted: set<Ticket>, p: Place, q: Place)
    requires Conserved(s, accepted)
    requires p != q && At(s, p).Some? && At(s, q).None?
    requires At(s', p).None? && At(s', q) == At(s, p) && SameBut(s, s', p, q)
    ensures Conserved(s', accepted)
  {
    hide At;
    forall t | t in accepted
      ensures exists r :: At(s', r) == Some(t)
    {
      var r :| At(s, r) == Some(t);
      assert At(s', if r == p then q else r) == Some(t);
    }
  }

  lemma Arrived(s: Handler, s': Handler, accepted: set<Ticket>, q: Place, t: Ticket)
    requires Conserved(s, accepted) && t !in accepted
    requires At(s, q).None? && At(s', q) == Some(t) && SameBut(s, s', q, q)
    ensures Conserved(s', accepted + {t})
  {
    hide At;
    forall u | u in accepted
      ensures exists r :: At(s', r) == Some(u)
    {
      var r :| At(s, r) == Some(u);
      assert At(s', r) == Some(u);
    }
  }

  lemma Unmoved(s: Handler, s': Handler, accepted: set<Ticket>)
    requires Conserved(s, accepted) && forall r :: At(s', r) == At(s, r)
    ensures Conserved(s', accepted)
  {
    hide At;
    forall t | t in accepted
      ensures exists r :: At(s', r) == Some(t)
    {
      var r :| At(s, r) == Some(t);
      assert At(s', r) == Some(t);
    }
  }

  // ---------- Every step ----------

  /** An entry that is about to be overwritten gives up its sender. */
  lemma TrackMakesRoom(s: Handler, accepted: set<Ticket>)
    requires Conserved(s, accepted)
    ensures var id := CallId(s.nextCall);
            Conserved(s.Discarding(SenderAt(s.pending, id)).(pending := s.pending - {id}), accepted)
  {
    var id := CallId(s.nextCall);
    var s1 := s.Discarding(SenderAt(s.pending, id)).(pending := s.pending - {id});
    if SenderAt(s.pending, id).Some? {
      Moved(s, s1, accepted, InCall(id), Discarded(|s.discarded|));
    } else {
      Unmoved(s, s1, accepted);
    }
  }

  lemma TrackConserves(s: Handler, request: PendingRequest, now: nat, accepted: set<Ticket>)
    requires Conserved(s, accepted)
    requires SenderOf(request).Some? ==> SenderOf(request).value !in accepted
    ensures Conserved(Track(s, request, now),
                      accepted + if SenderOf(request).Some? then {SenderOf(request).value} else {})
  {
    hide Conserved;
    var id := CallId(s.nextCall);
    var s1 := s.Discarding(SenderAt(s.pending, id)).(pending := s.pending - {id});
    TrackMakesRoom(s, accepted);
    if SenderOf(request).Some? {
      Arrived(s1, Track(s, request, now), accepted, InCall(id), SenderOf(request).value);
    } else {
      Unmoved(s1, Track(s, request, now), accepted);
      assert accepted + {} == accepted;
    }
  }

  lemma AskConserves(s: Handler, tx: Ticket, accepted: set<Ticket>)
    requires Conserved(s, accepted) && tx !in accepted
    ensures Conserved(AskNavigation(s, tx), accepted + {tx})
  {
    var id := NavigationId(s.nextNavigation);
    var prior := if id in s.navigations then Some(s.navigations[id].tx) else None;
    var s1 := s.Discarding(prior).(navigations := s.navigations - {id});
    if prior.Some? {
      Moved(s, s1, accepted, InNavigation(id), Discarded(|s.discarded|));
    } else {
      Unmoved(s, s1, accepted);
    }
    Arrived(s1, AskNavigation(s, tx), accepted, InNavigation(id), tx);
  }

  lemma AnswerConserves(s: Handler, tx: Ticket, reply: Reply, accepted: set<Ticket>)
    requires Conserved(s, accepted) && tx !in accepted
    ensures Conserved(s.Answering(tx, reply), accepted + {tx})
  {
    Arrived(s, s.Answering(tx, reply), accepted, Answered(|s.answered|), tx);
  }

  /** A call that is no longer waited for and had a sender: the sender is answered. */
  lemma CallAnsweredConserves(s: Handler, call: CallId, reply: Reply, accepted: set<Ticket>)
    requires Conserved(s, accepted) && SenderAt(s.pending, call).Some?
    ensures Conserved(s.(pending := s.pending - {call}).Answering(SenderAt(s.pending, call).value, reply), accepted)
  {
    Moved(s, s.(pending := s.pending - {call}).Answering(SenderAt(s.pending, call).value, reply), accepted,
          InCall(call), Answered(|s.answered|));
  }

  lemma CallForgottenConserves(s: Handler, call: CallId, accepted: set<Ticket>)
    requires Conserved(s, accepted) && SenderAt(s.pending, call).None?
    ensures Conserved(s.(pending := s.pending - {call}), accepted)
  {
    Unmoved(s, s.(pending := s.pending - {call}), accepted);
  }

  lemma NavigationAnsweredConserves(s: Handler, id: NavigationId, reply: Reply, accepted: set<Ticket>)
    requires Conserved(s, accepted) && id in s.navigations
    ensures Conserved(s.(navigations := s.navigations - {id}).Answering(s.navigations[id].tx, reply), accepted)
  {
    Moved(s, s.(navigations := s.navigations - {id}).Answering(s.navigations[id].tx, reply), accepted,
          InNavigation(id), Answered(|s.answered|));
  }

  lemma NavigationResponseConserves(s: Handler, id: NavigationId, response: Response, accepted: set<Ticket>)
    requires Conserved(s, accepted)
    ensures Conserved(OnNavigationResponse(s, id, response), accepted)
  {
    if id in s.navigations {
      NavigationAnsweredConserves(s, id, RespondedWith(response), accepted);
      if !s.navigations[id].navigated {
        Unmoved(s, OnNavigationResponse(s, id, response), accepted);
      }
    }
  }

  lemma LifecycleConserves(s: Handler, result: NavigationResult, accepted: set<Ticket>)
    requires Conserved(s, accepted)
    ensures Conserved(OnLifecycleCompleted(s, result), accepted)
  {
    var id := result.Id();
    if id in s.navigations {
      if result.Ok? && s.navigations[id].response.None? {
        Unmoved(s, OnLifecycleCompleted(s, result), accepted);
      } else {
        NavigationAnsweredConserves(s, id,
          if result.Ok? then RespondedWith(s.navigations[id].response.value) else NavigationFailed(result.error), accepted);
      }
    }
  }

  lemma TargetLostConserves(s: Handler, id: TargetId, accepted: set<Ticket>)
    requires Conserved(s, accepted)
    ensures Conserved(s.Discarding(InitiatorOf(s, id)).(targets := s.targets - {id}), accepted)
  {
    var s1 := s.Discarding(InitiatorOf(s, id)).(targets := s.targets - {id});
    if InitiatorOf(s, id).Some? {
      Moved(s, s1, accepted, InTarget(id), Discarded(|s.discarded|));
    } else {
      Unmoved(s, s1, accepted);
    }
  }

  lemma TargetCreatedConserves(s: Handler, id: TargetId, accepted: set<Ticket>)
    requires Conserved(s, accepted)
    ensures Conserved(OnTargetCreated(s, id), accepted)
  {
    TargetLostConserves(s, id, accepted);
    Unmoved(s.Discarding(InitiatorOf(s, id)).(targets := s.targets - {id}), OnTargetCreated(s, id), accepted);
  }

  lemma TargetDoneConserves(s: Handler, id: TargetId, ready: bool, accepted: set<Ticket>)
    requires Conserved(s, accepted)
    ensures Conserved(OnTargetDone(s, id, ready), accepted)
  {
    if InitiatorOf(s, id).Some? {
      Moved(s, OnTargetDone(s, id, ready), accepted, InTarget(id), Answered(|s.answered|));
    }
  }

  lemma {:induction false} AnnounceConserves(s: Handler, ids: seq<TargetId>, accepted: set<Ticket>)
    requires Conserved(s, accepted)
    ensures Conserved(AnnounceTargets(s, ids), accepted)
    decreases |ids|
  {
    if ids != [] {
      TargetCreatedConserves(s, ids[0], accepted);
      var s1 := OnTargetCreated(s, ids[0]);
      Unmoved(s1, s1.(nextCall := Wrap(s1.nextCall)), accepted);
      AnnounceConserves(s1.(nextCall := Wrap(s1.nextCall)), ids[1..], accepted);
    }
  }

  /** The sender of a create call goes to the created target, whose own sender, if any, is lost. */
  lemma InitiatorConserves(s: Handler, call: CallId, id: TargetId, accepted: set<Ticket>)
    requires Conserved(s, accepted) && SenderAt(s.pending, call).Some?
    ensures Conserved(SetInitiator(s.(pending := s.pending - {call}), id, SenderAt(s.pending, call).value), accepted)
  {
    TargetLostConserves(s, id, accepted);
    Moved(s.Discarding(InitiatorOf(s, id)).(targets := s.targets - {id}),
          SetInitiator(s.(pending := s.pending - {call}), id, SenderAt(s.pending, call).value), accepted,
          InCall(call), InTarget(id));
  }

  /** Announcing targets does not touch the calls, so the sender of the fetch can be answered afterwards. */
  lemma {:induction false} AnnounceKeepsCalls(s: Handler, ids: seq<TargetId>, pending: map<CallId, PendingCall>)
    ensures AnnounceTargets(s, ids).pending == s.pending
    ensures AnnounceTargets(s.(pending := pending), ids) == AnnounceTargets(s, ids).(pending := pending)
    decreases |ids|
  {
    if ids != [] {
      var s1 := OnTargetCreated(s, ids[0]);
      AnnounceKeepsCalls(s1.(nextCall := Wrap(s1.nextCall)), ids[1..], pending);
    }
  }

  lemma FetchedConserves(s: Handler, call: CallId, ids: seq<TargetId>, accepted: set<Ticket>)
    requires Conserved(s, accepted) && SenderAt(s.pending, call).Some?
    ensures Conserved(AnnounceTargets(s.(pending := s.pending - {call}), ids)
                        .Answering(SenderAt(s.pending, call).value, TargetInfos(ids)), accepted)
  {
    AnnounceConserves(s, ids, accepted);
    AnnounceKeepsCalls(s, ids, s.pending - {call});
    CallAnsweredConserves(AnnounceTargets(s, ids), call, TargetInfos(ids), accepted);
  }

  lemma ResponseConserves(s: Handler, response: Response, accepted: set<Ticket>)
    requires Conserved(s, accepted) && OnResponse(s, response).Alive?
    ensures Conserved(OnResponse(s, response).handler, accepted)
  {
    hide OnNavigationResponse, AnnounceTargets, SetInitiator, Conserved;
    var call := response.id;
    if call in s.pending {
      var s1 := s.(pending := s.pending - {call});
      match s.pending[call].request
      case CreateTarget(tx) =>
        if response.payload.CreatedTarget? {
          InitiatorConserves(s, call, response.payload.target, accepted);
        } else {
          CallAnsweredConserves(s, call, Failed, accepted);
        }
      case GetTargets(tx) =>
        if response.payload.TargetList? {
          FetchedConserves(s, call, response.payload.targets, accepted);
        } else {
          CallAnsweredConserves(s, call, Failed, accepted);
        }
      case Navigate(id) =>
        CallForgottenConserves(s, call, accepted);
        NavigationResponseConserves(s1, id, response, accepted);
      case ExternalCommand(tx) => CallAnsweredConserves(s, call, RespondedWith(response), accepted);
      case InternalCommand(_) => CallForgottenConserves(s, call, accepted);
      case CloseBrowser(tx) =>
        CallAnsweredConserves(s, call, Closed, accepted);
        ClosingConserves(s1.Answering(tx, Closed), accepted);
    }
  }

  lemma ClosingConserves(s: Handler, accepted: set<Ticket>)
    requires Conserved(s, accepted)
    ensures Conserved(s.(closing := true), accepted)
  {
    Unmoved(s, s.(closing := true), accepted);
  }

  lemma EvictOneConserves(s: Handler, call: CallId, accepted: set<Ticket>)
    requires Conserved(s, accepted)
    ensures Conserved(EvictOne(s, call), accepted)
  {
    hide Conserved;
    if call in s.pending {
      match s.pending[call].request
      case Navigate(id) =>
        CallForgottenConserves(s, call, accepted);
        if id in s.navigations {
          NavigationAnsweredConserves(s.(pending := s.pending - {call}), id, TimedOut, accepted);
        }
      case InternalCommand(_) => CallForgottenConserves(s, call, accepted);
      case _ => CallAnsweredConserves(s, call, TimedOut, accepted);
    }
  }

  lemma {:induction false} EvictConserves(s: Handler, calls: seq<CallId>, accepted: set<Ticket>)
    requires Conserved(s, accepted)
    ensures Conserved(Evict(s, calls), accepted)
    decreases |calls|
  {
    if calls != [] {
      EvictConserves(s, calls[..|calls| - 1], accepted);
      EvictOneConserves(Evict(s, calls[..|calls| - 1]), calls[|calls| - 1], accepted);
    }
  }

  function With(accepted: set<Ticket>, e: Event): set<Ticket> {
    accepted + if Brings(e).Some? then {Brings(e).value} else {}
  }

  lemma StepConserves(s: Handler, e: Event, accepted: set<Ticket>)
    requires Conserved(s, accepted) && Step(s, e).Alive?
    requires Brings(e).Some? ==> Brings(e).value !in accepted
    ensures Conserved(Step(s, e).handler, With(accepted, e))
  {
    hide Conserved, Track, OnResponse, Evict, AskNavigation, OnLifecycleCompleted;
    hide OnTargetCreated, OnTargetDestroyed, OnTargetDone;
    assert accepted + {} == accepted;
    match e
    case CommandSubmitted(tx, now) => TrackConserves(s, ExternalCommand(tx), now, accepted);
    case FetchTargetsSubmitted(tx, now) => TrackConserves(s, GetTargets(tx), now, accepted);
    case CloseSubmitted(tx, now) => TrackConserves(s, CloseBrowser(tx), now, accepted);
    case PageRequested(tx, valid, now) =>
      if valid {
        TrackConserves(s, CreateTarget(tx), now, accepted);
      } else {
        AnswerConserves(s, tx, Failed, accepted);
      }
    case PagesListed(tx) => AnswerConserves(s, tx, Pages, accepted);
    case NavigationAsked(tx) => AskConserves(s, tx, accepted);
    case NavigationSubmitted(id, now) => TrackConserves(s, Navigate(id), now, accepted);
    case InternalSubmitted(target, now) => TrackConserves(s, InternalCommand(target), now, accepted);
    case LifecycleCompleted(result) => LifecycleConserves(s, result, accepted);
    case ResponseArrived(response) => ResponseConserves(s, response, accepted);
    case TargetCreated(target) => TargetCreatedConserves(s, target, accepted);
    case TargetDestroyed(target) => DestroyedConserves(s, target, accepted);
    case TargetDone(target, ready) => TargetDoneConserves(s, target, ready, accepted);
    case Evicted(calls, _, _) => EvictConserves(s, calls, accepted);
  }

  lemma DestroyedConserves(s: Handler, id: TargetId, accepted: set<Ticket>)
    requires Conserved(s, accepted)
    ensures Conserved(OnTargetDestroyed(s, id), accepted)
  {
    TargetLostConserves(s, id, accepted);
  }

  // ---------- Whole runs ----------

  lemma {:induction false} AcceptedIsBrought(trace: seq<Event>)
    ensures forall t :: t in Accepted(trace) <==> exists i | 0 <= i < |trace| :: Brings(trace[i]) == Some(t)
  {
    if trace != [] {
      var last := |trace| - 1;
      AcceptedIsBrought(trace[..last]);
      forall t
        ensures t in Accepted(trace) <==> exists i | 0 <= i < |trace| :: Brings(trace[i]) == Some(t)
      {
        if t in Accepted(trace[..last]) {
          var i :| 0 <= i < last && Brings(trace[..last][i]) == Some(t);
          assert Brings(trace[i]) == Some(t);
        }
        if i :| 0 <= i < last && Brings(trace[i]) == Some(t) {
          assert Brings(trace[..last][i]) == Some(t);
        }
      }
    }
  }

  /** In every run, every sender accepted is in exactly one place: waiting in a call, a navigation or a target,
    * answered, or discarded with what held it. So no sender is ever answered twice. */
  lemma {:induction false} SendersAreConserved(trace: seq<Event>)
    requires FreshSenders(trace) && Run(trace).Alive?
    ensures Conserved(Run(trace).handler, Accepted(trace))
    ensures forall i, j | 0 <= i < j < |Run(trace).handler.answered| ::
              Run(trace).handler.answered[i].ticket != Run(trace).handler.answered[j].ticket
  {
    if trace != [] {
      var last := |trace| - 1;
      var before := trace[..last];
      SendersAreConserved(before);
      AcceptedIsBrought(before);
      assert Brings(trace[last]).Some? ==> Brings(trace[last]).value !in Accepted(before);
      hide Step;
      StepConserves(Run(before).handler, trace[last], Accepted(before));
    }
    AnsweredOnce(Run(trace).handler, Accepted(trace));
  }

  lemma AnsweredOnce(s: Handler, accepted: set<Ticket>)
    requires Conserved(s, accepted)
    ensures forall i, j | 0 <= i < j < |s.answered| :: s.answered[i].ticket != s.answered[j].ticket
  {
    forall i, j | 0 <= i < j < |s.answered|
      ensures s.answered[i].ticket != s.answered[j].ticket
    {
      assert At(s, Answered(i)) == Some(s.answered[i].ticket) && At(s, Answered(j)) == Some(s.answered[j].ticket);
    }
  }
}
