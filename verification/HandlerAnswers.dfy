/** What becomes of a navigation, and of a command, in a run of the handler (src/handler/mod.rs:148-257, 469-517). */
module HandlerAnswers {
  import opened Options
  import opened Sequences
  import opened Identifiers
  import opened Navigation
  import opened HandlerSpec
  import opened HandlerHistory

  // ---------- Where a waiting sender comes from ----------

  /** Step `i` submitted the call that was given this id. */
  predicate SubmittedAt(trace: seq<Event>, i: nat, call: CallId, pending: PendingCall) {
    i < |trace| && Submitted(trace[i]) == Some(pending) && NextCallOf(trace[..i]) == call.raw
  }

  lemma {:induction false} CallOrigin(trace: seq<Event>, call: CallId) returns (i: nat)
    requires CallOf(trace, call).Some?
    ensures SubmittedAt(trace, i, call, CallOf(trace, call).value)
  {
    var before, e := Front(trace), Last(trace);
    if Submitted(e).Some? && NextCallOf(before) == call.raw {
      i := |before|;
      assert trace[..i] == before;
    } else {
      i := CallOrigin(before, call);
      assert trace[..i] == before[..i] && trace[i] == before[i];
    }
  }

  /** Step `i` asked for the navigation that was given this id. */
  predicate AskedAt(trace: seq<Event>, i: nat, id: NavigationId, tx: Ticket) {
    i < |trace| && trace[i] == NavigationAsked(tx) && NextNavigationOf(trace[..i]) == id.raw
  }

  lemma {:induction false} NavigationOrigin(trace: seq<Event>, id: NavigationId) returns (i: nat)
    requires NavigationOf(trace, id).Some?
    ensures AskedAt(trace, i, id, NavigationOf(trace, id).value.tx)
  {
    var before, e := Front(trace), Last(trace);
    hide Responds, EvictsNavigation;
    if e.NavigationAsked? && NextNavigationOf(before) == id.raw {
      i := |before|;
      assert trace[..i] == before;
    } else {
      i := NavigationOrigin(before, id);
      assert trace[..i] == before[..i] && trace[i] == before[i];
    }
  }

  predicate AsksForPage(e: Event, tx: Ticket) {
    e.PageRequested? && e.valid && e.tx == tx
  }

  lemma {:induction false} InitiatorOrigin(trace: seq<Event>, target: TargetId) returns (i: nat)
    requires InitiatorIn(trace, target).Some? && InitiatorIn(trace, target).value.Some?
    ensures i < |trace| && AsksForPage(trace[i], InitiatorIn(trace, target).value.value)
  {
    var before, e := Front(trace), Last(trace);
    var tx := InitiatorIn(trace, target).value.value;
    if InitiatorIn(before, target) == Some(Some(tx)) {
      i := InitiatorOrigin(before, target);
      assert trace[i] == before[i];
    } else {
      assert e.ResponseArrived? && WaitingFor(before, e.response.id) == Some(CreateTarget(tx));
      i := CallOrigin(before, e.response.id);
      assert trace[i] == before[i];
    }
  }

  // ---------- One sender, one event ----------

  lemma BroughtOnce(trace: seq<Event>, i: nat, j: nat)
    requires FreshSenders(trace) && i < |trace| && j < |trace|
    requires Brings(trace[i]).Some? && Brings(trace[i]) == Brings(trace[j])
    ensures i == j
  {
  }

  lemma FreshBefore(trace: seq<Event>, n: nat)
    requires FreshSenders(trace) && n <= |trace|
    ensures FreshSenders(trace[..n])
  {
    assert forall i | 0 <= i < n :: trace[..n][i] == trace[i];
  }

  /** A call that waits for a sender was submitted by the event that brought it. */
  lemma SenderOrigin(trace: seq<Event>, n: nat, call: CallId, a: nat)
    requires FreshSenders(trace) && n <= |trace| && a < |trace| && Brings(trace[a]).Some?
    requires var w := WaitingFor(trace[..n], call); w.Some? && SenderOf(w.value) == Brings(trace[a])
    ensures a < n && SubmittedAt(trace, a, call, CallOf(trace[..n], call).value)
  {
    var i := CallOrigin(trace[..n], call);
    assert trace[..n][..i] == trace[..i] && trace[..n][i] == trace[i];
    BroughtOnce(trace, i, a);
  }

  // ---------- Navigations ----------

  /** How step `i` came to give this reply to the navigation: the later half arrived, or the navigation failed, or a call
    * that waited for it was evicted. */
  predicate EndsNavigation(trace: seq<Event>, i: nat, id: NavigationId, tx: Ticket, reply: Reply) {
    && i < |trace|
    && var before, e := trace[..i], trace[i];
    && var nav := NavigationOf(before, id);
    && nav.Some? && nav.value.tx == tx
    && match reply
       case RespondedWith(response) =>
         || (e == ResponseArrived(response) && Responds(before, e, id) && nav.value.navigated)
         || (e.LifecycleCompleted? && e.result.Ok? && e.result.Id() == id && nav.value.response == Some(response))
       case NavigationFailed(error) => e == LifecycleCompleted(Err(error)) && error.id == id
       case TimedOut => EvictsNavigation(before, e, id)
       case _ => false
  }

  /** In every run, who asked for a navigation is answered only so: with the response to its own call, once the page has
    * also loaded; with the error with which it failed; or with a timeout, when its call was evicted. */
  lemma NavigationIsAnswered(trace: seq<Event>, tx: Ticket, reply: Reply)
    requires FreshSenders(trace) && Run(trace).Alive? && NavigationAsked(tx) in trace
    requires Answer(tx, reply) in Run(trace).handler.answered
    ensures exists i: nat, id: NavigationId :: EndsNavigation(trace, i, id, tx, reply)
  {
    AnswersInEveryRun(trace, Answer(tx, reply));
    var i: nat :| i < |trace| && GivenAt(trace, i, Answer(tx, reply));
    var a: nat :| a < |trace| && trace[a] == NavigationAsked(tx);
    var id := GivenToNavigation(trace, i, a, tx, reply);
  }

  lemma GivenToNavigation(trace: seq<Event>, i: nat, a: nat, tx: Ticket, reply: Reply) returns (id: NavigationId)
    requires FreshSenders(trace) && i < |trace| && a < |trace| && trace[a] == NavigationAsked(tx)
    requires Gives(trace[..i], trace[i], Answer(tx, reply))
    ensures EndsNavigation(trace, i, id, tx, reply)
  {
    var before, e := trace[..i], trace[i];
    hide NavigationOf, CallOf, InitiatorIn;
    match e
    case PageRequested(_, _, _) => BroughtOnce(trace, i, a);
    case PagesListed(_) => BroughtOnce(trace, i, a);
    case LifecycleCompleted(result) => id := result.Id();
    case ResponseArrived(response) =>
      var request := WaitingFor(before, response.id).value;
      if request.Navigate? {
        id := request.id;
      } else {
        SenderOrigin(trace, i, response.id, a);
      }
    case TargetDone(target, _) =>
      var k := InitiatorOrigin(before, target);
      assert before[k] == trace[k];
      BroughtOnce(trace, k, a);
    case Evicted(calls, _, _) =>
      var call :| call in calls && BelongsTo(before, call, tx);
      var request := WaitingFor(before, call).value;
      if request.Navigate? {
        id := request.id;
      } else {
        SenderOrigin(trace, i, call, a);
      }
  }

  // ---------- Plain commands ----------

  /** How step `i` came to give this reply to the command with this call id: its response arrived, or it was evicted. */
  predicate EndsCommand(trace: seq<Event>, i: nat, call: CallId, tx: Ticket, reply: Reply) {
    && i < |trace| && WaitingFor(trace[..i], call) == Some(ExternalCommand(tx))
    && match reply
       case RespondedWith(response) => trace[i] == ResponseArrived(response) && response.id == call
       case TimedOut => trace[i].Evicted? && call in trace[i].calls
       case _ => false
  }

  /** In every run, who submitted a command is answered only so: with the response to its own call, or with a timeout,
    * when that call was evicted. */
  lemma CommandIsAnswered(trace: seq<Event>, a: nat, reply: Reply)
    requires FreshSenders(trace) && Run(trace).Alive? && a < |trace| && trace[a].CommandSubmitted?
    requires Answer(trace[a].tx, reply) in Run(trace).handler.answered
    ensures exists i: nat :: a < i && EndsCommand(trace, i, CallId(NextCallOf(trace[..a])), trace[a].tx, reply)
  {
    var tx := trace[a].tx;
    AnswersInEveryRun(trace, Answer(tx, reply));
    var i: nat :| i < |trace| && GivenAt(trace, i, Answer(tx, reply));
    GivenToCommand(trace, i, a, reply);
  }

  lemma GivenToCommand(trace: seq<Event>, i: nat, a: nat, reply: Reply)
    requires FreshSenders(trace) && i < |trace| && a < |trace| && trace[a].CommandSubmitted?
    requires Gives(trace[..i], trace[i], Answer(trace[a].tx, reply))
    ensures a < i && EndsCommand(trace, i, CallId(NextCallOf(trace[..a])), trace[a].tx, reply)
  {
    var before, e, tx := trace[..i], trace[i], trace[a].tx;
    hide NavigationOf, CallOf, InitiatorIn, NextCallOf;
    match e
    case PageRequested(_, _, _) => BroughtOnce(trace, i, a);
    case PagesListed(_) => BroughtOnce(trace, i, a);
    case LifecycleCompleted(result) => NotANavigation(trace, i, a, result.Id());
    case ResponseArrived(response) =>
      var request := WaitingFor(before, response.id).value;
      if request.Navigate? {
        NotANavigation(trace, i, a, request.id);
      } else {
        SenderOrigin(trace, i, response.id, a);
      }
    case TargetDone(target, _) =>
      var k := InitiatorOrigin(before, target);
      assert false;
    case Evicted(calls, _, _) =>
      var call :| call in calls && BelongsTo(before, call, tx);
      var request := WaitingFor(before, call).value;
      if request.Navigate? {
        NotANavigation(trace, i, a, request.id);
      } else {
        SenderOrigin(trace, i, call, a);
      }
  }

  lemma NotANavigation(trace: seq<Event>, n: nat, a: nat, id: NavigationId)
    requires FreshSenders(trace) && n <= |trace| && a < |trace| && trace[a].CommandSubmitted?
    ensures NavigationOf(trace[..n], id).Some? ==> NavigationOf(trace[..n], id).value.tx != trace[a].tx
  {
    if NavigationOf(trace[..n], id).Some? && NavigationOf(trace[..n], id).value.tx == trace[a].tx {
      var i := NavigationOrigin(trace[..n], id);
      assert trace[..n][i] == trace[i];
      BroughtOnce(trace, i, a);
    }
  }

  // ---------- Both halves give the response ----------

  /** After `before`, the event fails the navigation, evicts or answers a call for it, or takes its id or that of its call. */
  predicate Disturbs(before: seq<Event>, e: Event, id: NavigationId, call: CallId) {
    || (e.NavigationAsked? && NextNavigationOf(before) == id.raw)
    || (Submitted(e).Some? && NextCallOf(before) == call.raw)
    || (e.LifecycleCompleted? && e.result.Err? && e.result.Id() == id)
    || Responds(before, e, id)
    || EvictsNavigation(before, e, id)
    || (e.Evicted? && call in e.calls)
  }

  /** The steps of a navigation: asked for at `a`, its call submitted at `b`, answered at `p`, and loaded at `q`. */
  datatype Steps = Steps(a: nat, b: nat, p: nat, q: nat, id: NavigationId, call: CallId, tx: Ticket, response: Response)
  {
    function End(): nat {
      if p < q then q else p
    }
  }

  /** The events at these steps, and nothing between them that disturbs the navigation. */
  predicate Proceeds(trace: seq<Event>, s: Steps) {
    && s.a < s.b < s.p < |trace| && s.a < s.q < |trace|
    && AskedAt(trace, s.a, s.id, s.tx)
    && trace[s.b].NavigationSubmitted? && trace[s.b].id == s.id && NextCallOf(trace[..s.b]) == s.call.raw
    && trace[s.p] == ResponseArrived(s.response) && s.response.id == s.call
    && trace[s.q].LifecycleCompleted? && trace[s.q].result.Ok? && trace[s.q].result.Id() == s.id
    && (forall k | s.a < k < s.End() && k != s.b && k != s.p :: !Disturbs(trace[..k], trace[k], s.id, s.call))
    && (forall k | s.a < k < s.q :: !Completes(trace[k], s.id))
  }

  predicate Completes(e: Event, id: NavigationId) {
    e.LifecycleCompleted? && e.result.Id() == id
  }

  /** Its call is submitted exactly from step `b` to step `p`. */
  predicate CallProceeds(trace: seq<Event>, s: Steps, k: nat)
    requires k <= |trace|
  {
    s.b < k <= s.p ==> WaitingFor(trace[..k], s.call) == Some(Navigate(s.id))
  }

  lemma OneMore(trace: seq<Event>, k: nat)
    requires 0 < k <= |trace|
    ensures trace[..k] != [] && Front(trace[..k]) == trace[..k - 1] && Last(trace[..k]) == trace[k - 1]
  {
  }

  lemma {:induction false} CallWaits(trace: seq<Event>, s: Steps, k: nat)
    requires Proceeds(trace, s) && s.b < k <= s.p
    ensures WaitingFor(trace[..k], s.call) == Some(Navigate(s.id))
    decreases k
  {
    OneMore(trace, k);
    if k > s.b + 1 {
      CallWaits(trace, s, k - 1);
      var before, e := trace[..k - 1], trace[k - 1];
      assert !Disturbs(before, e, s.id, s.call);
      hide NextCallOf, NavigationOf, EvictsNavigation;
    }
  }

  /** Between asking and the first half nothing arrived, and between the halves the first one. */
  lemma {:induction false} NavigationWaits(trace: seq<Event>, s: Steps, k: nat)
    requires Proceeds(trace, s) && s.a < k <= s.End()
    ensures NavigationOf(trace[..k], s.id) ==
            Some(NavigationInProgress(s.q < k, if s.p < k then Some(s.response) else None, s.tx))
    decreases k
  {
    OneMore(trace, k);
    if k > s.a + 1 {
      NavigationWaits(trace, s, k - 1);
      var before, e := trace[..k - 1], trace[k - 1];
      if k - 1 == s.p {
        CallWaits(trace, s, s.p);
      } else if k - 1 != s.b {
        assert !Disturbs(before, e, s.id, s.call);
      }
      hide NextCallOf, CallOf;
    }
  }

  /** In every run, a caller who asked for a navigation gets the response to its call as soon as both that response and the
    * completion of the navigation arrived, in either order, unless something between disturbed the navigation. */
  lemma NavigationGetsItsResponse(trace: seq<Event>, s: Steps)
    requires Run(trace).Alive? && Proceeds(trace, s)
    ensures Answer(s.tx, RespondedWith(s.response)) in Run(trace).handler.answered
  {
    var i := s.End();
    NavigationWaits(trace, s, i);
    if i == s.p {
      CallWaits(trace, s, i);
    }
    hide Run, NavigationOf, CallOf;
    var answer := Answer(s.tx, RespondedWith(s.response));
    assert Gives(trace[..i], trace[i], answer);
    assert GivenAt(trace, i, answer);
    AnswersInEveryRun(trace, answer);
  }
}
