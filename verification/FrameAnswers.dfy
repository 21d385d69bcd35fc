/** The navigations of a frame manager, computed from its events alone: when each starts, and with what result it ends
  * (src/handler/frame.rs:260-352). */
module FrameAnswers {
  import opened Options
  import opened Sequences
  import opened Http
  import opened FrameTable
  import opened FrameOps
  import opened Navigation
  import opened FrameManagerSpec
  import opened FrameRuns
  import opened FrameHistory
  import Queue = FrameQueue

  // ---------- What was asked for ----------

  /** A navigation of `frame`, whose loader was `loader` when it was asked for. */
  datatype Order = Order(frame: FrameId, req: FrameNavigationRequest, loader: Option<string>)

  /** The request with the frame it is for, unless it names one itself. */
  function Naming(req: FrameNavigationRequest, frame: FrameId): FrameNavigationRequest {
    match req.req.params
    case Scalar(_) => req
    case Object(fields) =>
      var named := if "frameId" in fields then fields else fields["frameId" := frame.raw];
      FrameNavigationRequest(req.id, CdpRequest(req.req.command, req.req.sessionId, Object(named)), req.timeout)
  }

  ghost function OrderOf(before: seq<Event>, frame: FrameId, req: FrameNavigationRequest): Order {
    Order(frame, Naming(req, frame), if Path(before, frame).Some? then RecordOf(before, frame).loader else None)
  }

  /** The navigations asked for, in order. Without a main frame a request for it is dropped. */
  ghost function Orders(trace: seq<Event>): seq<Order> {
    if trace == [] then []
    else
      var before := Front(trace);
      Orders(before) +
      match Last(trace)
      case GotoRequested(req) => if Main(before).Some? then [OrderOf(before, Main(before).value, req)] else []
      case FrameNavigationRequested(id, req) => [OrderOf(before, id, req)]
      case _ => []
  }

  // ---------- What becomes of it ----------

  /** An ongoing navigation: it is to end by `deadline`; `stayed` if its frame navigated within its document since. */
  datatype Trip = Trip(order: Order, deadline: nat, stayed: bool)

  datatype Phase = Phase(started: nat, trip: Option<Trip>)

  /** The frame loaded, or it has no url and loaded its content. */
  predicate HasLoaded(r: Record) {
    "load" in r.lifecycle || (r.url.None? && "DOMContentLoaded" in r.lifecycle)
  }

  /** The frame and all below it loaded. */
  ghost predicate AllLoaded(trace: seq<Event>, frame: FrameId) {
    forall x | OnPath(trace, x, frame) :: HasLoaded(RecordOf(trace, x))
  }

  /** How the navigation ends at time `now`, if it does: it is late, or its frame is gone, or everything loaded and the
    * frame stayed in its document or has another loader than when the navigation was asked for. */
  ghost function ResultOf(trace: seq<Event>, trip: Trip, now: nat): Option<NavigationResult> {
    var id, frame := trip.order.req.id, trip.order.frame;
    if now > trip.deadline then Some(Err(Timeout(id, now, trip.deadline)))
    else if Path(trace, frame).None? then Some(Err(FrameNotFound(id, frame)))
    else if !AllLoaded(trace, frame) then None
    else if trip.stayed then Some(Ok(SameDocumentNavigation(id)))
    else if RecordOf(trace, frame).loader != trip.order.loader then Some(Ok(NewDocumentNavigation(id)))
    else None
  }

  /** What a poll gives, and the phase after it. */
  ghost function Polling(trace: seq<Event>, phase: Phase, now: nat, clock: nat): (Phase, Option<FrameEvent>) {
    match phase.trip
    case Some(trip) =>
      var result := ResultOf(trace, trip, now);
      if result.Some? then (Phase(phase.started, None), Some(ResultEvent(result.value))) else (phase, None)
    case None =>
      if phase.started >= |Orders(trace)| then (phase, None)
      else
        var order := Orders(trace)[phase.started];
        (Phase(phase.started + 1, Some(Trip(order, clock + order.req.timeout, false))),
         Some(RequestEvent(order.req.id, order.req.req)))
  }

  ghost function PhaseOf(trace: seq<Event>): Phase {
    if trace == [] then Phase(0, None)
    else
      var before := Front(trace);
      var phase := PhaseOf(before);
      match Last(trace)
      case PollRequested(now, clock) => Polling(before, phase, now, clock).0
      case NavigatedWithinDocument(id, _) =>
        if phase.trip.Some? && phase.trip.value.order.frame == id
        then Phase(phase.started, Some(phase.trip.value.(stayed := true))) else phase
      case _ => phase
  }

  /** All that polls gave in a run, in order. */
  ghost function PutOut(trace: seq<Event>): seq<FrameEvent> {
    if trace == [] then []
    else
      var before := Front(trace);
      PutOut(before) +
      match Last(trace)
      case PollRequested(now, clock) =>
        var event := Polling(before, PhaseOf(before), now, clock).1;
        if event.Some? then [event.value] else []
      case _ => []
  }

  // ---------- The manager does that ----------

  ghost predicate Queued(q: QueuedNavigation, order: Order) {
    q.req == order.req && q.watcher == NavigationWatcher(order.req.id, {"load"}, order.frame, order.loader, false)
  }

  ghost predicate Ongoing(n: OngoingNavigation, trip: Trip) {
    && n.deadline == trip.deadline
    && n.watcher ==
         NavigationWatcher(trip.order.req.id, {"load"}, trip.order.frame, trip.order.loader, trip.stayed)
  }

  /** What was not started is queued, and what is ongoing is watched. */
  ghost predicate Follows(s: Manager, phase: Phase, orders: seq<Order>) {
    && phase.started <= |orders| && |s.pending| == |orders| - phase.started
    && (forall i | 0 <= i < |s.pending| :: Queued(s.pending[i], orders[phase.started + i]))
    && (s.navigation.Some? <==> phase.trip.Some?)
    && (phase.trip.Some? ==> Ongoing(s.navigation.value, phase.trip.value))
  }

  lemma NamesTheFrame(req: FrameNavigationRequest, frame: FrameId)
    ensures req.SetFrameId(frame) == Naming(req, frame)
  {
  }

  lemma LoadedAgrees(s: Manager, trace: seq<Event>, w: NavigationWatcher, frame: FrameId)
    requires Known(s, trace) && w.expected == {"load"}
    ensures (forall x | x in Subtree(s.frames, frame) :: FrameReady(w, s.frames[x])) <==> AllLoaded(trace, frame)
  {
    forall x
      ensures x in Subtree(s.frames, frame) <==> OnPath(trace, x, frame)
      ensures x in s.frames ==> (FrameReady(w, s.frames[x]) <==> HasLoaded(RecordOf(trace, x)))
    {
      PathsAreBelow(s.frames, trace, x, frame);
      assert PathFits(s.frames, trace, x);
      assert x in s.frames ==> Shows(s.frames[x], RecordOf(trace, x));
    }
  }

  lemma ResultAgrees(s: Manager, trace: seq<Event>, n: OngoingNavigation, trip: Trip, now: nat, clock: nat)
    requires Known(s, trace) && s.navigation == Some(n) && Ongoing(n, trip)
    ensures Poll(s, now, clock).event ==
            match ResultOf(trace, trip, now) case None => None case Some(result) => Some(ResultEvent(result))
    ensures Poll(s, now, clock).manager == if ResultOf(trace, trip, now).Some? then s.(navigation := None) else s
  {
    var frame := trip.order.frame;
    assert PathFits(s.frames, trace, frame);
    LoadedAgrees(s, trace, n.watcher, frame);
    if frame in s.frames {
      assert Shows(s.frames[frame], RecordOf(trace, frame));
      CompleteExactlyWhen(s.frames, n.watcher, frame);
    }
    hide AllLoaded, RecordOf, Path, CheckLifecycleComplete, FrameReady, PathsFit, ShowsAll;
  }

  lemma PollFollows(s: Manager, trace: seq<Event>, phase: Phase, now: nat, clock: nat)
    requires Known(s, trace) && Follows(s, phase, Orders(trace))
    ensures Poll(s, now, clock).event == Polling(trace, phase, now, clock).1
    ensures Follows(Poll(s, now, clock).manager, Polling(trace, phase, now, clock).0, Orders(trace))
  {
    hide Known, Poll, ResultOf, Orders;
    if phase.trip.Some? {
      var trip := phase.trip.value;
      ResultAgrees(s, trace, s.navigation.value, trip, now, clock);
      EndedFollows(s, phase, Orders(trace));
    } else {
      KnownMain(s, trace);
      StartFollows(s, trace, phase, now, clock);
    }
  }

  lemma EndedFollows(s: Manager, phase: Phase, orders: seq<Order>)
    requires Follows(s, phase, orders)
    ensures Follows(s.(navigation := None), Phase(phase.started, None), orders)
  {
  }

  lemma StartFollows(s: Manager, trace: seq<Event>, phase: Phase, now: nat, clock: nat)
    requires Forest(s.frames) && Follows(s, phase, Orders(trace)) && phase.trip.None?
    ensures Poll(s, now, clock).event == Polling(trace, phase, now, clock).1
    ensures Follows(Poll(s, now, clock).manager, Polling(trace, phase, now, clock).0, Orders(trace))
  {
    hide Forest, Orders;
    if s.pending != [] {
      assert Queued(s.pending[0], Orders(trace)[phase.started]);
    }
  }

  lemma OrderFollows(s: Manager, trace: seq<Event>, phase: Phase, frame: FrameId, req: FrameNavigationRequest)
    requires Known(s, trace) && Follows(s, phase, Orders(trace))
    ensures Follows(NavigateFrame(s, frame, req), phase, Orders(trace) + [OrderOf(trace, frame, req)])
  {
    LoaderNow(s, trace, frame);
    NamesTheFrame(req, frame);
    hide Known, RecordOf, Path, Naming, Orders, FrameNavigationRequest.SetFrameId;
    var order := OrderOf(trace, frame, req);
    var s' := NavigateFrame(s, frame, req);
    assert s'.pending == s.pending + [Last(s'.pending)] && Queued(Last(s'.pending), order);
    hide NavigateFrame, OrderOf, Queued, Ongoing;
  }

  lemma LoaderNow(s: Manager, trace: seq<Event>, frame: FrameId)
    requires Known(s, trace)
    ensures (if frame in s.frames then s.frames[frame].loaderId else None) ==
            (if Path(trace, frame).Some? then RecordOf(trace, frame).loader else None)
  {
    assert PathFits(s.frames, trace, frame);
    assert frame in s.frames ==> Shows(s.frames[frame], RecordOf(trace, frame));
    hide Path, RecordOf;
  }

  lemma OrdersOneMore(trace: seq<Event>, e: Event)
    ensures Orders(trace + [e]) ==
            Orders(trace) +
            (if e.GotoRequested? then (if Main(trace).Some? then [OrderOf(trace, Main(trace).value, e.req)] else [])
             else if e.FrameNavigationRequested? then [OrderOf(trace, e.id, e.req)]
             else [])
  {
    assert Front(trace + [e]) == trace;
    hide OrderOf;
  }

  lemma PhaseOneMore(trace: seq<Event>, e: Event)
    ensures e.PollRequested? ==> PhaseOf(trace + [e]) == Polling(trace, PhaseOf(trace), e.now, e.clock).0
    ensures !e.PollRequested? && !e.NavigatedWithinDocument? ==> PhaseOf(trace + [e]) == PhaseOf(trace)
  {
    assert Front(trace + [e]) == trace;
    hide Polling;
  }

  lemma StepFollows(s: Manager, trace: seq<Event>, e: Event)
    requires Known(s, trace) && Follows(s, PhaseOf(trace), Orders(trace)) && !e.FrameTreeReceived? && Step(s, e).Alive?
    ensures Follows(Step(s, e).manager, PhaseOf(trace + [e]), Orders(trace + [e]))
  {
    hide Step, Follows, Known, Orders, PhaseOf;
    if Queue.TouchesQueue(e) {
      NavigationFollows(s, trace, e);
    } else {
      OrdersOneMore(trace, e);
      PhaseOneMore(trace, e);
      assert Orders(trace) + [] == Orders(trace);
      OtherFollows(s, trace, e);
    }
  }

  lemma NavigationFollows(s: Manager, trace: seq<Event>, e: Event)
    requires Known(s, trace) && Follows(s, PhaseOf(trace), Orders(trace)) && Queue.TouchesQueue(e)
    ensures Step(s, e).Alive? && Follows(Step(s, e).manager, PhaseOf(trace + [e]), Orders(trace + [e]))
  {
    hide Follows, Known, Orders, PhaseOf, Poll, Polling, NavigateFrame, OrderOf, OnNavigatedWithinDocument, Forest;
    OrdersOneMore(trace, e);
    PhaseOneMore(trace, e);
    KnownMain(s, trace);
    assert Orders(trace) + [] == Orders(trace);
    if e.GotoRequested? {
      if s.mainFrame.Some? {
        OrderFollows(s, trace, PhaseOf(trace), s.mainFrame.value, e.req);
      }
    } else if e.FrameNavigationRequested? {
      OrderFollows(s, trace, PhaseOf(trace), e.id, e.req);
    } else if e.PollRequested? {
      PollFollows(s, trace, PhaseOf(trace), e.now, e.clock);
    } else {
      WithinDocumentFollows(s, trace, e.id, e.url);
    }
  }

  lemma OtherFollows(s: Manager, trace: seq<Event>, e: Event)
    requires Known(s, trace) && Follows(s, PhaseOf(trace), Orders(trace)) && !Queue.TouchesQueue(e) && Step(s, e).Alive?
    ensures Follows(Step(s, e).manager, PhaseOf(trace), Orders(trace))
  {
    hide Step, Follows, Orders, PhaseOf;
    KnownMain(s, trace);
    Queue.OthersKeepQueue(s, e);
    SameQueueFollows(s, Step(s, e).manager, PhaseOf(trace), Orders(trace));
  }

  lemma KnownMain(s: Manager, trace: seq<Event>)
    requires Known(s, trace)
    ensures s.mainFrame == Main(trace) && Forest(s.frames)
  {
  }

  lemma SameQueueFollows(s: Manager, s': Manager, phase: Phase, orders: seq<Order>)
    requires Follows(s, phase, orders) && s'.pending == s.pending && s'.navigation == s.navigation
    ensures Follows(s', phase, orders)
  {
  }

  lemma WithinDocumentFollows(s: Manager, trace: seq<Event>, id: FrameId, url: string)
    requires Follows(s, PhaseOf(trace), Orders(trace))
    ensures var e := NavigatedWithinDocument(id, url);
            Follows(OnNavigatedWithinDocument(s, id, url), PhaseOf(trace + [e]), Orders(trace))
  {
    assert Front(trace + [NavigatedWithinDocument(id, url)]) == trace;
    hide Orders;
  }

  lemma {:induction false} FollowsInEveryRun(trace: seq<Event>)
    requires Plain(trace) && Run(trace).Alive?
    ensures Known(Run(trace).manager, trace) && Follows(Run(trace).manager, PhaseOf(trace), Orders(trace))
    ensures Queue.Outputs(trace) == PutOut(trace)
  {
    KnownInEveryRun(trace);
    if trace == [] {
      NothingKnown();
    } else {
      var before, e := Front(trace), Last(trace);
      RunBefore(trace);
      FollowsInEveryRun(before);
      StepFollows(Run(before).manager, before, e);
      if e.PollRequested? {
        PollFollows(Run(before).manager, before, PhaseOf(before), e.now, e.clock);
      }
      hide Run, Step, Known, Follows, Polling, Poll;
    }
  }

  // ---------- Runs with frame trees ----------

  lemma {:induction false} OutputsAppend(a: seq<Event>, b: seq<Event>)
    requires forall i | 0 <= i < |b| :: !b[i].PollRequested?
    ensures Queue.Outputs(a + b) == Queue.Outputs(a)
    decreases |b|
  {
    if b == [] {
      assert a + b == a;
    } else {
      assert Front(a + b) == a + Front(b);
      OutputsAppend(a, Front(b));
      assert Queue.Outputs(a) + [] == Queue.Outputs(a);
    }
  }

  lemma {:induction false} TreePollsNothing(tree: BrowserFrameTree)
    ensures forall i | 0 <= i < |UnfoldTree(tree)| :: !UnfoldTree(tree)[i].PollRequested?
    decreases tree, 1
  {
    TreesPollNothing(tree.children);
  }

  lemma {:induction false} TreesPollNothing(trees: seq<BrowserFrameTree>)
    ensures forall i | 0 <= i < |UnfoldTrees(trees)| :: !UnfoldTrees(trees)[i].PollRequested?
    decreases trees, 0
  {
    if trees != [] {
      TreePollsNothing(trees[0]);
      TreesPollNothing(trees[1..]);
    }
  }

  lemma {:induction false} OutputsUnfold(trace: seq<Event>)
    ensures Queue.Outputs(Unfolded(trace)) == Queue.Outputs(trace)
  {
    if trace != [] {
      var before, e := Front(trace), Last(trace);
      OutputsUnfold(before);
      UnfoldedRuns(before);
      if e.FrameTreeReceived? {
        TreePollsNothing(e.tree);
        OutputsAppend(Unfolded(before), UnfoldTree(e.tree));
        assert Queue.Outputs(before) + [] == Queue.Outputs(before);
      } else {
        var longer := Unfolded(before) + [e];
        assert longer[..|longer| - 1] == Unfolded(before);
      }
    }
  }

  /** In every run, all that polls gave is what the events alone say: each navigation is requested with its own request, in
    * order; it ends when it is late, or its frame is gone, or all frames below it loaded and its frame stayed in its
    * document or has another loader than when it was asked for, and not before. */
  lemma EverythingPutOut(trace: seq<Event>)
    requires Run(trace).Alive?
    ensures Queue.Outputs(trace) == PutOut(Unfolded(trace))
  {
    UnfoldedRuns(trace);
    UnfoldsPlainly(trace);
    OutputsUnfold(trace);
    FollowsInEveryRun(Unfolded(trace));
  }

  /** So the next poll reports a success exactly when there is an ongoing navigation that is not late, whose frame is
    * tracked and all loaded, and that stayed in its document or whose loader is another one. */
  lemma SuccessExactlyWhen(trace: seq<Event>, now: nat, clock: nat, id: NavigationId)
    requires Run(trace).Alive?
    ensures var known := Unfolded(trace);
            var trip, event := PhaseOf(known).trip, Poll(Run(trace).manager, now, clock).event;
            (event == Some(ResultEvent(Ok(NewDocumentNavigation(id)))) || event == Some(ResultEvent(Ok(SameDocumentNavigation(id)))))
            <==>
              && trip.Some? && trip.value.order.req.id == id && now <= trip.value.deadline
              && var frame := trip.value.order.frame;
              && Path(known, frame).Some? && AllLoaded(known, frame)
              && (trip.value.stayed || RecordOf(known, frame).loader != trip.value.order.loader)
  {
    UnfoldedRuns(trace);
    UnfoldsPlainly(trace);
    FollowsInEveryRun(Unfolded(trace));
    PollFollows(Run(trace).manager, Unfolded(trace), PhaseOf(Unfolded(trace)), now, clock);
    hide Run, Poll, Known, Follows, PhaseOf, AllLoaded, RecordOf, Path, Unfolded, Orders;
  }
}
