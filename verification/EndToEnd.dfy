/** The handler together with the frame managers of its targets: a navigation from the page that asks for it to the reply
  * (src/handler/mod.rs:148-193, 307-353, 579-611; src/handler/target.rs:546-557). */
module EndToEnd {
  import opened Options
  import opened Identifiers
  import opened Navigation
  import opened HandlerSpec
  import HS = HandlerSenders
  import HR = HandlerRuns
  import T = FrameTable
  import O = FrameOps
  import F = FrameManagerSpec
  import FR = FrameRuns
  import Q = FrameQueue

  datatype System = System(handler: Handler, frames: map<TargetId, F.Manager>)

  /** A page of the target asks for a navigation; the target is polled by the handler's sweep; a browser event concerns
    * the frames of a target; anything else happens at the handler. */
  datatype Event =
    | Asked(target: TargetId, tx: Ticket, req: CdpRequest, timeout: nat)
    | Polled(target: TargetId, now: nat, clock: nat)
    | FrameEventArrived(target: TargetId, frameEvent: F.Event)
    | HandlerEvent(handlerEvent: HandlerSpec.Event)

  /** Navigations are asked for, submitted and completed through targets only. */
  predicate Possible(e: Event) {
    match e
    case FrameEventArrived(_, ev) => !ev.PollRequested? && !ev.GotoRequested? && !ev.FrameNavigationRequested?
    case HandlerEvent(ev) => !ev.NavigationAsked? && !ev.NavigationSubmitted? && !ev.LifecycleCompleted?
    case _ => true
  }

  datatype SystemOutcome = Running(system: System) | Crashed

  ghost predicate Shaped(s: System) {
    forall t | t in s.frames :: F.WellShaped(s.frames[t])
  }

  /** The targets that a handler event creates, or replaces by new ones. */
  function Created(s: Handler, e: HandlerSpec.Event): set<TargetId> {
    match e
    case TargetCreated(target) => {target}
    case ResponseArrived(response) =>
      if response.id in s.pending && s.pending[response.id].request.GetTargets? && response.payload.TargetList?
      then set t | t in response.payload.targets else {}
    case _ => {}
  }

  /** The frame managers after a handler event: those of targets that are gone are dropped, and new targets get new ones. */
  function Renewed(s: System, after: Handler, e: HandlerSpec.Event): map<TargetId, F.Manager> {
    map t | t in after.targets :: if t in s.frames && t !in Created(s.handler, e) then s.frames[t] else F.NEW_MANAGER
  }

  /** What a poll of the target's frames makes the handler do. */
  function Passed(handler: Handler, event: FrameEvent, now: nat): Handler {
    match event
    case RequestEvent(id, _) => Track(handler, Navigate(id), now)
    case ResultEvent(result) => OnLifecycleCompleted(handler, result)
  }

  ghost function Step(s: System, e: Event): SystemOutcome
    requires Shaped(s)
  {
    match e
    case Asked(t, tx, req, timeout) =>
      if t !in s.frames then Running(s)
      else
        var request := FrameNavigationRequest(NavigationId(s.handler.nextNavigation), req, timeout);
        Running(System(AskNavigation(s.handler, tx), s.frames[t := F.Goto(s.frames[t], request)]))
    case Polled(t, now, clock) =>
      if t !in s.frames then Running(s)
      else
        var p := F.Poll(s.frames[t], now, clock);
        var handler := if p.event.Some? then Passed(s.handler, p.event.value, now) else s.handler;
        Running(System(handler, s.frames[t := p.manager]))
    case FrameEventArrived(t, ev) =>
      if t !in s.frames then Running(s)
      else (match F.Step(s.frames[t], ev)
            case Panicked => Crashed
            case Alive(m) => Running(s.(frames := s.frames[t := m])))
    case HandlerEvent(ev) =>
      (match HandlerSpec.Step(s.handler, ev)
       case Panicked => Crashed
       case Alive(handler) => Running(System(handler, Renewed(s, handler, ev))))
  }

  lemma StepStaysShaped(s: System, e: Event)
    requires Shaped(s)
    ensures Step(s, e).Running? ==> Shaped(Step(s, e).system)
  {
    hide F.WellShaped, F.Goto, F.Step, HandlerSpec.Step;
    match e
    case Asked(t, tx, req, timeout) =>
      if t in s.frames {
        GotoStaysShaped(s.frames[t], FrameNavigationRequest(NavigationId(s.handler.nextNavigation), req, timeout));
      }
    case Polled(t, now, clock) => if t in s.frames { PollStaysShaped(s.frames[t], now, clock); }
    case FrameEventArrived(t, ev) => if t in s.frames { F.StepKeepsShape(s.frames[t], ev); }
    case HandlerEvent(ev) => NewIsShaped();
  }

  lemma NewIsShaped()
    ensures F.WellShaped(F.NEW_MANAGER)
  {
  }

  lemma GotoStaysShaped(m: F.Manager, req: FrameNavigationRequest)
    requires F.WellShaped(m)
    ensures F.WellShaped(F.Goto(m, req))
  {
    F.StepKeepsShape(m, F.GotoRequested(req));
  }

  lemma PollStaysShaped(m: F.Manager, now: nat, clock: nat)
    requires F.WellShaped(m)
    ensures T.Forest(m.frames) && F.WellShaped(F.Poll(m, now, clock).manager)
  {
    F.StepKeepsShape(m, F.PollRequested(now, clock));
  }

  ghost function Run(trace: seq<Event>): (r: SystemOutcome)
    ensures r.Running? ==> Shaped(r.system)
  {
    if trace == [] then Running(System(NEW_HANDLER, map[]))
    else match Run(trace[..|trace| - 1])
         case Crashed => Crashed
         case Running(s) => StepStaysShaped(s, trace[|trace| - 1]); Step(s, trace[|trace| - 1])
  }

  // ---------- What each machine sees of a run ----------

  ghost function SeenByHandler(s: System, e: Event): seq<HandlerSpec.Event>
    requires Shaped(s)
  {
    match e
    case Asked(t, tx, _, _) => if t in s.frames then [NavigationAsked(tx)] else []
    case Polled(t, now, clock) =>
      if t !in s.frames then []
      else (match F.Poll(s.frames[t], now, clock).event
            case None => []
            case Some(RequestEvent(id, _)) => [NavigationSubmitted(id, now)]
            case Some(ResultEvent(result)) => [LifecycleCompleted(result)])
    case FrameEventArrived(_, _) => []
    case HandlerEvent(ev) => [ev]
  }

  ghost function HandlerTrace(trace: seq<Event>): seq<HandlerSpec.Event> {
    if trace == [] then []
    else
      var before := trace[..|trace| - 1];
      HandlerTrace(before) + if Run(before).Running? then SeenByHandler(Run(before).system, trace[|trace| - 1]) else []
  }

  ghost function SeenByFrames(s: System, e: Event, t: TargetId): seq<F.Event> {
    match e
    case Asked(target, tx, req, timeout) =>
      var request := FrameNavigationRequest(NavigationId(s.handler.nextNavigation), req, timeout);
      if target == t then [F.GotoRequested(request)] else []
    case Polled(target, now, clock) => if target == t then [F.PollRequested(now, clock)] else []
    case FrameEventArrived(target, ev) => if target == t then [ev] else []
    case HandlerEvent(_) => []
  }

  /** What the present frame manager of the target has seen: all since the target was created last. */
  ghost function FrameTrace(trace: seq<Event>, t: TargetId): seq<F.Event> {
    if trace == [] then []
    else
      var before, e := trace[..|trace| - 1], trace[|trace| - 1];
      if Run(before).Crashed? || t !in Run(before).system.frames
         || (e.HandlerEvent? && t in Created(Run(before).system.handler, e.handlerEvent)) then []
      else FrameTrace(before, t) + SeenByFrames(Run(before).system, e, t)
  }

  lemma HandlerRunOneMore(trace: seq<HandlerSpec.Event>, e: HandlerSpec.Event)
    requires HandlerSpec.Run(trace).Alive?
    ensures HandlerSpec.Run(trace + [e]) == HandlerSpec.Step(HandlerSpec.Run(trace).handler, e)
  {
    assert (trace + [e])[..|trace|] == trace;
  }

  lemma FrameRunOneMore(trace: seq<F.Event>, e: F.Event)
    requires FR.Run(trace).Alive?
    ensures FR.Run(trace + [e]) == F.Step(FR.Run(trace).manager, e)
  {
    assert (trace + [e])[..|trace|] == trace;
  }

  /** The handler in the system is the handler that ran alone through what it saw. */
  lemma {:induction false} HandlerRunsAlone(trace: seq<Event>)
    requires Run(trace).Running?
    ensures HandlerSpec.Run(HandlerTrace(trace)) == HandlerSpec.Outcome.Alive(Run(trace).system.handler)
  {
    if trace != [] {
      var before, e := trace[..|trace| - 1], trace[|trace| - 1];
      HandlerRunsAlone(before);
      var s := Run(before).system;
      var seen := SeenByHandler(s, e);
      HandlerSees(s, e);
      hide Step, SeenByHandler, HandlerSpec.Step, HandlerSpec.Run;
      if seen == [] {
        assert HandlerTrace(before) + [] == HandlerTrace(before);
      } else {
        assert seen == [seen[0]];
        HandlerRunOneMore(HandlerTrace(before), seen[0]);
      }
    } else {
      NothingSeen();
    }
  }

  lemma NothingSeen()
    ensures HandlerSpec.Run([]) == HandlerSpec.Outcome.Alive(NEW_HANDLER)
  {
  }

  lemma HandlerSees(s: System, e: Event)
    requires Shaped(s) && Step(s, e).Running?
    ensures var seen := SeenByHandler(s, e);
            |seen| <= 1 &&
            HandlerSpec.Outcome.Alive(Step(s, e).system.handler) ==
              if seen == [] then HandlerSpec.Outcome.Alive(s.handler) else HandlerSpec.Step(s.handler, seen[0])
  {
    hide F.Step, F.Poll, F.Goto, AskNavigation, OnLifecycleCompleted, Track, HandlerSpec.OnResponse;
  }

  /** So is every frame manager: it is the manager that ran alone through what it saw. */
  lemma {:induction false} FramesRunAlone(trace: seq<Event>, t: TargetId)
    requires Run(trace).Running? && t in Run(trace).system.frames
    ensures FR.Run(FrameTrace(trace, t)) == F.Outcome.Alive(Run(trace).system.frames[t])
  {
    if trace != [] {
      var before, e := trace[..|trace| - 1], trace[|trace| - 1];
      var s := Run(before).system;
      FramesSee(s, e, t);
      hide Step, F.Step, FR.Run, SeenByFrames;
      if t !in s.frames || (e.HandlerEvent? && t in Created(s.handler, e.handlerEvent)) {
        NothingSeenByFrames();
      } else {
        FramesRunAlone(before, t);
        var seen := SeenByFrames(s, e, t);
        if seen == [] {
          assert FrameTrace(before, t) + [] == FrameTrace(before, t);
        } else {
          assert seen == [seen[0]];
          FrameRunOneMore(FrameTrace(before, t), seen[0]);
        }
      }
    }
  }

  lemma NothingSeenByFrames()
    ensures FR.Run([]) == F.Outcome.Alive(F.NEW_MANAGER)
  {
  }

  lemma FramesSee(s: System, e: Event, t: TargetId)
    requires Shaped(s) && Step(s, e).Running? && t in Step(s, e).system.frames
    ensures var seen, m := SeenByFrames(s, e, t), Step(s, e).system.frames[t];
            if t !in s.frames || (e.HandlerEvent? && t in Created(s.handler, e.handlerEvent)) then m == F.NEW_MANAGER
            else |seen| <= 1 &&
                 F.Outcome.Alive(m) == if seen == [] then F.Outcome.Alive(s.frames[t]) else F.Step(s.frames[t], seen[0])
  {
    hide F.Poll, F.Goto, AskNavigation, Passed, HandlerSpec.Step, F.OnFrameNavigated, F.OnFrameTree;
  }

  // ---------- Navigations, end to end ----------

  /** Step `k` polled a target whose frame manager then reported the navigation as done, with this result. */
  ghost predicate ReportedAt(trace: seq<Event>, k: nat, result: NavigationResult) {
    && k < |trace| && Run(trace[..k]).Running? && trace[k].Polled?
    && var s := Run(trace[..k]).system;
    && trace[k].target in s.frames
    && F.Poll(s.frames[trace[k].target], trace[k].now, trace[k].clock).event == Some(ResultEvent(result))
  }

  lemma {:induction false} CompletionsAreReported(trace: seq<Event>, result: NavigationResult) returns (k: nat)
    requires forall i | 0 <= i < |trace| :: Possible(trace[i])
    requires LifecycleCompleted(result) in HandlerTrace(trace)
    ensures ReportedAt(trace, k, result)
  {
    var last := |trace| - 1;
    var before := trace[..last];
    if LifecycleCompleted(result) in HandlerTrace(before) {
      k := CompletionsAreReported(before, result);
      assert trace[..k] == before[..k] && trace[k] == before[k];
    } else {
      k := last;
      assert LifecycleCompleted(result) in SeenByHandler(Run(before).system, trace[last]);
      assert Possible(trace[last]);
      hide F.Poll;
    }
  }

  /** When step `k` polled the target, the whole subtree of the navigated frame was loaded for the navigation that its
    * frame manager had queued under this id. */
  ghost predicate LoadedAt(trace: seq<Event>, k: nat, id: NavigationId) {
    && k < |trace| && Run(trace[..k]).Running? && trace[k].Polled? && trace[k].target in Run(trace[..k]).system.frames
    && LoadedIn(Run(trace[..k]).system.frames[trace[k].target], FrameTrace(trace[..k], trace[k].target), id)
  }

  ghost predicate LoadedIn(m: F.Manager, seen: seq<F.Event>, id: NavigationId) {
    exists i: nat, w: NavigationWatcher :: Q.QueuedAt(seen, i, w) && w.id == id && Q.LoadedSince(m, seen, i, w)
  }

  // ---------- Which request a navigation id belongs to ----------

  /** Step `a` is the request for the navigation with this id. */
  ghost predicate AsksAt(trace: seq<Event>, a: nat, id: NavigationId) {
    && a < |trace| && Run(trace[..a]).Running? && trace[a].Asked? && trace[a].target in Run(trace[..a]).system.frames
    && Run(trace[..a]).system.handler.nextNavigation == id.raw
  }

  /** How many navigations were asked for. */
  ghost function Asks(trace: seq<Event>): nat {
    if trace == [] then 0
    else
      var before, e := trace[..|trace| - 1], trace[|trace| - 1];
      Asks(before) +
      if Run(before).Running? && e.Asked? && e.target in Run(before).system.frames then 1 else 0
  }

  lemma {:induction false} AnnouncingKeepsNavigationIds(s: Handler, ids: seq<TargetId>)
    ensures AnnounceTargets(s, ids).nextNavigation == s.nextNavigation
    decreases |ids|
  {
    if ids != [] {
      var s1 := OnTargetCreated(s, ids[0]);
      AnnouncingKeepsNavigationIds(s1.(nextCall := Wrap(s1.nextCall)), ids[1..]);
    }
  }

  lemma OthersKeepNavigationIds(s: Handler, e: HandlerSpec.Event)
    requires !e.NavigationAsked? && HandlerSpec.Step(s, e).Alive?
    ensures HandlerSpec.Step(s, e).handler.nextNavigation == s.nextNavigation
  {
    hide Evict, AnnounceTargets, AskNavigation;
    match e
    case Evicted(calls, _, _) => HR.EvictOnlyRemoves(s, calls);
    case ResponseArrived(response) =>
      if response.payload.TargetList? {
        AnnouncingKeepsNavigationIds(s.(pending := s.pending - {response.id}), response.payload.targets);
      }
    case _ =>
  }

  /** Navigation ids count the requests, up to the width of a machine word. */
  lemma {:induction false} NavigationIdsCount(trace: seq<Event>)
    requires Run(trace).Running? && forall j | 0 <= j < |trace| :: Possible(trace[j])
    ensures Run(trace).system.handler.nextNavigation == Asks(trace) % USIZE
  {
    if trace != [] {
      var before, e := trace[..|trace| - 1], trace[|trace| - 1];
      NavigationIdsCount(before);
      var s := Run(before).system;
      assert Possible(e);
      HandlerSees(s, e);
      hide Step, HandlerSpec.Step, F.Poll, Run;
      var seen := SeenByHandler(s, e);
      if e.Asked? && e.target in s.frames {
        AskingTakesAnId(s.handler, e.tx);
        WrapCounts(Asks(before));
      } else if seen != [] {
        OthersKeepNavigationIds(s.handler, seen[0]);
      }
    }
  }

  lemma AskingTakesAnId(s: Handler, tx: Ticket)
    ensures HandlerSpec.Step(s, NavigationAsked(tx)).Alive?
    ensures HandlerSpec.Step(s, NavigationAsked(tx)).handler.nextNavigation == Wrap(s.nextNavigation)
  {
  }

  lemma AsksOneMore(trace: seq<Event>, k: nat)
    requires k < |trace|
    ensures Asks(trace[..k + 1]) == Asks(trace[..k]) +
              if Run(trace[..k]).Running? && trace[k].Asked? && trace[k].target in Run(trace[..k]).system.frames then 1 else 0
  {
    hide Run;
    assert trace[..k + 1][..k] == trace[..k];
  }

  lemma {:induction false} AsksGrow(trace: seq<Event>, a: nat, b: nat)
    requires a <= b <= |trace|
    ensures Asks(trace[..a]) <= Asks(trace[..b])
    decreases b - a
  {
    hide Run, Asks;
    if a < b {
      AsksGrow(trace, a, b - 1);
      AsksOneMore(trace, b - 1);
    }
  }

  /** Until ids wrap, the id of a request is the number of requests before it. */
  lemma AskCounts(trace: seq<Event>, a: nat, id: NavigationId)
    requires (forall j | 0 <= j < |trace| :: Possible(trace[j])) && AsksAt(trace, a, id) && Asks(trace) <= USIZE
    ensures id.raw == Asks(trace[..a]) && Asks(trace[..a + 1]) == Asks(trace[..a]) + 1
  {
    hide Run, Asks;
    assert forall j | 0 <= j < a :: Possible(trace[..a][j]);
    NavigationIdsCount(trace[..a]);
    AsksOneMore(trace, a);
    AsksGrow(trace, a + 1, |trace|);
    assert trace[..|trace|] == trace;
  }

  /** Until ids wrap, an id belongs to one request. */
  lemma RequestIsUnique(trace: seq<Event>, a: nat, b: nat, id: NavigationId)
    requires forall j | 0 <= j < |trace| :: Possible(trace[j])
    requires AsksAt(trace, a, id) && AsksAt(trace, b, id) && a <= b && Asks(trace) <= USIZE
    ensures a == b
  {
    AskCounts(trace, a, id);
    AskCounts(trace, b, id);
    assert b < |trace|;
    hide Run, Asks, AsksAt;
    if a < b {
      AsksGrow(trace, a + 1, b);
    }
  }

  /** A request that the handler saw was made by a page. */
  lemma {:induction false} HandlerAskOrigin(trace: seq<Event>, id: NavigationId, tx: Ticket) returns (a: nat)
    requires Run(trace).Running? && forall j | 0 <= j < |trace| :: Possible(trace[j])
    requires HR.AskedFor(HandlerTrace(trace), id, tx)
    ensures AsksAt(trace, a, id) && trace[a].tx == tx
  {
    var last := |trace| - 1;
    var before := trace[..last];
    var i :| 0 <= i < |HandlerTrace(trace)| && HR.Asks(HandlerTrace(trace), i, id, tx);
    if i < |HandlerTrace(before)| {
      hide HandlerSpec.Run, Run, SeenByHandler;
      assert HandlerTrace(trace)[..i] == HandlerTrace(before)[..i];
      assert HR.Asks(HandlerTrace(before), i, id, tx);
      assert forall j | 0 <= j < last :: Possible(before[j]);
      RunningBefore(trace);
      a := HandlerAskOrigin(before, id, tx);
      assert trace[..a] == before[..a] && trace[a] == before[a];
    } else {
      a := last;
      LastAskOrigin(trace, i, id, tx);
    }
  }

  lemma RunningBefore(trace: seq<Event>)
    requires trace != [] && Run(trace).Running?
    ensures Run(trace[..|trace| - 1]).Running?
  {
    hide Step;
  }

  lemma LastAskOrigin(trace: seq<Event>, i: nat, id: NavigationId, tx: Ticket)
    requires trace != [] && Run(trace).Running? && Possible(trace[|trace| - 1])
    requires |HandlerTrace(trace[..|trace| - 1])| <= i < |HandlerTrace(trace)| && HR.Asks(HandlerTrace(trace), i, id, tx)
    ensures AsksAt(trace, |trace| - 1, id) && trace[|trace| - 1].tx == tx
  {
    var before, e := trace[..|trace| - 1], trace[|trace| - 1];
    RunningBefore(trace);
    HandlerRunsAlone(before);
    hide HandlerSpec.Run, Run, SeenByHandler;
    var known, seen := HandlerTrace(before), SeenByHandler(Run(before).system, e);
    assert HandlerTrace(trace) == known + seen;
    SeenIsShort(Run(before).system, e);
    assert i == |known| && seen[0] == HandlerTrace(trace)[i] == NavigationAsked(tx);
    SeenAsking(Run(before).system, e, tx);
    assert HandlerTrace(trace)[..i] == known;
  }

  lemma SeenIsShort(s: System, e: Event)
    requires Shaped(s)
    ensures |SeenByHandler(s, e)| <= 1
  {
    hide F.Poll;
  }

  lemma SeenAsking(s: System, e: Event, tx: Ticket)
    requires Shaped(s) && Possible(e) && SeenByHandler(s, e) != [] && SeenByHandler(s, e)[0] == NavigationAsked(tx)
    ensures e.Asked? && e.tx == tx && e.target in s.frames
  {
    hide F.Poll;
  }

  /** A navigation that a frame manager queued was asked for at its own target. */
  lemma {:induction false} FrameAskOrigin(trace: seq<Event>, t: TargetId, e: F.Event, id: NavigationId) returns (a: nat)
    requires Run(trace).Running? && forall j | 0 <= j < |trace| :: Possible(trace[j])
    requires e in FrameTrace(trace, t) && (e.GotoRequested? || e.FrameNavigationRequested?) && e.req.id == id
    ensures AsksAt(trace, a, id) && trace[a].target == t
  {
    var last := |trace| - 1;
    var before := trace[..last];
    var s := Run(before).system;
    assert Possible(trace[last]);
    hide F.Poll, Step;
    if e in FrameTrace(before, t) {
      a := FrameAskOrigin(before, t, e, id);
      assert trace[..a] == before[..a] && trace[a] == before[a];
    } else {
      a := last;
      assert e in SeenByFrames(s, trace[last], t);
    }
  }

  /** In every run of the whole system, no one is answered twice, whatever the answer. */
  lemma NobodyIsAnsweredTwice(trace: seq<Event>)
    requires Run(trace).Running? && FreshSenders(HandlerTrace(trace))
    ensures var answered := Run(trace).system.handler.answered;
            forall i, j | 0 <= i < j < |answered| :: answered[i].ticket != answered[j].ticket
  {
    hide Run, HandlerTrace, FreshSenders;
    HandlerRunsAlone(trace);
    HS.SendersAreConserved(HandlerTrace(trace));
  }

  /** In every run of the whole system, until navigation ids wrap, a page that asks for a navigation gets a response only
    * if that is the response to the navigation's own call and, at some poll, the frame manager of the target that was
    * asked had the whole subtree of the navigated frame loaded for that navigation. It gets no other answer. */
  lemma NavigationsAreAnsweredWhenLoaded(trace: seq<Event>, tx: Ticket, i: nat)
    requires Run(trace).Running? && (forall j | 0 <= j < |trace| :: Possible(trace[j])) && Asks(trace) <= USIZE
    requires FreshSenders(HandlerTrace(trace)) && NavigationAsked(tx) in HandlerTrace(trace)
    requires var answered := Run(trace).system.handler.answered;
             i < |answered| && answered[i].ticket == tx && answered[i].reply.RespondedWith?
    ensures var answered := Run(trace).system.handler.answered;
            && (forall j | 0 <= j < |answered| && j != i :: answered[j].ticket != tx)
            && exists a: nat, k: nat, id ::
                 && AsksAt(trace, a, id) && trace[a].tx == tx
                 && HR.RespondedFor(HandlerTrace(trace), id, answered[i].reply.response)
                 && LoadedAt(trace, k, id) && trace[k].target == trace[a].target
  {
    hide Run, HandlerTrace, FreshSenders, HandlerSpec.Run, HR.AskedFor, HR.RespondedFor, LoadedAt, AsksAt, ReportedAt;
    var seen := HandlerTrace(trace);
    HandlerRunsAlone(trace);
    HR.NavigationAnsweredOnlyWhenBothHalvesArrived(seen, tx, i);
    var response := Run(trace).system.handler.answered[i].reply.response;
    var id: NavigationId :| HR.AskedFor(seen, id, tx) && HR.RespondedFor(seen, id, response) && HR.CompletedFor(seen, id);
    var ok: NavigationOk :| ok.id == id && LifecycleCompleted(Ok(ok)) in seen;
    var k := CompletionsAreReported(trace, Ok(ok));
    ReportsAreLoaded(trace, k, ok);
    var a := HandlerAskOrigin(trace, id, tx);
    SameTarget(trace, a, k, id);
  }

  /** A navigation that was loaded was asked for at the target that loaded it. */
  lemma LoadedWasAsked(trace: seq<Event>, k: nat, id: NavigationId) returns (b: nat)
    requires (forall j | 0 <= j < |trace| :: Possible(trace[j])) && LoadedAt(trace, k, id)
    ensures AsksAt(trace, b, id) && trace[b].target == trace[k].target
  {
    hide Run, FrameTrace, Q.LoadedSince;
    var before, t := trace[..k], trace[k].target;
    var seen := FrameTrace(before, t);
    var i: nat, w: NavigationWatcher :|
      Q.QueuedAt(seen, i, w) && w.id == id && Q.LoadedSince(Run(before).system.frames[t], seen, i, w);
    assert forall j | 0 <= j < k :: Possible(before[j]);
    b := FrameAskOrigin(before, t, seen[i], id);
    assert before[..b] == trace[..b] && before[b] == trace[b];
  }

  lemma SameTarget(trace: seq<Event>, a: nat, k: nat, id: NavigationId)
    requires (forall j | 0 <= j < |trace| :: Possible(trace[j])) && Asks(trace) <= USIZE
    requires AsksAt(trace, a, id) && LoadedAt(trace, k, id)
    ensures trace[k].target == trace[a].target
  {
    hide Run, Asks, LoadedIn;
    var b := LoadedWasAsked(trace, k, id);
    if a <= b {
      RequestIsUnique(trace, a, b, id);
    } else {
      RequestIsUnique(trace, b, a, id);
    }
  }

  lemma ReportsAreLoaded(trace: seq<Event>, k: nat, ok: NavigationOk)
    requires ReportedAt(trace, k, Ok(ok))
    ensures LoadedAt(trace, k, ok.id)
  {
    var t := trace[k].target;
    FramesRunAlone(trace[..k], t);
    hide Run, FrameTrace, F.Poll, Q.QueuedAt, FR.Run, Q.LoadedSince;
    Q.SuccessMeansLoaded(FrameTrace(trace[..k], t), trace[k].now, trace[k].clock, ok);
  }
}
