/** What a target passes on, computed from what its managers and its pages put out (src/handler/target.rs:420-562). */
module TargetHistory {
  import opened Options
  import opened Sequences
  import opened Identifiers
  import opened Http
  import opened Navigation
  import opened TargetSpec
  import F = FrameManagerSpec
  import FR = FrameRuns
  import N = NetworkSpec
  import Q = FrameQueue
  import R = TargetRuns
  import NH = NetworkHistory
  import T = FrameTable

  type Event = TargetSpec.Event

  // ---------- What each source puts out in a round ----------

  /** The commands among the messages, in order. */
  function PageCommands(msgs: seq<PageMessage>): seq<TargetEvent> {
    if msgs == [] then []
    else PageCommands(Front(msgs)) + match Last(msgs) case CommandSent(tx) => [PageCommand(tx)] case _ => []
  }

  /** The credentials among the messages, as the network manager is told of them. */
  function Logins(msgs: seq<PageMessage>): seq<N.Event> {
    if msgs == [] then []
    else Logins(Front(msgs)) + match Last(msgs) case CredentialsSet(c) => [N.Authenticated(c)] case _ => []
  }

  function RequestFor(ev: N.NetworkEvent, session: Option<string>): seq<TargetEvent> {
    match ev case SendCdpRequest(command) => [NetworkRequest(command, session)] case _ => []
  }

  /** The commands that the network manager has queued, each for the session of the target. */
  function RequestsFor(queue: seq<N.NetworkEvent>, session: Option<string>): seq<TargetEvent> {
    if queue == [] then [] else RequestsFor(Front(queue), session) + RequestFor(Last(queue), session)
  }

  function EndedBy(ev: N.NetworkEvent): seq<F.Event> {
    match ev
    case RequestFailed(request) => [F.HttpFinished(request)]
    case RequestFinished(request) => [F.HttpFinished(request)]
    case _ => []
  }

  /** The requests that the network manager reports as ended, as the frame manager is told of them. */
  function Ended(queue: seq<N.NetworkEvent>): seq<F.Event> {
    if queue == [] then [] else Ended(Front(queue)) + EndedBy(Last(queue))
  }

  /** The frame manager's events until it has none, with the polls that they come from. */
  ghost function FramePolls(m: F.Manager, now: nat, clocks: nat -> nat, k: nat): seq<F.Event>
    requires F.WellShaped(m)
    decreases Q.Backlog(m)
  {
    var p := F.Poll(m, now, clocks(k));
    Q.PollDrains(m, now, clocks(k));
    F.StepKeepsShape(m, F.PollRequested(now, clocks(k)));
    [F.PollRequested(now, clocks(k))] + if p.event.None? then [] else FramePolls(p.manager, now, clocks, k + 1)
  }

  ghost function FrameOutputs(m: F.Manager, now: nat, clocks: nat -> nat, k: nat): seq<FrameEvent>
    requires F.WellShaped(m)
    decreases Q.Backlog(m)
  {
    var p := F.Poll(m, now, clocks(k));
    Q.PollDrains(m, now, clocks(k));
    F.StepKeepsShape(m, F.PollRequested(now, clocks(k)));
    if p.event.None? then [] else [p.event.value] + FrameOutputs(p.manager, now, clocks, k + 1)
  }

  /** Navigations to send, and results of navigations. */
  function Navigations(events: seq<FrameEvent>): seq<TargetEvent> {
    seq(|events|, i requires 0 <= i < |events| =>
      match events[i] case RequestEvent(id, req) => NavigationRequested(id, req) case ResultEvent(r) => NavigationDone(r))
  }

  // ---------- The managers during a round ----------

  /** The network manager after these events. */
  function NetworkAfter(n: N.Network, events: seq<N.Event>): N.Network {
    if events == [] then n else N.Step(NetworkAfter(n, Front(events)), Last(events))
  }

  lemma NetworkOneMore(n: N.Network, events: seq<N.Event>, e: N.Event)
    ensures NetworkAfter(n, events + [e]) == N.Step(NetworkAfter(n, events), e)
  {
    assert Front(events + [e]) == events;
  }

  lemma {:induction false} MessagesDo(s: Target, msgs: seq<PageMessage>)
    ensures var t := OnMessages(s, msgs);
            && t.queue == s.queue + PageCommands(msgs)
            && t.network == NetworkAfter(s.network, Logins(msgs))
            && t.frames == s.frames && t.session == s.session && t.hasPage == s.hasPage
  {
    if msgs == [] {
      assert s.queue + [] == s.queue;
    } else {
      MessagesDo(s, Front(msgs));
      MessageDoes(OnMessages(s, Front(msgs)), Last(msgs));
      assert Logins(Front(msgs)) + [] == Logins(Front(msgs));
      if Last(msgs).CredentialsSet? {
        NetworkOneMore(s.network, Logins(Front(msgs)), N.Authenticated(Last(msgs).credentials));
      }
      hide OnMessage, N.Step, NetworkAfter;
      assert s.queue + PageCommands(msgs) == s.queue + PageCommands(Front(msgs)) +
        match Last(msgs) case CommandSent(tx) => [PageCommand(tx)] case _ => [];
    }
  }

  lemma MessageDoes(s: Target, msg: PageMessage)
    ensures var t := OnMessage(s, msg);
            && t.queue == s.queue + (match msg case CommandSent(tx) => [PageCommand(tx)] case _ => [])
            && t.network == (match msg case CredentialsSet(c) => N.Step(s.network, N.Authenticated(c)) case _ => s.network)
            && t.frames == s.frames && t.session == s.session && t.hasPage == s.hasPage
  {
    assert s.queue + [] == s.queue;
    hide N.UpdateInterception;
  }

  /** The frame manager after these events, none of which can fail. */
  ghost function FramesAfter(m: F.Manager, events: seq<F.Event>): (r: F.Manager)
    requires F.WellShaped(m)
    ensures F.WellShaped(r)
  {
    if events == [] then m
    else
      var m1 := FramesAfter(m, Front(events));
      F.StepKeepsShape(m1, Last(events));
      match F.Step(m1, Last(events)) case Alive(m') => m' case Panicked => m1
  }

  lemma FirstCommand(queue: seq<N.NetworkEvent>, session: Option<string>)
    requires queue != []
    ensures RequestsFor(queue, session) == RequestFor(queue[0], session) + RequestsFor(queue[1..], session)
    ensures Ended(queue) == EndedBy(queue[0]) + Ended(queue[1..])
  {
    FirstRequest(queue, session);
    FirstEnded(queue);
  }

  lemma FrontOfRest<T>(s: seq<T>)
    requires |s| > 1
    ensures Front(s)[1..] == Front(s[1..]) && Last(s) == Last(s[1..]) && Front(s)[0] == s[0]
  {
  }

  lemma {:induction false} FirstRequest(queue: seq<N.NetworkEvent>, session: Option<string>)
    requires queue != []
    ensures RequestsFor(queue, session) == RequestFor(queue[0], session) + RequestsFor(queue[1..], session)
    decreases |queue|
  {
    hide RequestFor;
    if |queue| == 1 {
      assert queue[1..] == [] && Front(queue) == [];
    } else {
      FrontOfRest(queue);
      FirstRequest(Front(queue), session);
      Associates(RequestFor(queue[0], session), RequestsFor(Front(queue[1..]), session), RequestFor(Last(queue), session));
    }
  }

  lemma {:induction false} FirstEnded(queue: seq<N.NetworkEvent>)
    requires queue != []
    ensures Ended(queue) == EndedBy(queue[0]) + Ended(queue[1..])
    decreases |queue|
  {
    hide EndedBy;
    if |queue| == 1 {
      assert queue[1..] == [] && Front(queue) == [];
    } else {
      FrontOfRest(queue);
      FirstEnded(Front(queue));
      Associates(EndedBy(queue[0]), Ended(Front(queue[1..])), EndedBy(Last(queue)));
    }
  }

  lemma OneEvent(ev: N.NetworkEvent, session: Option<string>)
    ensures RequestsFor([ev], session) == RequestFor(ev, session) && Ended([ev]) == EndedBy(ev)
  {
    assert Front([ev]) == [];
    assert [] + RequestFor(ev, session) == RequestFor(ev, session) && [] + EndedBy(ev) == EndedBy(ev);
  }

  lemma {:induction false} FramesOnMore(m: F.Manager, a: seq<F.Event>, b: seq<F.Event>)
    requires F.WellShaped(m)
    ensures FramesAfter(m, a + b) == FramesAfter(FramesAfter(m, a), b)
    decreases |b|
  {
    if b == [] {
      assert a + b == a;
    } else {
      assert Front(a + b) == a + Front(b) && Last(a + b) == Last(b);
      FramesOnMore(m, a, Front(b));
      hide F.Step, F.WellShaped;
    }
  }

  /** The commands of these events are queued, and the frames know of their requests. */
  ghost predicate Drained(s: Target, t: Target, events: seq<N.NetworkEvent>)
    requires F.WellShaped(s.frames)
  {
    && t.queue == s.queue + RequestsFor(events, s.session)
    && t.frames == FramesAfter(s.frames, Ended(events)) && t.session == s.session
  }

  lemma DrainFirst(s: Target)
    requires F.WellShaped(s.frames) && s.network.queue != []
    ensures var s1 := s.(network := s.network.(queue := s.network.queue[1..]));
            && F.WellShaped(OnNetworkEvent(s1, s.network.queue[0]).frames)
            && DrainNetwork(s) == DrainNetwork(OnNetworkEvent(s1, s.network.queue[0]))
  {
    var s1 := s.(network := N.Step(s.network, N.Polled));
    NetworkEventKeepsShape(s1, s.network.queue[0]);
    PolledNetwork(s.network);
    hide OnNetworkEvent, N.Step, F.WellShaped;
  }

  lemma PolledNetwork(n: N.Network)
    requires n.queue != []
    ensures N.Step(n, N.Polled) == n.(queue := n.queue[1..])
  {
  }

  lemma DrainedMore(s: Target, s1: Target, t: Target, events: seq<N.NetworkEvent>)
    requires F.WellShaped(s.frames) && events != [] && F.WellShaped(s1.frames)
    requires Drained(s, s1, [events[0]]) && Drained(s1, t, events[1..])
    ensures Drained(s, t, events)
  {
    var first, rest := events[0], events[1..];
    FirstCommand(events, s.session);
    OneEvent(first, s.session);
    FramesOnMore(s.frames, EndedBy(first), Ended(rest));
    hide RequestsFor, RequestFor, Ended, EndedBy, FramesAfter, F.WellShaped;
    Associates(s.queue, RequestFor(first, s.session), RequestsFor(rest, s.session));
  }

  lemma NothingDrained(s: Target)
    requires F.WellShaped(s.frames) && s.network.queue == []
    ensures DrainNetwork(s) == s && Drained(s, s, []) && s.network.(queue := []) == s.network
  {
    assert s.queue + [] == s.queue;
  }

  lemma {:induction false} NetworkDrains(s: Target)
    requires F.WellShaped(s.frames)
    ensures Drained(s, DrainNetwork(s), s.network.queue)
    ensures DrainNetwork(s).network == s.network.(queue := [])
    decreases |s.network.queue|
  {
    hide DrainNetwork, Drained, OnNetworkEvent, F.WellShaped;
    var q := s.network.queue;
    if q == [] {
      NothingDrained(s);
    } else {
      var s1 := s.(network := s.network.(queue := q[1..]));
      var s2 := OnNetworkEvent(s1, q[0]);
      DrainFirst(s);
      OneDrained(s1, q[0]);
      NetworkDrains(s2);
      SameDrained(s, s1, s2, [q[0]]);
      DrainedMore(s, s2, DrainNetwork(s2), q);
    }
  }

  lemma SameDrained(s: Target, s1: Target, t: Target, events: seq<N.NetworkEvent>)
    requires F.WellShaped(s.frames) && s1 == s.(network := s1.network) && Drained(s1, t, events)
    ensures Drained(s, t, events)
  {
  }

  lemma OneDrained(s: Target, ev: N.NetworkEvent)
    requires F.WellShaped(s.frames)
    ensures Drained(s, OnNetworkEvent(s, ev), [ev])
    ensures OnNetworkEvent(s, ev).network == s.network && F.WellShaped(OnNetworkEvent(s, ev).frames)
  {
    NetworkEventKeepsShape(s, ev);
    OneEvent(ev, s.session);
    hide RequestsFor, Ended;
    assert s.queue + [] == s.queue;
    if ev.RequestFailed? || ev.RequestFinished? {
      FinishedOnce(s.frames, F.HttpFinished(ev.request));
    }
  }

  lemma FinishedOnce(m: F.Manager, e: F.Event)
    requires F.WellShaped(m) && e.HttpFinished?
    ensures FramesAfter(m, [e]) == F.OnHttpRequestFinished(m, e.request)
  {
    assert Front([e]) == [];
    F.StepKeepsShape(m, e);
  }

  /** These events are queued, and the frame manager was polled for them. */
  ghost predicate Polled(s: Target, t: Target, polls: seq<F.Event>, events: seq<FrameEvent>)
    requires F.WellShaped(s.frames)
  {
    && t.queue == s.queue + Navigations(events) && t.frames == FramesAfter(s.frames, polls)
    && t.network == s.network && t.session == s.session
  }

  lemma PollMore(s: Target, poll: F.Event, ev: FrameEvent, t: Target, polls: seq<F.Event>, events: seq<FrameEvent>)
    requires F.WellShaped(s.frames) && poll.PollRequested? && F.WellShaped(F.Poll(s.frames, poll.now, poll.clock).manager)
    requires Polled(s.(frames := F.Poll(s.frames, poll.now, poll.clock).manager).Push(FromFrames(ev)), t, polls, events)
    ensures Polled(s, t, [poll] + polls, [ev] + events)
  {
    PolledOnce(s.frames, poll);
    FramesOnMore(s.frames, [poll], polls);
    hide F.Poll, FramesAfter;
    assert Navigations([ev] + events) == [FromFrames(ev)] + Navigations(events);
    assert s.queue + ([FromFrames(ev)] + Navigations(events)) == s.queue + [FromFrames(ev)] + Navigations(events);
  }

  lemma NothingPolled(s: Target, poll: F.Event)
    requires F.WellShaped(s.frames) && poll.PollRequested? && F.Poll(s.frames, poll.now, poll.clock).manager == s.frames
    ensures Polled(s, s, [poll], [])
  {
    PolledOnce(s.frames, poll);
    hide F.Poll;
    assert Navigations([]) == [] && s.queue + [] == s.queue;
  }

  lemma DrainFramesFirst(s: Target, now: nat, clocks: nat -> nat, k: nat)
    requires F.WellShaped(s.frames)
    ensures var p := F.Poll(s.frames, now, clocks(k));
            && F.WellShaped(p.manager)
            && DrainFrames(s, now, clocks, k) ==
                 (if p.event.None? then s
                  else DrainFrames(s.(frames := p.manager).Push(FromFrames(p.event.value)), now, clocks, k + 1))
            && (p.event.None? ==> p.manager == s.frames)
            && FrameOutputs(s.frames, now, clocks, k) ==
                 (if p.event.None? then [] else [p.event.value] + FrameOutputs(p.manager, now, clocks, k + 1))
            && FramePolls(s.frames, now, clocks, k) ==
                 [F.PollRequested(now, clocks(k))] +
                 (if p.event.None? then [] else FramePolls(p.manager, now, clocks, k + 1))
            && (p.event.Some? ==> Q.Backlog(p.manager) < Q.Backlog(s.frames))
  {
    Q.PollDrains(s.frames, now, clocks(k));
    F.PollKeepsFrames(s.frames, now, clocks(k));
    F.StepKeepsShape(s.frames, F.PollRequested(now, clocks(k)));
    hide F.Poll, Q.Backlog;
  }

  lemma ShapedIsForest(m: F.Manager)
    requires F.WellShaped(m)
    ensures T.Forest(m.frames)
  {
  }

  lemma {:induction false} FramesDrain(s: Target, now: nat, clocks: nat -> nat, k: nat)
    requires F.WellShaped(s.frames)
    ensures Polled(s, DrainFrames(s, now, clocks, k), FramePolls(s.frames, now, clocks, k),
                   FrameOutputs(s.frames, now, clocks, k))
    decreases Q.Backlog(s.frames)
  {
    hide DrainFrames, Polled, F.Poll, Q.Backlog, FramePolls, FrameOutputs, F.WellShaped;
    ShapedIsForest(s.frames);
    var p, poll := F.Poll(s.frames, now, clocks(k)), F.PollRequested(now, clocks(k));
    DrainFramesFirst(s, now, clocks, k);
    if p.event.None? {
      NothingPolled(s, poll);
      assert [poll] + [] == [poll];
    } else {
      var s1 := s.(frames := p.manager).Push(FromFrames(p.event.value));
      FramesDrain(s1, now, clocks, k + 1);
      PollMore(s, poll, p.event.value, DrainFrames(s1, now, clocks, k + 1),
               FramePolls(p.manager, now, clocks, k + 1), FrameOutputs(p.manager, now, clocks, k + 1));
    }
  }

  lemma PolledOnce(m: F.Manager, e: F.Event)
    requires F.WellShaped(m) && e.PollRequested?
    ensures FramesAfter(m, [e]) == F.Poll(m, e.now, e.clock).manager
  {
    assert Front([e]) == [];
    F.StepKeepsShape(m, e);
    hide F.Poll;
  }

  // ---------- What a round puts out ----------

  /** The network manager when it is drained: it was told of the credentials that were read. */
  function NetworkInRound(s: Target, msgs: seq<PageMessage>): N.Network {
    if s.hasPage then NetworkAfter(s.network, Logins(msgs)) else s.network
  }

  /** All that a round passes on: the commands of the page, then the network manager's, then the frame manager's. */
  ghost function RoundPuts(s: Target, now: nat, msgs: seq<PageMessage>, clocks: nat -> nat): seq<TargetEvent>
    requires F.WellShaped(s.frames)
  {
    var queue := NetworkInRound(s, msgs).queue;
    (if s.hasPage then PageCommands(msgs) else [])
    + RequestsFor(queue, s.session)
    + Navigations(FrameOutputs(FramesAfter(s.frames, Ended(queue)), now, clocks, 0))
  }

  /** All that the frame manager is told and asked in a round. */
  ghost function RoundFrames(s: Target, now: nat, msgs: seq<PageMessage>, clocks: nat -> nat): seq<F.Event>
    requires F.WellShaped(s.frames)
  {
    var ended := Ended(NetworkInRound(s, msgs).queue);
    ended + FramePolls(FramesAfter(s.frames, ended), now, clocks, 0)
  }

  lemma RoundDoes(s: Target, now: nat, msgs: seq<PageMessage>, clocks: nat -> nat)
    requires F.WellShaped(s.frames)
    ensures var t := Round(s, now, msgs, clocks);
            && t.queue == s.queue + RoundPuts(s, now, msgs, clocks)
            && t.frames == FramesAfter(s.frames, RoundFrames(s, now, msgs, clocks))
            && t.network == NetworkInRound(s, msgs).(queue := []) && t.session == s.session
  {
    MessagesDo(s, msgs);
    MessagesKeepFrames(s, msgs);
    hide OnMessages, RequestsFor, PageCommands, Ended, Navigations, FramePolls, FrameOutputs, DrainNetwork, DrainFrames,
      NetworkAfter, FramesAfter, F.WellShaped;
    var s1 := if s.hasPage then OnMessages(s, msgs) else s;
    NetworkDrains(s1);
    var s2 := DrainNetwork(s1);
    FramesDrain(s2, now, clocks, 0);
    var ended := Ended(s1.network.queue);
    FramesOnMore(s.frames, ended, FramePolls(s2.frames, now, clocks, 0));
    var page := if s.hasPage then PageCommands(msgs) else [];
    assert s1.queue == s.queue + page;
    assert s.queue + (page + RequestsFor(s1.network.queue, s.session)
                      + Navigations(FrameOutputs(s2.frames, now, clocks, 0)))
        == s.queue + page + RequestsFor(s1.network.queue, s.session)
           + Navigations(FrameOutputs(s2.frames, now, clocks, 0));
  }

  // ---------- First in, first out ----------

  /** After the initialisation part of a poll, a round follows: nothing is queued. */
  ghost predicate HasRound(s: Target, e: Event) {
    e.PollRequested? && var a := Advance(s, e.now, e.order); a.move.Proceed? && a.target.queue == []
  }

  /** What a step queues. */
  ghost function Queues(s: Target, e: Event): seq<TargetEvent>
    requires F.WellShaped(s.frames)
  {
    match e
    case AttachedToTarget(child, waiting, serviceWorker) =>
      (if waiting then [RunIfWaitingForDebugger(child)] else []) +
      (if serviceWorker then [DetachFromTarget(child, s.session)] else [])
    case PollRequested(now, order, msgs, clocks) =>
      AdvanceKeeps(s, now, order);
      if HasRound(s, e) then RoundPuts(Advance(s, now, order).target, now, msgs, clocks) else []
    case _ => []
  }

  lemma AdvanceKeeps(s: Target, now: nat, order: seq<FrameId>)
    requires F.WellShaped(s.frames)
    ensures var t := Advance(s, now, order).target;
            F.WellShaped(t.frames) && t.queue == s.queue && t.network == s.network && t.session == s.session
  {
    hide Advance;
    AdvanceKeepsFrames(s, now, order);
    AdvanceKeepsQueue(s, now, order);
  }

  lemma {:induction false} AdvanceKeepsQueue(s: Target, now: nat, order: seq<FrameId>)
    ensures var t := Advance(s, now, order).target; t.queue == s.queue && t.network == s.network
    decreases Rank(s.init), WorldMissing(s)
  {
    if s.init.HasChain() {
      R.NextStageDescends(s, order);
      NextStageKeepsQueue(s, order);
      hide NextStage, OnInitializationFailed;
      AdvanceKeepsQueue(NextStage(s, order), now, order);
    }
    FailingKeepsQueue(s);
  }

  lemma NextStageKeepsQueue(s: Target, order: seq<FrameId>)
    requires s.init.HasChain()
    ensures NextStage(s, order).queue == s.queue && NextStage(s, order).network == s.network
  {
  }

  lemma FailingKeepsQueue(s: Target)
    ensures OnInitializationFailed(s).queue == s.queue && OnInitializationFailed(s).network == s.network
  {
  }

  /** What a step passes on, other than a command of the initialisation. */
  ghost function Passes(s: Target, e: Event): seq<TargetEvent>
    requires F.WellShaped(s.frames)
  {
    match e
    case PollRequested(now, order, msgs, clocks) =>
      var event := TargetSpec.Poll(s, now, order, msgs, clocks).event;
      if Advance(s, now, order).move.Proceed? && event.Some? then [event.value] else []
    case _ => []
  }

  ghost function Queued(isPage: bool, config: Config, trace: seq<Event>): seq<TargetEvent> {
    if trace == [] then []
    else
      var before := Front(trace);
      Queued(isPage, config, before) +
      if R.Run(isPage, config, before).Alive? then Queues(R.Run(isPage, config, before).target, Last(trace)) else []
  }

  ghost function Passed(isPage: bool, config: Config, trace: seq<Event>): seq<TargetEvent> {
    if trace == [] then []
    else
      var before := Front(trace);
      Passed(isPage, config, before) +
      if R.Run(isPage, config, before).Alive? then Passes(R.Run(isPage, config, before).target, Last(trace)) else []
  }

  lemma DrainDoes(s: Target, now: nat, msgs: seq<PageMessage>, clocks: nat -> nat)
    requires F.WellShaped(s.frames)
    ensures var o := Drain(s, now, msgs, clocks);
            var passed := if o.event.Some? then [o.event.value] else [];
            && passed + o.target.queue == s.queue + (if s.queue == [] then RoundPuts(s, now, msgs, clocks) else [])
            && o.target.session == s.session
            && (if s.queue == [] then
                  && o.target.frames == FramesAfter(s.frames, RoundFrames(s, now, msgs, clocks))
                  && o.target.network == NetworkInRound(s, msgs).(queue := [])
                else o.target.frames == s.frames && o.target.network == s.network)
  {
    hide RoundPuts, RoundFrames, NetworkInRound, FramesAfter, F.WellShaped, Round;
    NotifyKeepsFrames(s);
    NotifyDoes(s);
    var s1 := NotifyWaiters(s);
    if s1.queue == [] {
      RoundDoes(s1, now, msgs, clocks);
      SameRound(s, s1, now, msgs, clocks);
      var s2 := Round(s1, now, msgs, clocks);
      NotifyKeepsFrames(s2);
      NotifyDoes(s2);
      assert [] + RoundPuts(s, now, msgs, clocks) == RoundPuts(s, now, msgs, clocks);
      if s2.queue != [] {
        assert [s2.queue[0]] + s2.queue[1..] == s2.queue;
      }
    } else {
      assert [s.queue[0]] + s.queue[1..] == s.queue == s.queue + [];
    }
  }

  lemma {:induction false} NotifyDoes(s: Target)
    ensures var t := NotifyWaiters(s);
            t.network == s.network && t.session == s.session && t.hasPage == s.hasPage && t.queue == s.queue && t.frames == s.frames
    decreases |s.waiters|
  {
    if s.LoadedMainFrame().Some? && s.waiters != [] {
      var last := |s.waiters| - 1;
      NotifyDoes(s.(waiters := s.waiters[..last]).Reply(Loaded(s.waiters[last], s.LoadedMainFrame().value)));
    }
  }

  lemma SameRound(s: Target, t: Target, now: nat, msgs: seq<PageMessage>, clocks: nat -> nat)
    requires F.WellShaped(s.frames) && t.frames == s.frames && t.network == s.network
    requires t.session == s.session && t.hasPage == s.hasPage
    ensures RoundPuts(t, now, msgs, clocks) == RoundPuts(s, now, msgs, clocks)
    ensures RoundFrames(t, now, msgs, clocks) == RoundFrames(s, now, msgs, clocks)
    ensures NetworkInRound(t, msgs) == NetworkInRound(s, msgs)
  {
  }

  lemma PollDoes(s: Target, e: Event)
    requires F.WellShaped(s.frames) && e.PollRequested?
    ensures var t := TargetSpec.Poll(s, e.now, e.order, e.msgs, e.clocks).target;
            && Passes(s, e) + t.queue == s.queue + Queues(s, e) && t.session == s.session
  {
    hide Advance, Drain, RoundPuts, F.WellShaped, R.Run;
    AdvanceKeepsFrames(s, e.now, e.order);
    AdvanceKeeps(s, e.now, e.order);
    var a := Advance(s, e.now, e.order);
    if a.move.Proceed? {
      DrainDoes(a.target, e.now, e.msgs, e.clocks);
    } else {
      assert [] + s.queue == s.queue == s.queue + [];
    }
  }

  lemma StepDoes(s: Target, e: Event)
    requires F.WellShaped(s.frames) && TargetSpec.Step(s, e).Alive?
    ensures var t := TargetSpec.Step(s, e).target;
            && Passes(s, e) + t.queue == s.queue + Queues(s, e)
            && t.session == if e.SessionSet? then e.session else s.session
  {
    if e.PollRequested? {
      hide Queues, Passes, TargetSpec.Poll;
      PollDoes(s, e);
    } else {
      hide F.Step, F.OnFrameTree, N.Step, F.WellShaped;
      assert [] + s.queue == s.queue == s.queue + [];
      if e.AttachedToTarget? {
        AttachedDoes(s, e);
      }
    }
  }

  lemma AttachedDoes(s: Target, e: Event)
    requires F.WellShaped(s.frames) && e.AttachedToTarget?
    ensures OnAttachedToTarget(s, e.child, e.waitingForDebugger, e.serviceWorker).queue == s.queue + Queues(s, e)
  {
    hide F.WellShaped;
    var first := if e.waitingForDebugger then [RunIfWaitingForDebugger(e.child)] else [];
    var second := if e.serviceWorker then [DetachFromTarget(e.child, s.session)] else [];
    assert s.queue + (first + second) == s.queue + first + second;
    assert s.queue + [] == s.queue;
  }

  lemma RunBefore(isPage: bool, config: Config, trace: seq<Event>)
    requires trace != [] && R.Run(isPage, config, trace).Alive?
    ensures R.Run(isPage, config, Front(trace)).Alive?
    ensures R.Run(isPage, config, trace) == TargetSpec.Step(R.Run(isPage, config, Front(trace)).target, Last(trace))
  {
    hide TargetSpec.Step;
  }

  /** In every run, what was passed on, followed by what is queued, is all that was ever queued, in order. */
  lemma {:induction false} FirstInFirstOut(isPage: bool, config: Config, trace: seq<Event>)
    requires R.Run(isPage, config, trace).Alive?
    ensures Passed(isPage, config, trace) + R.Run(isPage, config, trace).target.queue == Queued(isPage, config, trace)
  {
    if trace == [] {
      assert R.Run(isPage, config, []).target.queue == [];
    } else {
      var before, e := Front(trace), Last(trace);
      RunBefore(isPage, config, trace);
      FirstInFirstOut(isPage, config, before);
      hide R.Run, TargetSpec.Step, Queues, Passes, F.WellShaped;
      var s := R.Run(isPage, config, before).target;
      StepDoes(s, e);
      Appends(Passed(isPage, config, before), s.queue, Passes(s, e), TargetSpec.Step(s, e).target.queue, Queues(s, e));
    }
  }

  lemma Appends<T>(passed: seq<T>, queue: seq<T>, more: seq<T>, rest: seq<T>, added: seq<T>)
    requires more + rest == queue + added
    ensures passed + more + rest == passed + queue + added
  {
    assert passed + more + rest == passed + (more + rest);
    assert passed + queue + added == passed + (queue + added);
  }

  /** The session that the target was given last. */
  function SessionIn(trace: seq<Event>): Option<string> {
    if trace == [] then None else if Last(trace).SessionSet? then Last(trace).session else SessionIn(Front(trace))
  }

  lemma {:induction false} SessionInEveryRun(isPage: bool, config: Config, trace: seq<Event>)
    requires R.Run(isPage, config, trace).Alive?
    ensures R.Run(isPage, config, trace).target.session == SessionIn(trace)
  {
    if trace == [] {
      assert R.Run(isPage, config, []).target.session == None;
    } else {
      RunBefore(isPage, config, trace);
      SessionInEveryRun(isPage, config, Front(trace));
      hide R.Run, TargetSpec.Step, Queues, Passes, F.WellShaped;
      StepDoes(R.Run(isPage, config, Front(trace)).target, Last(trace));
    }
  }

  // ---------- Who asked for the page, and what those who wait are told ----------

  /** The answer to who asked for the page, if it is the one in `replies` from `n` on. */
  predicate AnswersAsker(replies: seq<Reply>, n: nat, tx: Ticket) {
    exists i :: n <= i < |replies| && (replies[i] == PageGiven(tx) || replies[i] == InitTimedOut(tx))
  }

  /** Every reply from `n` on to one who waits names the request of the main frame, as it was at one of these moments. */
  predicate TellsTruly(replies: seq<Reply>, n: nat, before: Option<Option<HttpRequest>>, after: Option<Option<HttpRequest>>) {
    forall i | n <= i < |replies| && replies[i].Loaded? ::
      Some(replies[i].request) == before || Some(replies[i].request) == after
  }

  /** Who asked gets a timeout, or the page, which is created if there is a session. */
  ghost predicate AnswersNow(s: Target, t: Target)
    requires s.initiator.Some?
  {
    || (t.replies == s.replies + [InitTimedOut(s.initiator.value)] && t.hasPage == s.hasPage)
    || (t.replies == s.replies + [PageGiven(s.initiator.value)] && t.hasPage && (s.hasPage || s.session.Some?))
  }

  /** An advance answers who asked, or nobody. */
  ghost predicate Advances(s: Target, t: Target) {
    && s.replies <= t.replies && t.waiters == s.waiters && t.LoadedMainFrame() == s.LoadedMainFrame()
    && (|| (t.initiator == s.initiator && t.replies == s.replies && t.hasPage == s.hasPage)
        || (s.initiator.Some? && t.initiator.None? && AnswersNow(s, t)))
  }

  lemma {:induction false} AdvanceAnswers(s: Target, now: nat, order: seq<FrameId>)
    ensures Advances(s, Advance(s, now, order).target)
    decreases Rank(s.init), WorldMissing(s)
  {
    hide NextStage, AnswerInitiator, OnInitializationFailed, Advances;
    AskerAnswered(s);
    AskerFailed(s);
    forall init ensures Advances(s, s.(init := init)) { NobodyAnswered(s, init); }
    if s.init.HasChain() {
      R.NextStageDescends(s, order);
      NextStageAnswersNobody(s, order);
      AdvanceAnswers(NextStage(s, order), now, order);
      AdvancesFurther(s, NextStage(s, order), Advance(NextStage(s, order), now, order).target);
    }
  }

  lemma NobodyAnswered(s: Target, init: TargetInit)
    ensures Advances(s, s.(init := init))
  {
  }

  lemma AdvancesFurther(s: Target, next: Target, t: Target)
    requires Advances(next, t) && next.replies == s.replies && next.initiator == s.initiator && next.hasPage == s.hasPage
    requires next.waiters == s.waiters && next.session == s.session && next.LoadedMainFrame() == s.LoadedMainFrame()
    ensures Advances(s, t)
  {
    hide Target.LoadedMainFrame;
  }

  lemma AskerAnswered(s: Target)
    ensures Advances(s, AnswerInitiator(s))
  {
  }

  lemma AskerFailed(s: Target)
    ensures Advances(s, OnInitializationFailed(s))
  {
  }

  lemma NextStageAnswersNobody(s: Target, order: seq<FrameId>)
    requires s.init.HasChain()
    ensures var t := NextStage(s, order);
            && t.replies == s.replies && t.initiator == s.initiator && t.hasPage == s.hasPage && t.waiters == s.waiters
            && t.session == s.session && t.LoadedMainFrame() == s.LoadedMainFrame()
  {
  }

  /** Only those who wait are told something, and truly. The rest is the same. */
  ghost predicate OnlyTells(s: Target, t: Target) {
    && s.replies <= t.replies && t.initiator == s.initiator && t.hasPage == s.hasPage
    && (forall i | |s.replies| <= i < |t.replies| :: t.replies[i].Loaded?)
    && TellsTruly(t.replies, |s.replies|, s.LoadedMainFrame(), t.LoadedMainFrame())
  }

  lemma OnlyTellsOn(a: Target, b: Target, c: Target)
    requires OnlyTells(a, b) && OnlyTells(b, c)
    requires b.LoadedMainFrame() == a.LoadedMainFrame() || b.LoadedMainFrame() == c.LoadedMainFrame()
    ensures OnlyTells(a, c)
  {
    hide Target.LoadedMainFrame;
  }

  lemma {:induction false} NotifyTells(s: Target)
    ensures OnlyTells(s, NotifyWaiters(s)) && NotifyWaiters(s).LoadedMainFrame() == s.LoadedMainFrame()
    decreases |s.waiters|
  {
    hide Target.LoadedMainFrame;
    if s.LoadedMainFrame().Some? && s.waiters != [] {
      var last := |s.waiters| - 1;
      var s1 := s.(waiters := s.waiters[..last]).Reply(Loaded(s.waiters[last], s.LoadedMainFrame().value));
      SameFramesLoaded(s, s1);
      NotifyTells(s1);
    }
  }

  lemma SameFramesLoaded(s: Target, t: Target)
    requires t.frames.frames == s.frames.frames && t.frames.mainFrame == s.frames.mainFrame
    ensures t.LoadedMainFrame() == s.LoadedMainFrame()
  {
  }

  lemma {:induction false} MessagesTell(s: Target, msgs: seq<PageMessage>)
    ensures OnlyTells(s, OnMessages(s, msgs)) && OnMessages(s, msgs).LoadedMainFrame() == s.LoadedMainFrame()
  {
    if msgs != [] {
      var s1 := OnMessages(s, Front(msgs));
      MessagesTell(s, Front(msgs));
      MessageTells(s1, Last(msgs));
      hide OnMessage, OnlyTells, Target.LoadedMainFrame;
      OnlyTellsOn(s, s1, OnMessage(s1, Last(msgs)));
    }
  }

  lemma MessageTells(s: Target, msg: PageMessage)
    ensures OnlyTells(s, OnMessage(s, msg)) && OnMessage(s, msg).LoadedMainFrame() == s.LoadedMainFrame()
  {
    SameFramesLoaded(s, OnMessage(s, msg));
    hide Target.LoadedMainFrame;
  }

  lemma {:induction false} NetworkDrainAsks(s: Target)
    requires F.WellShaped(s.frames)
    ensures DrainNetwork(s).initiator == s.initiator && DrainNetwork(s).hasPage == s.hasPage
    ensures DrainNetwork(s).replies == s.replies
    decreases |s.network.queue|
  {
    if s.network.queue != [] {
      var s1 := s.(network := s.network.(queue := s.network.queue[1..]));
      DrainFirst(s);
      hide DrainNetwork;
      NetworkDrainAsks(OnNetworkEvent(s1, s.network.queue[0]));
    }
  }

  lemma {:induction false} FramesDrainAsks(s: Target, now: nat, clocks: nat -> nat, k: nat)
    requires F.WellShaped(s.frames)
    ensures var t := DrainFrames(s, now, clocks, k);
            t.initiator == s.initiator && t.hasPage == s.hasPage && t.replies == s.replies
    decreases Q.Backlog(s.frames)
  {
    hide DrainFrames, F.Poll, Q.Backlog, FramePolls, FrameOutputs, F.WellShaped;
    ShapedIsForest(s.frames);
    var p := F.Poll(s.frames, now, clocks(k));
    DrainFramesFirst(s, now, clocks, k);
    if p.event.Some? {
      FramesDrainAsks(s.(frames := p.manager).Push(FromFrames(p.event.value)), now, clocks, k + 1);
    }
  }

  lemma RoundTells(s: Target, now: nat, msgs: seq<PageMessage>, clocks: nat -> nat)
    requires F.WellShaped(s.frames)
    ensures OnlyTells(s, Round(s, now, msgs, clocks))
  {
    hide F.WellShaped, DrainNetwork, DrainFrames, Target.LoadedMainFrame;
    var s1 := if s.hasPage then OnMessages(s, msgs) else s;
    MessagesKeepFrames(s, msgs);
    MessagesTell(s, msgs);
    NetworkDrainAsks(s1);
    FramesDrainAsks(DrainNetwork(s1), now, clocks, 0);
  }

  lemma DrainTells(s: Target, now: nat, msgs: seq<PageMessage>, clocks: nat -> nat)
    requires F.WellShaped(s.frames)
    ensures OnlyTells(s, Drain(s, now, msgs, clocks).target)
  {
    hide F.WellShaped, Round, OnlyTells, Target.LoadedMainFrame;
    NotifyKeepsFrames(s);
    NotifyTells(s);
    var s1 := NotifyWaiters(s);
    if s1.queue == [] {
      RoundTells(s1, now, msgs, clocks);
      var s2 := Round(s1, now, msgs, clocks);
      OnlyTellsOn(s, s1, s2);
      NotifyKeepsFrames(s2);
      NotifyTells(s2);
      OnlyTellsOn(s, s2, NotifyWaiters(s2));
      if s2.queue != [] {
        PoppedTells(s, NotifyWaiters(s2));
      }
    } else {
      PoppedTells(s, s1);
    }
  }

  lemma PoppedTells(s: Target, t: Target)
    requires OnlyTells(s, t) && t.queue != []
    ensures OnlyTells(s, PopQueue(t).target)
  {
    SameFramesLoaded(t, PopQueue(t).target);
    hide Target.LoadedMainFrame;
  }

  lemma StepTells(s: Target, e: Event)
    requires F.WellShaped(s.frames) && TargetSpec.Step(s, e).Alive?
    ensures var t := TargetSpec.Step(s, e).target;
            && s.replies <= t.replies
            && TellsTruly(t.replies, |s.replies|, s.LoadedMainFrame(), t.LoadedMainFrame())
            && (forall tx: Ticket :: AnswersAsker(t.replies, |s.replies|, tx) <==>
                  s.initiator == Some(tx) && t.initiator.None?)
            && (t.initiator.Some? ==> t.initiator == if e.InitiatorSet? then Some(e.tx) else s.initiator)
            && (t.hasPage <==>
                  || s.hasPage
                  || (e.PageAskedFor? && s.session.Some?)
                  || (&& s.session.Some? && s.initiator.Some?
                      && exists i :: |s.replies| <= i < |t.replies| && t.replies[i] == PageGiven(s.initiator.value)))
  {
    if e.PollRequested? {
      PollTells(s, e);
    } else {
      hide F.Step, F.OnFrameTree, N.Step, F.WellShaped, Target.LoadedMainFrame;
    }
  }

  lemma PollTells(s: Target, e: Event)
    requires F.WellShaped(s.frames) && e.PollRequested?
    ensures var t := TargetSpec.Poll(s, e.now, e.order, e.msgs, e.clocks).target;
            && s.replies <= t.replies
            && TellsTruly(t.replies, |s.replies|, s.LoadedMainFrame(), t.LoadedMainFrame())
            && (forall tx: Ticket :: AnswersAsker(t.replies, |s.replies|, tx) <==> s.initiator == Some(tx) && t.initiator.None?)
            && (t.initiator.Some? ==> t.initiator == s.initiator)
            && (t.hasPage <==>
                  || s.hasPage
                  || (&& s.session.Some? && s.initiator.Some?
                      && exists i :: |s.replies| <= i < |t.replies| && t.replies[i] == PageGiven(s.initiator.value)))
  {
    hide Advance, Drain, F.WellShaped, Target.LoadedMainFrame;
    AdvanceKeepsFrames(s, e.now, e.order);
    AdvanceKeeps(s, e.now, e.order);
    AdvanceAnswers(s, e.now, e.order);
    var a := Advance(s, e.now, e.order);
    if a.move.Proceed? {
      DrainTells(a.target, e.now, e.msgs, e.clocks);
      var t := Drain(a.target, e.now, e.msgs, e.clocks).target;
      if a.target.replies != s.replies {
        assert t.replies[|s.replies|] == a.target.replies[|s.replies|];
      }
    } else if a.target.replies != s.replies {
      assert a.target.replies[|s.replies|] == Last(a.target.replies);
    }
  }

  // ---------- Nobody waits for a loaded page ----------

  predicate NobodyWaits(s: Target) {
    s.LoadedMainFrame().Some? ==> s.waiters == []
  }

  lemma {:induction false} NotifyLeavesNobody(s: Target)
    ensures NobodyWaits(NotifyWaiters(s))
    decreases |s.waiters|
  {
    hide Target.LoadedMainFrame;
    if s.LoadedMainFrame().Some? && s.waiters != [] {
      var last := |s.waiters| - 1;
      NotifyLeavesNobody(s.(waiters := s.waiters[..last]).Reply(Loaded(s.waiters[last], s.LoadedMainFrame().value)));
    }
  }

  lemma {:induction false} MessagesLeaveNobody(s: Target, msgs: seq<PageMessage>)
    requires NobodyWaits(s)
    ensures NobodyWaits(OnMessages(s, msgs))
  {
    if msgs != [] {
      MessagesLeaveNobody(s, Front(msgs));
      var s1 := OnMessages(s, Front(msgs));
      SameFramesLoaded(s1, OnMessage(s1, Last(msgs)));
      hide Target.LoadedMainFrame, N.Authenticate;
    }
  }

  lemma {:induction false} NetworkDrainLeaves(s: Target)
    requires F.WellShaped(s.frames)
    ensures DrainNetwork(s).waiters == s.waiters
    ensures DrainNetwork(s).LoadedMainFrame().Some? <==> s.LoadedMainFrame().Some?
    decreases |s.network.queue|
  {
    if s.network.queue != [] {
      var s1 := s.(network := s.network.(queue := s.network.queue[1..]));
      DrainFirst(s);
      NetworkEventLeaves(s1, s.network.queue[0]);
      SameFramesLoaded(s, s1);
      hide DrainNetwork, OnNetworkEvent, Target.LoadedMainFrame;
      NetworkDrainLeaves(OnNetworkEvent(s1, s.network.queue[0]));
    }
  }

  lemma NetworkEventLeaves(s: Target, ev: N.NetworkEvent)
    ensures OnNetworkEvent(s, ev).waiters == s.waiters
    ensures OnNetworkEvent(s, ev).LoadedMainFrame().Some? <==> s.LoadedMainFrame().Some?
  {
  }

  lemma {:induction false} FramesDrainLeaves(s: Target, now: nat, clocks: nat -> nat, k: nat)
    requires F.WellShaped(s.frames)
    ensures DrainFrames(s, now, clocks, k).waiters == s.waiters
    decreases Q.Backlog(s.frames)
  {
    hide DrainFrames, F.Poll, Q.Backlog, FramePolls, FrameOutputs, F.WellShaped;
    ShapedIsForest(s.frames);
    var p := F.Poll(s.frames, now, clocks(k));
    DrainFramesFirst(s, now, clocks, k);
    if p.event.Some? {
      FramesDrainLeaves(s.(frames := p.manager).Push(FromFrames(p.event.value)), now, clocks, k + 1);
    }
  }

  lemma RoundLeavesNobody(s: Target, now: nat, msgs: seq<PageMessage>, clocks: nat -> nat)
    requires F.WellShaped(s.frames) && NobodyWaits(s)
    ensures NobodyWaits(Round(s, now, msgs, clocks))
  {
    hide F.WellShaped, DrainNetwork, DrainFrames, Target.LoadedMainFrame;
    var s1 := if s.hasPage then OnMessages(s, msgs) else s;
    MessagesKeepFrames(s, msgs);
    MessagesLeaveNobody(s, msgs);
    NetworkDrainLeaves(s1);
    FramesDrainLeaves(DrainNetwork(s1), now, clocks, 0);
    SameFramesLoaded(DrainNetwork(s1), Round(s, now, msgs, clocks));
  }

  /** After the part of a poll that passes on, nobody waits for the main frame if it has loaded. */
  lemma NobodyWaitsOnceLoaded(s: Target, e: Event)
    requires F.WellShaped(s.frames) && e.PollRequested? && Advance(s, e.now, e.order).move.Proceed?
    ensures NobodyWaits(TargetSpec.Poll(s, e.now, e.order, e.msgs, e.clocks).target)
  {
    hide Advance, Round, Target.LoadedMainFrame, F.WellShaped;
    AdvanceKeepsFrames(s, e.now, e.order);
    AdvanceKeeps(s, e.now, e.order);
    var s1 := NotifyWaiters(Advance(s, e.now, e.order).target);
    NotifyKeepsFrames(Advance(s, e.now, e.order).target);
    NotifyLeavesNobody(Advance(s, e.now, e.order).target);
    if s1.queue == [] {
      RoundLeavesNobody(s1, e.now, e.msgs, e.clocks);
      var s2 := Round(s1, e.now, e.msgs, e.clocks);
      NotifyKeepsFrames(s2);
      NotifyLeavesNobody(s2);
      if s2.queue != [] {
        SameFramesLoaded(NotifyWaiters(s2), PopQueue(NotifyWaiters(s2)).target);
      }
    } else {
      SameFramesLoaded(s1, PopQueue(s1).target);
    }
  }
}
