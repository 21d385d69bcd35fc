/** A target runs its two managers: each goes through the events that the target hands to it, and all that they put out is
  * passed on (src/handler/target.rs:228-305, 420-562). */
module TargetManagers {
  import opened Options
  import opened Sequences
  import opened Identifiers
  import opened Http
  import opened Navigation
  import opened TargetSpec
  import opened TargetHistory
  import F = FrameManagerSpec
  import FR = FrameRuns
  import FH = FrameHistory
  import FA = FrameAnswers
  import N = NetworkSpec
  import NR = NetworkRuns
  import NH = NetworkHistory
  import Q = FrameQueue
  import R = TargetRuns

  type Event = TargetSpec.Event

  // ---------- Parts of what is passed on ----------

  function Gather<T, U>(s: seq<T>, part: T -> seq<U>): seq<U> {
    if s == [] then [] else Gather(Front(s), part) + part(Last(s))
  }

  lemma {:induction false} GatherAppend<T, U>(a: seq<T>, b: seq<T>, part: T -> seq<U>)
    ensures Gather(a + b, part) == Gather(a, part) + Gather(b, part)
    decreases |b|
  {
    if b == [] {
      assert a + b == a;
    } else {
      GatherAppend(a, Front(b), part);
      LastOfBoth(a, b);
      GatherLast(b, part);
      GatherLast(a + b, part);
      Associates(Gather(a, part), Gather(Front(b), part), part(Last(b)));
      hide Gather;
    }
  }

  lemma LastOfBoth<T>(a: seq<T>, b: seq<T>)
    requires b != []
    ensures a + b != [] && Front(a + b) == a + Front(b) && Last(a + b) == Last(b)
  {
  }

  lemma GatherLast<T, U>(s: seq<T>, part: T -> seq<U>)
    requires s != []
    ensures Gather(s, part) == Gather(Front(s), part) + part(Last(s))
  {
  }

  lemma GatherOne<T, U>(x: T, part: T -> seq<U>)
    ensures Gather([x], part) == part(x)
  {
    assert Front([x]) == [];
    assert [] + part(x) == part(x);
  }

  function CommandIn(ev: TargetEvent): seq<N.Command> {
    match ev case NetworkRequest(command, _) => [command] case _ => []
  }

  function CommandPut(ev: N.NetworkEvent): seq<N.Command> {
    match ev case SendCdpRequest(command) => [command] case _ => []
  }

  function NavigationIn(ev: TargetEvent): seq<FrameEvent> {
    match ev
    case NavigationRequested(id, req) => [RequestEvent(id, req)]
    case NavigationDone(result) => [ResultEvent(result)]
    case _ => []
  }

  function PageIn(ev: TargetEvent): seq<Ticket> {
    match ev case PageCommand(tx) => [tx] case _ => []
  }

  function CommandsOf(events: seq<TargetEvent>): seq<N.Command> {
    Gather(events, CommandIn)
  }

  function Commands(events: seq<N.NetworkEvent>): seq<N.Command> {
    Gather(events, CommandPut)
  }

  function NavigationsOf(events: seq<TargetEvent>): seq<FrameEvent> {
    Gather(events, NavigationIn)
  }

  function PagesOf(events: seq<TargetEvent>): seq<Ticket> {
    Gather(events, PageIn)
  }

  lemma PartsAppend(a: seq<TargetEvent>, b: seq<TargetEvent>)
    ensures CommandsOf(a + b) == CommandsOf(a) + CommandsOf(b)
    ensures NavigationsOf(a + b) == NavigationsOf(a) + NavigationsOf(b)
    ensures PagesOf(a + b) == PagesOf(a) + PagesOf(b)
  {
    GatherAppend(a, b, CommandIn);
    GatherAppend(a, b, NavigationIn);
    GatherAppend(a, b, PageIn);
  }

  lemma PartsOfOne(ev: TargetEvent)
    ensures CommandsOf([ev]) == CommandIn(ev) && NavigationsOf([ev]) == NavigationIn(ev) && PagesOf([ev]) == PageIn(ev)
  {
    GatherOne(ev, CommandIn);
    GatherOne(ev, NavigationIn);
    GatherOne(ev, PageIn);
  }

  lemma CommandsAppend(a: seq<N.NetworkEvent>, b: seq<N.NetworkEvent>)
    ensures Commands(a + b) == Commands(a) + Commands(b)
  {
    GatherAppend(a, b, CommandPut);
  }

  lemma {:induction false} NetworkPart(queue: seq<N.NetworkEvent>, session: Option<string>)
    ensures var events := RequestsFor(queue, session);
            CommandsOf(events) == Commands(queue) && NavigationsOf(events) == [] && PagesOf(events) == []
  {
    hide CommandsOf, NavigationsOf, PagesOf, Commands;
    NothingOf();
    if queue != [] {
      var front, last := Front(queue), Last(queue);
      NetworkPart(front, session);
      CommandsAppend(front, [last]);
      assert queue == front + [last];
      NetworkPartOfOne(last, session);
      PartsAppend(RequestsFor(front, session), RequestFor(last, session));
    }
  }

  lemma NetworkPartOfOne(ev: N.NetworkEvent, session: Option<string>)
    ensures var events := RequestFor(ev, session);
            CommandsOf(events) == Commands([ev]) && NavigationsOf(events) == [] && PagesOf(events) == []
  {
    GatherOne(ev, CommandPut);
    hide CommandsOf, NavigationsOf, PagesOf;
    NothingOf();
    match ev
    case SendCdpRequest(command) => PartsOfOne(NetworkRequest(command, session));
    case _ =>
  }

  /** The senders of the commands among the messages. */
  function Senders(msgs: seq<PageMessage>): seq<Ticket> {
    if msgs == [] then []
    else Senders(Front(msgs)) + match Last(msgs) case CommandSent(tx) => [tx] case _ => []
  }

  lemma {:induction false} PagePart(msgs: seq<PageMessage>)
    ensures var events := PageCommands(msgs);
            CommandsOf(events) == [] && NavigationsOf(events) == [] && PagesOf(events) == Senders(msgs)
  {
    hide CommandsOf, NavigationsOf, PagesOf;
    NothingOf();
    if msgs != [] {
      PagePart(Front(msgs));
      match Last(msgs)
      case CommandSent(tx) =>
        PartsOfOne(PageCommand(tx));
        PartsAppend(PageCommands(Front(msgs)), [PageCommand(tx)]);
      case _ =>
        assert PageCommands(Front(msgs)) + [] == PageCommands(Front(msgs));
    }
  }

  lemma {:induction false} NavigationPart(events: seq<FrameEvent>)
    ensures var e := Navigations(events);
            CommandsOf(e) == [] && NavigationsOf(e) == events && PagesOf(e) == []
  {
    hide CommandsOf, NavigationsOf, PagesOf;
    NothingOf();
    if events == [] {
      assert Navigations(events) == [];
    } else {
      var front, last := Front(events), Last(events);
      NavigationPart(front);
      var passed := Last(Navigations(events));
      assert Navigations(events) == Navigations(front) + [passed];
      PartsOfOne(passed);
      PartsAppend(Navigations(front), [passed]);
      assert events == front + [last];
    }
  }

  lemma RoundParts(s: Target, now: nat, msgs: seq<PageMessage>, clocks: nat -> nat)
    requires F.WellShaped(s.frames)
    ensures var events, queue := RoundPuts(s, now, msgs, clocks), NetworkInRound(s, msgs).queue;
            && CommandsOf(events) == Commands(queue)
            && NavigationsOf(events) == FrameOutputs(FramesAfter(s.frames, Ended(queue)), now, clocks, 0)
            && PagesOf(events) == if s.hasPage then Senders(msgs) else []
  {
    hide F.WellShaped, RequestsFor, PageCommands, Navigations, FrameOutputs, FramesAfter, Ended, NetworkInRound,
      CommandsOf, NavigationsOf, PagesOf, Senders, Commands;
    var queue := NetworkInRound(s, msgs).queue;
    var page := if s.hasPage then PageCommands(msgs) else [];
    var network := RequestsFor(queue, s.session);
    var outputs := FrameOutputs(FramesAfter(s.frames, Ended(queue)), now, clocks, 0);
    NothingOf();
    PagePart(msgs);
    NetworkPart(queue, s.session);
    NavigationPart(outputs);
    PartsAppend(page, network);
    PartsAppend(page + network, Navigations(outputs));
  }

  lemma NothingOf()
    ensures CommandsOf([]) == [] && NavigationsOf([]) == [] && PagesOf([]) == [] && Commands([]) == []
  {
  }

  // ---------- The network manager ----------

  function Polls(n: nat): seq<N.Event> {
    seq(n, i => N.Polled)
  }

  /** What a step hands to the network manager. */
  ghost function NetworkSeen(s: Target, e: Event): seq<N.Event>
    requires F.WellShaped(s.frames)
  {
    match e
    case NetworkEventArrived(ev) => [ev]
    case PollRequested(now, order, msgs, _) =>
      if !HasRound(s, e) then []
      else
        var a := Advance(s, now, order).target;
        (if a.hasPage then Logins(msgs) else []) + Polls(|NetworkInRound(a, msgs).queue|)
    case _ => []
  }

  /** All that the network manager of a target went through: its configuration first. */
  ghost function NetworkTrace(isPage: bool, config: Config, trace: seq<Event>): seq<N.Event> {
    if trace == [] then [N.CacheEnabledSet(config.cacheEnabled)] + [N.InterceptionSet(config.requestIntercept)]
    else
      var before := Front(trace);
      NetworkTrace(isPage, config, before) +
      if R.Run(isPage, config, before).Alive? then NetworkSeen(R.Run(isPage, config, before).target, Last(trace)) else []
  }

  lemma {:induction false} NetworkRunsOn(a: seq<N.Event>, b: seq<N.Event>)
    ensures N.Run(a + b) == NetworkAfter(N.Run(a), b)
    decreases |b|
  {
    if b == [] {
      assert a + b == a;
    } else {
      assert Front(a + b) == a + Front(b);
      NetworkRunsOn(a, Front(b));
      hide N.Step;
    }
  }

  lemma {:induction false} TakenOn(a: seq<N.Event>, b: seq<N.Event>)
    requires forall i | 0 <= i < |b| :: !b[i].Polled?
    ensures N.Taken(a + b) == N.Taken(a)
    decreases |b|
  {
    if b == [] {
      assert a + b == a;
    } else {
      assert Front(a + b) == a + Front(b);
      TakenOn(a, Front(b));
      hide N.Step, N.Run;
      assert N.Taken(a) + [] == N.Taken(a);
    }
  }

  lemma {:induction false} PollsTake(a: seq<N.Event>, n: nat)
    requires n <= |N.Run(a).queue|
    ensures N.Run(a + Polls(n)) == N.Run(a).(queue := N.Run(a).queue[n..])
    ensures N.Taken(a + Polls(n)) == N.Taken(a) + N.Run(a).queue[..n]
    decreases n
  {
    hide N.Run, N.Taken;
    var queue := N.Run(a).queue;
    if n == 0 {
      assert a + Polls(0) == a && queue[0..] == queue;
      assert N.Taken(a) + [] == N.Taken(a);
    } else {
      var longer := a + Polls(n);
      assert longer[..|longer| - 1] == a + Polls(n - 1) && longer[|longer| - 1] == N.Polled;
      hide Polls;
      PollsTake(a, n - 1);
      PolledRun(longer);
      OneTaken(N.Taken(a), queue, n);
    }
  }

  lemma OneTaken<T>(taken: seq<T>, queue: seq<T>, n: nat)
    requires 0 < n <= |queue|
    ensures queue[n - 1..] != [] && queue[n - 1..][1..] == queue[n..]
    ensures taken + queue[..n - 1] + [queue[n - 1..][0]] == taken + queue[..n]
  {
  }

  lemma PolledRun(trace: seq<N.Event>)
    requires trace != [] && trace[|trace| - 1] == N.Polled && N.Run(trace[..|trace| - 1]).queue != []
    ensures var n := N.Run(trace[..|trace| - 1]);
            && N.Run(trace) == n.(queue := n.queue[1..])
            && N.Taken(trace) == N.Taken(trace[..|trace| - 1]) + [n.queue[0]]
  {
    PolledNetwork(N.Run(trace[..|trace| - 1]));
    hide N.Step;
  }

  lemma {:induction false} LoginsDoNotPoll(msgs: seq<PageMessage>)
    ensures forall i | 0 <= i < |Logins(msgs)| :: !Logins(msgs)[i].Polled?
  {
    if msgs != [] {
      LoginsDoNotPoll(Front(msgs));
    }
  }

  /** The managers are polled by the target alone. */
  predicate OnlyTargetPolls(trace: seq<Event>) {
    forall i | 0 <= i < |trace| ::
      && (trace[i].NetworkEventArrived? ==> !trace[i].arrived.Polled?)
      && (trace[i].FrameEventArrived? ==> !trace[i].ev.PollRequested?)
  }

  lemma OnlyTargetPollsBefore(trace: seq<Event>)
    requires trace != [] && OnlyTargetPolls(trace)
    ensures OnlyTargetPolls(Front(trace))
  {
    assert forall i | 0 <= i < |Front(trace)| :: Front(trace)[i] == trace[i];
  }

  /** The network manager is where these events lead, and what was taken from it are these commands. */
  ghost predicate NetworkFollows(n: N.Network, trace: seq<N.Event>, taken: seq<N.Command>) {
    N.Run(trace) == n && Commands(N.Taken(trace)) == taken
  }

  lemma NetworkSeesEvent(n: N.Network, trace: seq<N.Event>, taken: seq<N.Command>, ev: N.Event)
    requires NetworkFollows(n, trace, taken) && !ev.Polled?
    ensures NetworkFollows(N.Step(n, ev), trace + [ev], taken)
  {
    assert Front(trace + [ev]) == trace;
    TakenOn(trace, [ev]);
    hide N.Step, N.Taken;
  }

  lemma NetworkSeesRound(s: Target, msgs: seq<PageMessage>, trace: seq<N.Event>, taken: seq<N.Command>)
    requires NetworkFollows(s.network, trace, taken)
    ensures var n := NetworkInRound(s, msgs);
            NetworkFollows(n.(queue := []), trace + ((if s.hasPage then Logins(msgs) else []) + Polls(|n.queue|)),
                           taken + Commands(n.queue))
  {
    hide N.Run, N.Taken, Commands, Logins, Polls, NetworkAfter;
    var logins := if s.hasPage then Logins(msgs) else [];
    var n := NetworkInRound(s, msgs);
    LoginsDoNotPoll(msgs);
    NetworkRunsOn(trace, logins);
    NothingSeen(s.network);
    TakenOn(trace, logins);
    PollsTake(trace + logins, |n.queue|);
    WholeQueue(n.queue);
    CommandsAppend(N.Taken(trace), n.queue);
    Associates(trace, logins, Polls(|n.queue|));
  }

  lemma WholeQueue<T>(queue: seq<T>)
    ensures queue[..|queue|] == queue && queue[|queue|..] == []
  {
  }

  lemma NothingSeen(n: N.Network)
    ensures NetworkAfter(n, []) == n
  {
  }

  lemma StartFollows(isPage: bool, config: Config)
    ensures NetworkFollows(NewTarget(isPage, config).network, NetworkTrace(isPage, config, []), [])
  {
    var cache, intercept := N.CacheEnabledSet(config.cacheEnabled), N.InterceptionSet(config.requestIntercept);
    NR.NothingRun();
    assert Front([cache] + [intercept]) == [cache] && Front([cache]) == [];
    assert N.Taken([]) == [];
    TakenOn([], [cache] + [intercept]);
    assert [] + ([cache] + [intercept]) == [cache] + [intercept];
    assert N.Run([cache]) == N.SetCacheEnabled(N.NEW_NETWORK, config.cacheEnabled);
    assert N.Run([cache] + [intercept]) == N.SetRequestInterception(N.Run([cache]), config.requestIntercept);
    NothingOf();
    hide N.UpdateInterception, N.Taken, Commands;
  }

  lemma StepNetwork(s: Target, e: Event)
    requires F.WellShaped(s.frames) && TargetSpec.Step(s, e).Alive?
    ensures TargetSpec.Step(s, e).target.network ==
      if e.NetworkEventArrived? then N.Step(s.network, e.arrived)
      else if HasRound(s, e) then NetworkInRound(Advance(s, e.now, e.order).target, e.msgs).(queue := [])
      else s.network
  {
    hide F.Step, F.OnFrameTree, N.Step, F.WellShaped, Advance, Drain, NetworkInRound;
    if e.PollRequested? {
      AdvanceKeepsFrames(s, e.now, e.order);
      AdvanceKeeps(s, e.now, e.order);
      var a := Advance(s, e.now, e.order);
      if a.move.Proceed? {
        DrainDoes(a.target, e.now, e.msgs, e.clocks);
      }
    }
  }

  lemma StepQueuesCommands(s: Target, e: Event)
    requires F.WellShaped(s.frames)
    ensures CommandsOf(Queues(s, e)) ==
            if HasRound(s, e) then Commands(NetworkInRound(Advance(s, e.now, e.order).target, e.msgs).queue) else []
  {
    hide F.WellShaped, Advance, RoundPuts, NetworkInRound, Commands, CommandsOf, HasRound, Queues;
    StepQueues(s, e);
    NothingOf();
    if HasRound(s, e) {
      RoundParts(Advance(s, e.now, e.order).target, e.now, e.msgs, e.clocks);
    } else if e.AttachedToTarget? {
      AttachedParts(s, e);
    }
  }

  /** A step queues what its round puts out, if it has one. */
  lemma StepQueues(s: Target, e: Event)
    requires F.WellShaped(s.frames)
    ensures e.PollRequested? ==> F.WellShaped(Advance(s, e.now, e.order).target.frames)
    ensures HasRound(s, e) ==> e.PollRequested?
    ensures HasRound(s, e) ==>
      Queues(s, e) == RoundPuts(Advance(s, e.now, e.order).target, e.now, e.msgs, e.clocks)
    ensures !HasRound(s, e) && !e.AttachedToTarget? ==> Queues(s, e) == []
  {
    hide F.WellShaped, Advance, RoundPuts;
    if e.PollRequested? {
      AdvanceKeeps(s, e.now, e.order);
    }
  }

  lemma AttachedParts(s: Target, e: Event)
    requires F.WellShaped(s.frames) && e.AttachedToTarget?
    ensures CommandsOf(Queues(s, e)) == [] && NavigationsOf(Queues(s, e)) == [] && PagesOf(Queues(s, e)) == []
  {
    hide CommandsOf, NavigationsOf, PagesOf, F.WellShaped;
    var first := if e.waitingForDebugger then [RunIfWaitingForDebugger(e.child)] else [];
    var second := if e.serviceWorker then [DetachFromTarget(e.child, s.session)] else [];
    NothingOf();
    PartsOfOne(RunIfWaitingForDebugger(e.child));
    PartsOfOne(DetachFromTarget(e.child, s.session));
    PartsAppend(first, second);
  }

  lemma {:induction false} NetworkRuns(isPage: bool, config: Config, trace: seq<Event>)
    requires R.Run(isPage, config, trace).Alive? && OnlyTargetPolls(trace)
    ensures NetworkFollows(R.Run(isPage, config, trace).target.network, NetworkTrace(isPage, config, trace),
                           CommandsOf(Queued(isPage, config, trace)))
  {
    if trace == [] {
      StartFollows(isPage, config);
      NothingOf();
    } else {
      var before, e := Front(trace), Last(trace);
      RunBefore(isPage, config, trace);
      OnlyTargetPollsBefore(trace);
      NetworkRuns(isPage, config, before);
      var s := R.Run(isPage, config, before).target;
      StepNetwork(s, e);
      StepQueuesCommands(s, e);
      PartsAppend(Queued(isPage, config, before), Queues(s, e));
      hide R.Run, TargetSpec.Step, NetworkFollows, N.Step, F.WellShaped, CommandsOf, Queues, Commands, NetworkInRound, Advance;
      var t, taken := NetworkTrace(isPage, config, before), CommandsOf(Queued(isPage, config, before));
      if e.NetworkEventArrived? {
        NetworkSeesEvent(s.network, t, taken, e.arrived);
        assert taken + [] == taken;
      } else if HasRound(s, e) {
        AdvanceKeeps(s, e.now, e.order);
        NetworkSeesRound(Advance(s, e.now, e.order).target, e.msgs, t, taken);
      } else {
        assert t + [] == t && taken + [] == taken;
      }
    }
  }

  // ---------- The frame manager ----------

  /** An event that cannot fail, and that only a target makes up. */
  predicate Safe(e: F.Event) {
    e.HttpFinished? || e.PollRequested? || e.IsolatedWorldEnsured?
  }

  /** The world that a poll sets up, if it does. */
  ghost function WorldsBy(s: Target, now: nat, order: seq<FrameId>): seq<F.Event> {
    if Advance(s, now, order).target.frames == s.frames then []
    else [F.IsolatedWorldEnsured("__chromiumoxide_utility_world__")]
  }

  /** What a step hands to the frame manager. */
  ghost function FramesSeen(s: Target, e: Event): seq<F.Event>
    requires F.WellShaped(s.frames)
  {
    match e
    case FrameEventArrived(ev) => [ev]
    case ResponseArrived(identifier, tree) =>
      if identifier == "Page.getFrameTree" && tree.Some? then [F.FrameTreeReceived(tree.value)] else []
    case PollRequested(now, order, msgs, clocks) =>
      AdvanceKeeps(s, now, order);
      WorldsBy(s, now, order) +
      if HasRound(s, e) then RoundFrames(Advance(s, now, order).target, now, msgs, clocks) else []
    case _ => []
  }

  /** All that the frame manager of a target went through. */
  ghost function FrameTrace(isPage: bool, config: Config, trace: seq<Event>): seq<F.Event> {
    if trace == [] then []
    else
      var before := Front(trace);
      FrameTrace(isPage, config, before) +
      if R.Run(isPage, config, before).Alive? then FramesSeen(R.Run(isPage, config, before).target, Last(trace)) else []
  }

  /** The frame manager is where these events lead, and this is what its polls gave. */
  ghost predicate FramesFollow(m: F.Manager, trace: seq<F.Event>, outputs: seq<FrameEvent>) {
    FR.Run(trace) == F.Outcome.Alive(m) && Q.Outputs(trace) == outputs
  }

  lemma FramesSee(m: F.Manager, trace: seq<F.Event>, outputs: seq<FrameEvent>, e: F.Event)
    requires FramesFollow(m, trace, outputs) && F.WellShaped(m) && F.Step(m, e).Alive?
    ensures FramesFollow(F.Step(m, e).manager, trace + [e], outputs + Q.OutputOf(m, e))
  {
    assert (trace + [e])[..|trace|] == trace;
    hide F.Step, Q.OutputOf, F.WellShaped;
  }

  lemma SafeStep(m: F.Manager, e: F.Event)
    requires F.WellShaped(m) && Safe(e)
    ensures F.Step(m, e) == F.Outcome.Alive(FramesAfter(m, [e]))
  {
    assert Front([e]) == [];
    F.StepKeepsShape(m, e);
    hide F.Poll, F.OnHttpRequestFinished, F.WellShaped;
  }

  lemma {:induction false} FramesSeeEnded(m: F.Manager, trace: seq<F.Event>, outputs: seq<FrameEvent>, events: seq<F.Event>)
    requires FramesFollow(m, trace, outputs) && F.WellShaped(m)
    requires forall i | 0 <= i < |events| :: Safe(events[i]) && !events[i].PollRequested?
    ensures FramesFollow(FramesAfter(m, events), trace + events, outputs)
    decreases |events|
  {
    hide F.WellShaped, FramesFollow, F.Step;
    if events == [] {
      NoFramesAfter(m);
      assert trace + events == trace;
    } else {
      var e, m1 := Last(events), FramesAfter(m, Front(events));
      FramesSeeEnded(m, trace, outputs, Front(events));
      FramesOnMore(m, Front(events), [e]);
      assert events == Front(events) + [e];
      SafeStep(m1, e);
      FramesSee(m1, trace + Front(events), outputs, e);
      NoOutput(m1, e);
      assert trace + events == trace + Front(events) + [e] && outputs + [] == outputs;
    }
  }

  lemma NoFramesAfter(m: F.Manager)
    requires F.WellShaped(m)
    ensures FramesAfter(m, []) == m
  {
  }

  lemma NoOutput(m: F.Manager, e: F.Event)
    requires F.WellShaped(m) && !e.PollRequested?
    ensures Q.OutputOf(m, e) == []
  {
  }

  lemma {:induction false} EndedIsSafe(queue: seq<N.NetworkEvent>)
    ensures forall i | 0 <= i < |Ended(queue)| :: Safe(Ended(queue)[i]) && !Ended(queue)[i].PollRequested?
  {
    if queue != [] {
      EndedIsSafe(Front(queue));
    }
  }

  lemma {:induction false} FramesSeePolls(m: F.Manager, trace: seq<F.Event>, outputs: seq<FrameEvent>, now: nat,
                                          clocks: nat -> nat, k: nat)
    requires FramesFollow(m, trace, outputs) && F.WellShaped(m)
    ensures var polls := FramePolls(m, now, clocks, k);
            FramesFollow(FramesAfter(m, polls), trace + polls, outputs + FrameOutputs(m, now, clocks, k))
    decreases Q.Backlog(m)
  {
    hide F.WellShaped, FramesFollow, F.Step, F.Poll, FramesAfter, FramePolls, FrameOutputs, Q.Backlog;
    ShapedIsForest(m);
    var poll, p := F.PollRequested(now, clocks(k)), F.Poll(m, now, clocks(k));
    PollsFirst(m, now, clocks, k);
    SafeStep(m, poll);
    FramesSee(m, trace, outputs, poll);
    PollOutput(m, now, clocks(k));
    PolledOnce(m, poll);
    if p.event.None? {
      assert [poll] + [] == [poll];
    } else {
      var rest, more := FramePolls(p.manager, now, clocks, k + 1), FrameOutputs(p.manager, now, clocks, k + 1);
      FramesSeePolls(p.manager, trace + [poll], outputs + [p.event.value], now, clocks, k + 1);
      FramesOnMore(m, [poll], rest);
      Associates(trace, [poll], rest);
      Associates(outputs, [p.event.value], more);
    }
  }

  lemma PollOutput(m: F.Manager, now: nat, clock: nat)
    requires F.WellShaped(m)
    ensures var event := F.Poll(m, now, clock).event;
            Q.OutputOf(m, F.PollRequested(now, clock)) == if event.Some? then [event.value] else []
  {
    hide F.Poll;
  }

  lemma PollsFirst(m: F.Manager, now: nat, clocks: nat -> nat, k: nat)
    requires F.WellShaped(m)
    ensures var p := F.Poll(m, now, clocks(k));
            && F.WellShaped(p.manager)
            && FrameOutputs(m, now, clocks, k) ==
                 (if p.event.None? then [] else [p.event.value] + FrameOutputs(p.manager, now, clocks, k + 1))
            && FramePolls(m, now, clocks, k) ==
                 [F.PollRequested(now, clocks(k))] +
                 (if p.event.None? then [] else FramePolls(p.manager, now, clocks, k + 1))
            && (p.event.Some? ==> Q.Backlog(p.manager) < Q.Backlog(m))
  {
    Q.PollDrains(m, now, clocks(k));
    F.StepKeepsShape(m, F.PollRequested(now, clocks(k)));
    hide F.Poll, Q.Backlog;
  }

  lemma FramesSeeRound(s: Target, now: nat, msgs: seq<PageMessage>, clocks: nat -> nat, trace: seq<F.Event>,
                       outputs: seq<FrameEvent>)
    requires F.WellShaped(s.frames) && FramesFollow(s.frames, trace, outputs)
    ensures var events := RoundFrames(s, now, msgs, clocks);
            FramesFollow(FramesAfter(s.frames, events), trace + events,
                         outputs + NavigationsOf(RoundPuts(s, now, msgs, clocks)))
  {
    hide F.WellShaped, FramesFollow, FramesAfter, FramePolls, FrameOutputs, NavigationsOf, RoundPuts, Ended, NetworkInRound;
    var ended := Ended(NetworkInRound(s, msgs).queue);
    EndedIsSafe(NetworkInRound(s, msgs).queue);
    FramesSeeEnded(s.frames, trace, outputs, ended);
    var m := FramesAfter(s.frames, ended);
    FramesSeePolls(m, trace + ended, outputs, now, clocks, 0);
    FramesOnMore(s.frames, ended, FramePolls(m, now, clocks, 0));
    Associates(trace, ended, FramePolls(m, now, clocks, 0));
    RoundParts(s, now, msgs, clocks);
  }

  lemma {:induction false} AdvanceWorlds(s: Target, now: nat, order: seq<FrameId>)
    ensures var m := Advance(s, now, order).target.frames;
            m == s.frames || m == F.EnsureIsolatedWorld(s.frames, F.UTILITY_WORLD_NAME)
    ensures WorldMissing(s) == 0 ==> Advance(s, now, order).target.frames == s.frames
    decreases Rank(s.init), WorldMissing(s)
  {
    if s.init.HasChain() {
      R.NextStageDescends(s, order);
      NextStageWorlds(s, order);
      hide NextStage;
      AdvanceWorlds(NextStage(s, order), now, order);
    }
  }

  lemma NextStageWorlds(s: Target, order: seq<FrameId>)
    requires s.init.HasChain()
    ensures var t := NextStage(s, order);
            t.frames == s.frames || (t.frames == F.EnsureIsolatedWorld(s.frames, F.UTILITY_WORLD_NAME) && WorldMissing(t) == 0)
    ensures WorldMissing(s) == 0 ==> WorldMissing(NextStage(s, order)) == 0 && NextStage(s, order).frames == s.frames
  {
  }

  lemma FramesSeeWorlds(s: Target, now: nat, order: seq<FrameId>, trace: seq<F.Event>, outputs: seq<FrameEvent>)
    requires F.WellShaped(s.frames) && FramesFollow(s.frames, trace, outputs)
    ensures FramesFollow(Advance(s, now, order).target.frames, trace + WorldsBy(s, now, order), outputs)
  {
    AdvanceWorlds(s, now, order);
    hide Advance, FramesFollow, F.WellShaped;
    if WorldsBy(s, now, order) == [] {
      assert trace + [] == trace;
    } else {
      var e := F.IsolatedWorldEnsured("__chromiumoxide_utility_world__");
      EnsuredStep(s.frames, e);
      FramesSee(s.frames, trace, outputs, e);
      NoOutput(s.frames, e);
      assert outputs + [] == outputs;
    }
  }

  lemma EnsuredStep(m: F.Manager, e: F.Event)
    requires F.WellShaped(m) && e.IsolatedWorldEnsured?
    ensures F.Step(m, e) == F.Outcome.Alive(F.EnsureIsolatedWorld(m, e.name))
  {
  }

  lemma StepFrames(s: Target, e: Event)
    requires F.WellShaped(s.frames) && TargetSpec.Step(s, e).Alive? && !e.PollRequested?
    ensures if FramesSeen(s, e) == [] then TargetSpec.Step(s, e).target.frames == s.frames
            else |FramesSeen(s, e)| == 1 &&
                 F.Step(s.frames, FramesSeen(s, e)[0]) == F.Outcome.Alive(TargetSpec.Step(s, e).target.frames)
  {
    hide F.Step, N.Step, F.WellShaped;
    if e.ResponseArrived? {
      ResponseFrames(s, e.identifier, e.tree);
    }
  }

  lemma ResponseFrames(s: Target, identifier: string, tree: Option<F.BrowserFrameTree>)
    requires F.WellShaped(s.frames) && OnResponse(s, identifier, tree).Alive?
    ensures if identifier == "Page.getFrameTree" && tree.Some?
            then F.Step(s.frames, F.FrameTreeReceived(tree.value)) == F.Outcome.Alive(OnResponse(s, identifier, tree).target.frames)
            else OnResponse(s, identifier, tree).target.frames == s.frames
  {
    hide F.OnFrameTree, F.WellShaped;
  }

  lemma PollFrames(s: Target, e: Event)
    requires F.WellShaped(s.frames) && e.PollRequested?
    ensures F.WellShaped(Advance(s, e.now, e.order).target.frames)
    ensures var a := Advance(s, e.now, e.order).target;
            TargetSpec.Poll(s, e.now, e.order, e.msgs, e.clocks).target.frames ==
              if HasRound(s, e) then FramesAfter(a.frames, RoundFrames(a, e.now, e.msgs, e.clocks)) else a.frames
  {
    hide Advance, Drain, F.WellShaped, RoundFrames, FramesAfter;
    AdvanceKeepsFrames(s, e.now, e.order);
    AdvanceKeeps(s, e.now, e.order);
    var a := Advance(s, e.now, e.order);
    if a.move.Proceed? {
      DrainDoes(a.target, e.now, e.msgs, e.clocks);
    }
  }

  lemma StepQueuesNavigations(s: Target, e: Event)
    requires F.WellShaped(s.frames)
    ensures e.PollRequested? ==> F.WellShaped(Advance(s, e.now, e.order).target.frames)
    ensures NavigationsOf(Queues(s, e)) ==
            if HasRound(s, e) then NavigationsOf(RoundPuts(Advance(s, e.now, e.order).target, e.now, e.msgs, e.clocks)) else []
    ensures PagesOf(Queues(s, e)) ==
            if HasRound(s, e) && Advance(s, e.now, e.order).target.hasPage then Senders(e.msgs) else []
  {
    hide F.WellShaped, Advance, RoundPuts, NavigationsOf, PagesOf, Senders, HasRound, Queues;
    StepQueues(s, e);
    NothingOf();
    if HasRound(s, e) {
      RoundParts(Advance(s, e.now, e.order).target, e.now, e.msgs, e.clocks);
    } else if e.AttachedToTarget? {
      AttachedParts(s, e);
    }
  }

  lemma StepFramesFollow(s: Target, e: Event, trace: seq<F.Event>, outputs: seq<FrameEvent>)
    requires F.WellShaped(s.frames) && TargetSpec.Step(s, e).Alive? && FramesFollow(s.frames, trace, outputs)
    requires e.FrameEventArrived? ==> !e.ev.PollRequested?
    ensures FramesFollow(TargetSpec.Step(s, e).target.frames, trace + FramesSeen(s, e), outputs + NavigationsOf(Queues(s, e)))
  {
    StepQueuesNavigations(s, e);
    if e.PollRequested? {
      PollFramesFollow(s, e, trace, outputs);
    } else {
      StepFrames(s, e);
      hide F.WellShaped, FramesFollow, TargetSpec.Step, F.Step, Queues, NavigationsOf;
      assert outputs + [] == outputs && trace + [] == trace;
      var seen := FramesSeen(s, e);
      if seen != [] {
        assert seen == [seen[0]];
        FramesSee(s.frames, trace, outputs, seen[0]);
        NoOutput(s.frames, seen[0]);
      }
    }
  }

  lemma PollFramesFollow(s: Target, e: Event, trace: seq<F.Event>, outputs: seq<FrameEvent>)
    requires F.WellShaped(s.frames) && e.PollRequested? && FramesFollow(s.frames, trace, outputs)
    ensures FramesFollow(TargetSpec.Poll(s, e.now, e.order, e.msgs, e.clocks).target.frames, trace + FramesSeen(s, e),
                         outputs + NavigationsOf(Queues(s, e)))
  {
    StepQueuesNavigations(s, e);
    PollFrames(s, e);
    FramesSeeWorlds(s, e.now, e.order, trace, outputs);
    hide F.WellShaped, FramesFollow, TargetSpec.Poll, Advance, Queues, NavigationsOf, RoundFrames, FramesAfter, WorldsBy;
    var a, worlds := Advance(s, e.now, e.order).target, WorldsBy(s, e.now, e.order);
    if HasRound(s, e) {
      FramesSeeRound(a, e.now, e.msgs, e.clocks, trace + worlds, outputs);
      Associates(trace, worlds, RoundFrames(a, e.now, e.msgs, e.clocks));
    } else {
      assert worlds + [] == worlds && outputs + [] == outputs;
    }
  }

  lemma {:induction false} FramesRun(isPage: bool, config: Config, trace: seq<Event>)
    requires R.Run(isPage, config, trace).Alive? && OnlyTargetPolls(trace)
    ensures FramesFollow(R.Run(isPage, config, trace).target.frames, FrameTrace(isPage, config, trace),
                         NavigationsOf(Queued(isPage, config, trace)))
  {
    if trace == [] {
      NewFramesFollow(isPage, config);
    } else {
      var before, e := Front(trace), Last(trace);
      RunBefore(isPage, config, trace);
      OnlyTargetPollsBefore(trace);
      FramesRun(isPage, config, before);
      var s := R.Run(isPage, config, before).target;
      PartsAppend(Queued(isPage, config, before), Queues(s, e));
      hide R.Run, TargetSpec.Step, FramesFollow, F.WellShaped, NavigationsOf, Queues, FramesSeen;
      StepFramesFollow(s, e, FrameTrace(isPage, config, before), NavigationsOf(Queued(isPage, config, before)));
    }
  }

  lemma NewFramesFollow(isPage: bool, config: Config)
    ensures FramesFollow(NewTarget(isPage, config).frames, [], NavigationsOf([]))
  {
    FH.NothingKnown();
  }

  // ---------- Everything is passed on ----------

  /** In every run of a target, the network commands that it passed on and that it holds, followed by those that its network
    * manager holds, are all that the network manager put out for the events handed to it, in order. */
  lemma NetworkCommandsArePassedOn(isPage: bool, config: Config, trace: seq<Event>)
    requires R.Run(isPage, config, trace).Alive? && OnlyTargetPolls(trace)
    ensures var s, seen := R.Run(isPage, config, trace).target, NetworkTrace(isPage, config, trace);
            && N.Run(seen) == s.network
            && CommandsOf(Passed(isPage, config, trace) + s.queue) + Commands(s.network.queue) == Commands(NH.PutOut(seen))
  {
    hide R.Run, Commands, CommandsOf, N.Run, N.Taken;
    NetworkRuns(isPage, config, trace);
    FirstInFirstOut(isPage, config, trace);
    var seen := NetworkTrace(isPage, config, trace);
    NH.EverythingPutOut(seen);
    CommandsAppend(N.Taken(seen), N.Run(seen).queue);
  }

  /** In every run of a target, the navigations and results that it passed on and that it holds are all that its frame
    * manager gave for the events handed to it, in order. */
  lemma NavigationsArePassedOn(isPage: bool, config: Config, trace: seq<Event>)
    requires R.Run(isPage, config, trace).Alive? && OnlyTargetPolls(trace)
    ensures var s, seen := R.Run(isPage, config, trace).target, FrameTrace(isPage, config, trace);
            && FR.Run(seen) == F.Outcome.Alive(s.frames)
            && NavigationsOf(Passed(isPage, config, trace) + s.queue) == FA.PutOut(FH.Unfolded(seen))
  {
    hide R.Run, NavigationsOf, FR.Run, Q.Outputs;
    FramesRun(isPage, config, trace);
    FirstInFirstOut(isPage, config, trace);
    FA.EverythingPutOut(FrameTrace(isPage, config, trace));
  }

  /** The commands that the page sent, as far as they were read. */
  ghost function PageCommandsRead(isPage: bool, config: Config, trace: seq<Event>): seq<Ticket> {
    if trace == [] then []
    else
      var before, e := Front(trace), Last(trace);
      var o := R.Run(isPage, config, before);
      PageCommandsRead(isPage, config, before) +
      if o.Alive? && HasRound(o.target, e) && Advance(o.target, e.now, e.order).target.hasPage then Senders(e.msgs) else []
  }

  lemma {:induction false} PagesQueued(isPage: bool, config: Config, trace: seq<Event>)
    requires R.Run(isPage, config, trace).Alive?
    ensures PagesOf(Queued(isPage, config, trace)) == PageCommandsRead(isPage, config, trace)
  {
    if trace == [] {
      NothingOf();
    } else {
      var before, e := Front(trace), Last(trace);
      RunBefore(isPage, config, trace);
      PagesQueued(isPage, config, before);
      var s := R.Run(isPage, config, before).target;
      PartsAppend(Queued(isPage, config, before), Queues(s, e));
      StepQueuesNavigations(s, e);
      hide R.Run, TargetSpec.Step, F.WellShaped, PagesOf, Queues, Advance, Senders;
    }
  }

  /** In every run of a target, the commands of its page that it passed on and that it holds are those it read, in order. */
  lemma PageCommandsArePassedOn(isPage: bool, config: Config, trace: seq<Event>)
    requires R.Run(isPage, config, trace).Alive?
    ensures PagesOf(Passed(isPage, config, trace) + R.Run(isPage, config, trace).target.queue) ==
            PageCommandsRead(isPage, config, trace)
  {
    hide R.Run, PagesOf;
    PagesQueued(isPage, config, trace);
    FirstInFirstOut(isPage, config, trace);
  }

  // ---------- The main frame ----------

  /** The request of the main frame, if that is tracked and loaded, from what was reported of it. */
  ghost function MainRequest(seen: seq<F.Event>): Option<Option<HttpRequest>> {
    match FH.Main(seen)
    case None => None
    case Some(main) =>
      if FH.Path(seen, main).Some? && "load" in FH.RecordOf(seen, main).lifecycle then Some(FH.RecordOf(seen, main).request)
      else None
  }

  /** In every run of a target, whether the main frame counts as loaded, and with which request, follows from what was
    * reported of the frames. */
  lemma MainFrameInEveryRun(isPage: bool, config: Config, trace: seq<Event>)
    requires R.Run(isPage, config, trace).Alive? && OnlyTargetPolls(trace)
    ensures R.Run(isPage, config, trace).target.LoadedMainFrame() ==
            MainRequest(FH.Unfolded(FrameTrace(isPage, config, trace)))
  {
    hide R.Run, NavigationsOf;
    var s, seen := R.Run(isPage, config, trace).target, FrameTrace(isPage, config, trace);
    FramesRun(isPage, config, trace);
    FH.UnfoldedRuns(seen);
    FH.UnfoldsPlainly(seen);
    FH.KnownInEveryRun(FH.Unfolded(seen));
    KnownMain(s, FH.Unfolded(seen));
  }

  lemma KnownMain(s: Target, seen: seq<F.Event>)
    requires FH.Known(s.frames, seen)
    ensures s.LoadedMainFrame() == MainRequest(seen)
  {
    if s.frames.mainFrame.Some? {
      assert FH.PathFits(s.frames.frames, seen, s.frames.mainFrame.value);
    }
    hide FH.RecordOf, FH.Path;
  }
}
