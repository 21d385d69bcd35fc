/** Runs of a target: its initialisation follows a fixed program, one command at a time. */
module TargetRuns {
  import opened Options
  import opened Identifiers
  import opened Http
  import Navigation
  import opened ChainSpec
  import opened TargetSpec
  import F = FrameManagerSpec
  import O = FrameOps
  import T = FrameTable
  import N = NetworkSpec
  import Q = FrameQueue

  type Event = TargetSpec.Event

  /** The order in which a batch of commands lists the tracked frames. */
  type Order = seq<FrameId>

  ghost function Run(isPage: bool, config: Config, trace: seq<Event>): (r: Outcome)
    ensures r.Alive? ==> F.WellShaped(r.target.frames) && r.target.config == config && r.target.isPage == isPage
  {
    if |trace| == 0 then Alive(NewTarget(isPage, config))
    else match Run(isPage, config, trace[..|trace| - 1])
         case Panicked => Panicked
         case Alive(s) => StepKeepsShape(s, trace[|trace| - 1]); TargetSpec.Step(s, trace[|trace| - 1])
  }

  lemma StepKeepsShape(s: Target, e: Event)
    requires F.WellShaped(s.frames)
    ensures TargetSpec.Step(s, e).Alive? ==>
      var s' := TargetSpec.Step(s, e).target;
      F.WellShaped(s'.frames) && s'.config == s.config && s'.isPage == s.isPage
  {
    match e
    case FrameEventArrived(ev) => F.StepKeepsShape(s.frames, ev);
    case ResponseArrived(identifier, tree) => if tree.Some? { F.StepKeepsShape(s.frames, F.FrameTreeReceived(tree.value)); }
    case PollRequested(now, order, msgs, clocks) => PollKeepsShape(s, now, order, msgs, clocks);
    case _ =>
  }

  /** The rest of a poll passes events on. It does not touch the initialisation. */
  lemma DrainKeepsShape(s: Target, now: nat, msgs: seq<PageMessage>, clocks: nat -> nat)
    requires F.WellShaped(s.frames)
    ensures var t := Drain(s, now, msgs, clocks).target;
            F.WellShaped(t.frames) && Same(s, t)
  {
    NotifyKeepsFrames(s);
    NotifyKeepsRest(s);
    var s1 := NotifyWaiters(s);
    if s1.queue == [] {
      var s2 := Round(s1, now, msgs, clocks);
      RoundKeeps(s1, now, msgs, clocks);
      NotifyKeepsFrames(s2);
      NotifyKeepsRest(s2);
    }
  }

  /** All that the initialisation depends on is the same. */
  predicate Same(s: Target, t: Target) {
    && t.config == s.config && t.isPage == s.isPage && t.init == s.init && t.session == s.session
    && t.initiator == s.initiator && t.frames.isolatedWorlds == s.frames.isolatedWorlds
  }

  lemma {:induction false} NotifyKeepsRest(s: Target)
    ensures Same(s, NotifyWaiters(s))
    decreases |s.waiters|
  {
    if s.LoadedMainFrame().Some? && s.waiters != [] {
      var last := |s.waiters| - 1;
      NotifyKeepsRest(s.(waiters := s.waiters[..last]).Reply(Loaded(s.waiters[last], s.LoadedMainFrame().value)));
    }
  }

  lemma {:induction false} MessagesKeep(s: Target, msgs: seq<PageMessage>)
    ensures Same(s, OnMessages(s, msgs))
  {
    if msgs != [] {
      MessagesKeep(s, msgs[..|msgs| - 1]);
    }
  }

  lemma {:induction false} NetworkDrainKeeps(s: Target)
    requires F.WellShaped(s.frames)
    ensures Same(s, DrainNetwork(s)) && DrainNetwork(s).network.queue == []
    decreases |s.network.queue|
  {
    if s.network.queue != [] {
      var s1 := s.(network := N.Step(s.network, N.Polled));
      NetworkEventKeepsShape(s1, s.network.queue[0]);
      NetworkDrainKeeps(OnNetworkEvent(s1, s.network.queue[0]));
    }
  }

  lemma {:induction false} FramesDrainKeeps(s: Target, now: nat, clocks: nat -> nat, k: nat)
    requires F.WellShaped(s.frames)
    ensures Same(s, DrainFrames(s, now, clocks, k))
    ensures DrainFrames(s, now, clocks, k).network == s.network
    ensures s.queue <= DrainFrames(s, now, clocks, k).queue
    decreases Q.Backlog(s.frames)
  {
    var p := F.Poll(s.frames, now, clocks(k));
    Q.PollDrains(s.frames, now, clocks(k));
    F.PollKeepsFrames(s.frames, now, clocks(k));
    if p.event.Some? {
      FramesDrainKeeps(s.(frames := p.manager).Push(FromFrames(p.event.value)), now, clocks, k + 1);
    }
  }

  lemma RoundKeeps(s: Target, now: nat, msgs: seq<PageMessage>, clocks: nat -> nat)
    requires F.WellShaped(s.frames)
    ensures Same(s, Round(s, now, msgs, clocks))
  {
    hide Same;
    var s1 := if s.hasPage then OnMessages(s, msgs) else s;
    MessagesKeepFrames(s, msgs);
    MessagesKeep(s, msgs);
    NetworkDrainKeeps(s1);
    FramesDrainKeeps(DrainNetwork(s1), now, clocks, 0);
    SameTransitive(s, s1, DrainNetwork(s1));
    SameTransitive(s, DrainNetwork(s1), Round(s, now, msgs, clocks));
  }

  lemma SameTransitive(a: Target, b: Target, c: Target)
    requires (a == b || Same(a, b)) && Same(b, c)
    ensures Same(a, c)
  {
  }

  lemma PollKeepsShape(s: Target, now: nat, order: Order, msgs: seq<PageMessage>, clocks: nat -> nat)
    requires F.WellShaped(s.frames)
    ensures var t := TargetSpec.Poll(s, now, order, msgs, clocks).target;
            F.WellShaped(t.frames) && t.config == s.config && t.isPage == s.isPage
  {
    hide Advance, Drain;
    AdvanceKeepsFrames(s, now, order);
    var a := Advance(s, now, order);
    if a.move.Proceed? {
      DrainKeepsShape(a.target, now, msgs, clocks);
    }
  }

  // ---------- What a run sends for the initialisation ----------

  ghost function CommandOf(move: Move): seq<Command> {
    match move
    case Attach => [AttachToTarget]
    case Send(cmd) => [cmd]
    case GiveUp => [CloseTarget]
    case _ => []
  }

  /** The commands of the initialisation that a run has sent. */
  ghost function Emitted(isPage: bool, config: Config, trace: seq<Event>): seq<Command> {
    if |trace| == 0 then []
    else
      var before := trace[..|trace| - 1];
      Emitted(isPage, config, before) + EmittedBy(Run(isPage, config, before), trace[|trace| - 1])
  }

  ghost function EmittedBy(o: Outcome, e: Event): seq<Command> {
    if o.Alive? && e.PollRequested? then CommandOf(Advance(o.target, e.now, e.order).move) else []
  }

  /** The orders in which isolated-world batches listed the frames tracked at their time. */
  ghost function Batches(isPage: bool, config: Config, trace: seq<Event>): seq<Order> {
    if |trace| == 0 then []
    else
      var before := trace[..|trace| - 1];
      Batches(isPage, config, before) + BatchBy(Run(isPage, config, before), trace[|trace| - 1])
  }

  ghost function BatchBy(o: Outcome, e: Event): seq<Order> {
    if o.Alive? && e.PollRequested? then BatchOf(o.target, Advance(o.target, e.now, e.order).target, e.order) else []
  }

  /** The initialisation set up the isolated world between two states. */
  function BatchOf(s: Target, t: Target, order: Order): seq<Order> {
    if WorldMissing(s) == 1 && WorldMissing(t) == 0 then [order] else []
  }

  /** Commands sent by a chain and the responses that let it go on. */
  ghost function Turns(isPage: bool, config: Config, trace: seq<Event>): seq<Turn> {
    if |trace| == 0 then []
    else
      var before := trace[..|trace| - 1];
      Turns(isPage, config, before) + TurnBy(Run(isPage, config, before), trace[|trace| - 1])
  }

  ghost function TurnBy(o: Outcome, e: Event): seq<Turn> {
    if o.Panicked? then []
    else match e
      case PollRequested(now, order, _, _) => TurnOf(Advance(o.target, now, order).move, now)
      case ResponseArrived(identifier, _) =>
        if o.target.init.HasChain() && Answers(o.target.init.chain, identifier) then [Answered(identifier)] else []
      case _ => []
  }

  function TurnOf(move: Move, now: nat): seq<Turn> {
    if move.Send? then [Issued(move.cmd, now)] else []
  }

  // ---------- The program ----------

  /** A batch: the world for documents to come, then for each frame listed. */
  function Batch(order: Order): seq<Command> {
    [AddScriptToEvaluateOnNewDocument] + seq(|order|, i requires 0 <= i < |order| => CreateIsolatedWorld(order[i]))
  }

  function BatchCommands(batches: seq<Order>): seq<Command> {
    if batches == [] then [] else BatchCommands(batches[..|batches| - 1]) + Batch(batches[|batches| - 1])
  }

  function FrameStage(batches: seq<Order>): seq<Command> {
    [AttachToTarget, PageEnable, GetFrameTree, SetLifecycleEventsEnabled, RuntimeEnable] + BatchCommands(batches)
  }

  function NetworkStage(config: Config, batches: seq<Order>): seq<Command> {
    FrameStage(batches) + if config.ignoreHttpsErrors then [NetworkEnable, SetIgnoreCertificateErrors] else [NetworkEnable]
  }

  function PageStage(config: Config, batches: seq<Order>): seq<Command> {
    NetworkStage(config, batches) + [SetAutoAttach, PerformanceEnable, LogEnable]
  }

  /** The whole program of the initialisation. */
  function Program(config: Config, batches: seq<Order>): seq<Command> {
    PageStage(config, batches) +
    if config.hasViewport then [SetDeviceMetricsOverride, SetTouchEmulationEnabled] else []
  }

  /** The program up to the end of the current stage. */
  function Upto(init: TargetInit, config: Config, batches: seq<Order>): seq<Command> {
    match init
    case InitializingFrame(_) => FrameStage(batches)
    case InitializingNetwork(_) => NetworkStage(config, batches)
    case InitializingPage(_) => PageStage(config, batches)
    case _ => Program(config, batches)
  }

  lemma UptoIsPrefix(init: TargetInit, config: Config, batches: seq<Order>)
    ensures Upto(init, config, batches) <= Program(config, batches)
  {
    hide FrameStage;
  }

  /** How far a target is: what was sent is the program up to its stage, except for what its chain still holds. */
  ghost predicate OnProgram(s: Target, emitted: seq<Command>, batches: seq<Order>, turns: seq<Turn>) {
    && |batches| <= 1 && (batches != [] ==> WorldMissing(s) == 0)
    && InTurn(turns)
    && match s.init
       case Attaching => emitted == [] && turns == [] && batches == []
       case Initialized =>
         emitted == Program(s.config, batches) && emitted == [AttachToTarget] + IssuedIn(turns) && |turns| % 2 == 0
       case Closing =>
         && |emitted| > 0 && emitted[|emitted| - 1] == CloseTarget
         && emitted[..|emitted| - 1] <= Program(s.config, batches)
         && emitted == [AttachToTarget] + IssuedIn(turns) + [CloseTarget]
       case _ =>
         && emitted + s.init.chain.cmds == Upto(s.init, s.config, batches)
         && emitted == [AttachToTarget] + IssuedIn(turns)
         && Awaits(s.init.chain, turns) && s.init.chain.timeout == s.config.timeout
  }

  /** A stage whose chain is done hands over to the next one. */
  lemma NextStageOnProgram(s: Target, order: Order, emitted: seq<Command>, batches: seq<Order>,
                           turns: seq<Turn>)
    requires s.init.HasChain() && s.init.chain.cmds == [] && s.init.chain.waiting.None?
    requires OnProgram(s, emitted, batches, turns)
    ensures OnProgram(NextStage(s, order), emitted, batches + BatchOf(s, NextStage(s, order), order), turns)
  {
    hide InTurn, IssuedIn, FrameStage;
    assert emitted + [] == emitted;
    if s.init.InitializingFrame? && WorldMissing(s) == 1 {
      WorldBatchOnProgram(s, order, emitted, batches, turns);
    } else {
      assert batches + [] == batches;
      assert PageStage(s.config, batches) + [] == PageStage(s.config, batches);
    }
  }

  lemma WorldBatchOnProgram(s: Target, order: Order, emitted: seq<Command>, batches: seq<Order>, turns: seq<Turn>)
    requires s.init.InitializingFrame? && s.init.chain.cmds == [] && s.init.chain.waiting.None? && WorldMissing(s) == 1
    requires OnProgram(s, emitted, batches, turns)
    ensures OnProgram(NextStage(s, order), emitted, batches + [order], turns)
  {
    hide InTurn, IssuedIn, F.WorldBatch, FrameStage, F.EnsureIsolatedWorld;
    assert batches == [] && batches + [order] == [order];
    assert emitted + [] == emitted;
    FrameStageWithBatch(order);
    WorldThere(s);
    assert |NextStage(s, order).init.chain.cmds| == |F.WorldBatch(order)|;
  }

  lemma FrameStageWithBatch(order: Order)
    ensures FrameStage([order]) == FrameStage([]) + F.WorldBatch(order)
  {
    assert [order][..0] == [];
    assert Batch(order) == F.WorldBatch(order);
    assert BatchCommands([order]) == [] + Batch(order) == Batch(order);
    var first := [AttachToTarget, PageEnable, GetFrameTree, SetLifecycleEventsEnabled, RuntimeEnable];
    assert first + [] == first;
  }

  lemma WorldThere(s: Target)
    ensures F.UTILITY_WORLD_NAME in F.EnsureIsolatedWorld(s.frames, F.UTILITY_WORLD_NAME).isolatedWorlds
  {
  }

  lemma NextStageDescends(s: Target, order: Order)
    requires s.init.HasChain()
    ensures var t := NextStage(s, order);
            Rank(t.init) < Rank(s.init) || (Rank(t.init) == Rank(s.init) && WorldMissing(t) < WorldMissing(s))
  {
  }

  lemma AttachOnProgram(s: Target, emitted: seq<Command>, batches: seq<Order>, turns: seq<Turn>)
    requires OnProgram(s, emitted, batches, turns) && s.init.Attaching?
    ensures OnProgram(s.(init := InitializingFrame(NewChain(FRAME_COMMANDS, s.config.timeout))),
                      emitted + [AttachToTarget], batches, turns)
  {
    assert [] + [AttachToTarget] == [AttachToTarget] == [AttachToTarget] + [];
    assert [AttachToTarget] + FRAME_COMMANDS ==
      [AttachToTarget, PageEnable, GetFrameTree, SetLifecycleEventsEnabled, RuntimeEnable] + [];
  }

  lemma SendOnProgram(s: Target, now: nat, emitted: seq<Command>, batches: seq<Order>, turns: seq<Turn>)
    requires OnProgram(s, emitted, batches, turns) && s.init.HasChain() && ChainSpec.Poll(s.init.chain, now).next.Issue?
    ensures var p := ChainSpec.Poll(s.init.chain, now);
            OnProgram(s.(init := s.init.With(p.chain)), emitted + [p.next.cmd], batches, turns + [Issued(p.next.cmd, now)])
  {
    hide InTurn, IssuedIn, FrameStage, NetworkStage, PageStage, Program;
    var chain := s.init.chain;
    var cmd := chain.cmds[0];
    StepAwaits(chain, ChainSpec.PollRequested(now), turns);
    IssuedOneMore(turns, Issued(cmd, now));
    assert Awaits(ChainSpec.Poll(chain, now).chain, turns + [Issued(cmd, now)]);
    assert chain.cmds == [cmd] + chain.cmds[1..];
    assert emitted + [cmd] + chain.cmds[1..] == emitted + chain.cmds;
    assert [AttachToTarget] + (IssuedIn(turns) + [cmd]) == [AttachToTarget] + IssuedIn(turns) + [cmd];
  }

  lemma GiveUpOnProgram(s: Target, emitted: seq<Command>, batches: seq<Order>, turns: seq<Turn>)
    requires OnProgram(s, emitted, batches, turns) && s.init.HasChain()
    ensures OnProgram(OnInitializationFailed(s), emitted + [CloseTarget], batches, turns)
  {
    UptoIsPrefix(s.init, s.config, batches);
    hide InTurn, IssuedIn, Upto, Program;
    assert emitted <= emitted + s.init.chain.cmds;
    assert (emitted + [CloseTarget])[..|emitted|] == emitted;
  }

  /** Of a poll that goes through several stages, at most one sets up the isolated world. */
  lemma {:induction false} BatchesAddUp(s: Target, now: nat, order: Order, batches: seq<Order>)
    requires s.init.HasChain()
    ensures var s1 := NextStage(s, order);
            var t := Advance(s1, now, order).target;
            batches + BatchOf(s, s1, order) + BatchOf(s1, t, order) == batches + BatchOf(s, t, order)
  {
    WorldsGrow(NextStage(s, order), now, order);
  }

  lemma {:induction false} WorldsGrow(s: Target, now: nat, order: Order)
    ensures WorldMissing(Advance(s, now, order).target) <= WorldMissing(s)
    decreases Rank(s.init), WorldMissing(s)
  {
    if s.init.HasChain() {
      WorldsGrow(NextStage(s, order), now, order);
    }
  }

  /** The initialisation part of a poll keeps to the program: a command is sent only if the one before was answered. */
  lemma {:induction false} AdvanceOnProgram(s: Target, now: nat, order: Order, emitted: seq<Command>,
                                            batches: seq<Order>, turns: seq<Turn>)
    requires OnProgram(s, emitted, batches, turns)
    ensures var a := Advance(s, now, order);
            OnProgram(a.target, emitted + CommandOf(a.move), batches + BatchOf(s, a.target, order),
                      turns + TurnOf(a.move, now))
    decreases Rank(s.init), WorldMissing(s)
  {
    hide InTurn, IssuedIn, Upto, Program, Awaits, NextStage;
    assert batches + [] == batches && turns + [] == turns && emitted + [] == emitted;
    if s.isPage && s.init.Attaching? {
      AttachOnProgram(s, emitted, batches, turns);
    } else if s.isPage && s.init.HasChain() && !(s.init.InitializingFrame? && s.session.None?) {
      match ChainSpec.Poll(s.init.chain, now).next
      case Pending =>
      case Issue(cmd) => SendOnProgram(s, now, emitted, batches, turns);
      case Exceeded(_, _) => GiveUpOnProgram(s, emitted, batches, turns);
      case Exhausted =>
        NextStageOnProgram(s, order, emitted, batches, turns);
        NextStageDescends(s, order);
        AdvanceOnProgram(NextStage(s, order), now, order, emitted, batches + BatchOf(s, NextStage(s, order), order), turns);
        BatchesAddUp(s, now, order, batches);
    }
  }

  // ---------- Every event keeps to the program ----------

  lemma {:induction false} TreeKeepsWorlds(m: F.Manager, tree: F.BrowserFrameTree)
    ensures F.OnFrameTree(m, tree).Alive? ==> F.OnFrameTree(m, tree).manager.isolatedWorlds == m.isolatedWorlds
    decreases tree, 1
  {
    var o := F.OnFrameNavigated(F.OnFrameAttached(m, tree.frame.id, tree.frame.parentId), tree.frame);
    if o.Alive? {
      TreesKeepWorlds(o.manager, tree.children);
    }
  }

  lemma {:induction false} TreesKeepWorlds(m: F.Manager, trees: seq<F.BrowserFrameTree>)
    ensures F.OnFrameTrees(m, trees).Alive? ==> F.OnFrameTrees(m, trees).manager.isolatedWorlds == m.isolatedWorlds
    decreases trees, 0
  {
    if trees != [] {
      TreeKeepsWorlds(m, trees[0]);
      if F.OnFrameTree(m, trees[0]).Alive? {
        TreesKeepWorlds(F.OnFrameTree(m, trees[0]).manager, trees[1..]);
      }
    }
  }

  /** Isolated worlds are never forgotten. */
  lemma FrameEventsKeepWorlds(m: F.Manager, ev: F.Event)
    requires T.Forest(m.frames)
    ensures F.Step(m, ev).Alive? ==> m.isolatedWorlds <= F.Step(m, ev).manager.isolatedWorlds
  {
    hide F.OnFrameTree, T.Forest, O.Attached, T.Pruned, O.Bared;
    if ev.FrameTreeReceived? {
      TreeKeepsWorlds(m, ev.tree);
    }
  }

  lemma StepOnProgram(s: Target, e: Event, emitted: seq<Command>, batches: seq<Order>, turns: seq<Turn>)
    requires F.WellShaped(s.frames) && OnProgram(s, emitted, batches, turns)
    ensures var o := TargetSpec.Step(s, e);
            o.Alive? ==> OnProgram(o.target, emitted + EmittedBy(Alive(s), e), batches + BatchBy(Alive(s), e),
                                   turns + TurnBy(Alive(s), e))
  {
    hide InTurn, IssuedIn, Upto, Program, Awaits, Advance, F.Step, F.OnFrameTree, N.Step, TargetSpec.Poll;
    assert batches + [] == batches && turns + [] == turns && emitted + [] == emitted;
    match e
    case FrameEventArrived(ev) => FrameEventsKeepWorlds(s.frames, ev);
    case ResponseArrived(identifier, tree) => ResponseOnProgram(s, identifier, tree, emitted, batches, turns);
    case PollRequested(now, order, msgs, clocks) => PollOnProgram(s, e, emitted, batches, turns);
    case _ =>
  }

  lemma ResponseOnProgram(s: Target, identifier: string, tree: Option<F.BrowserFrameTree>, emitted: seq<Command>,
                          batches: seq<Order>, turns: seq<Turn>)
    requires F.WellShaped(s.frames) && OnProgram(s, emitted, batches, turns)
    ensures var o := OnResponse(s, identifier, tree);
            o.Alive? ==> OnProgram(o.target, emitted, batches, turns + TurnBy(Alive(s), ResponseArrived(identifier, tree)))
  {
    hide InTurn, IssuedIn, Upto, Program, F.OnFrameTree, Awaits, Command.Identifier, ReceivedResponse;
    assert turns + [] == turns;
    if tree.Some? {
      TreeKeepsWorlds(s.frames, tree.value);
    }
    if s.init.HasChain() {
      AnswerOnProgram(s, identifier, emitted, batches, turns);
    }
  }

  lemma AnswerOnProgram(s: Target, identifier: string, emitted: seq<Command>, batches: seq<Order>, turns: seq<Turn>)
    requires OnProgram(s, emitted, batches, turns) && s.init.HasChain()
    ensures OnProgram(s.(init := s.init.With(ReceivedResponse(s.init.chain, identifier))), emitted, batches,
                      turns + if Answers(s.init.chain, identifier) then [Answered(identifier)] else [])
  {
    hide InTurn, IssuedIn, FrameStage, NetworkStage, PageStage, Program;
    assert turns + [] == turns;
    StepAwaits(s.init.chain, ChainSpec.ResponseReceived(identifier), turns);
    if Answers(s.init.chain, identifier) {
      IssuedOneMore(turns, Answered(identifier));
    }
    assert IssuedIn(turns) + [] == IssuedIn(turns);
  }

  lemma PollOnProgram(s: Target, e: Event, emitted: seq<Command>, batches: seq<Order>, turns: seq<Turn>)
    requires F.WellShaped(s.frames) && OnProgram(s, emitted, batches, turns) && e.PollRequested?
    ensures var t := TargetSpec.Step(s, e).target;
            OnProgram(t, emitted + EmittedBy(Alive(s), e), batches + BatchBy(Alive(s), e), turns + TurnBy(Alive(s), e))
  {
    hide InTurn, IssuedIn, Upto, Program, Awaits, Advance, Drain;
    AdvanceOnProgram(s, e.now, e.order, emitted, batches, turns);
    AdvanceKeepsFrames(s, e.now, e.order);
    var a := Advance(s, e.now, e.order);
    if a.move.Proceed? {
      DrainKeepsShape(a.target, e.now, e.msgs, e.clocks);
    }
  }

  /** In every run the commands of the initialisation follow one fixed program, with at most one isolated-world batch.
    * What was sent is the program up to the current stage, less what the chain of that stage still holds; a target that
    * gave up sent a prefix of the program and the command to close it. And commands take turns with their responses. */
  lemma {:induction false} InitialisationFollowsProgram(isPage: bool, config: Config, trace: seq<Event>)
    requires Run(isPage, config, trace).Alive?
    ensures OnProgram(Run(isPage, config, trace).target, Emitted(isPage, config, trace), Batches(isPage, config, trace),
                      Turns(isPage, config, trace))
  {
    if |trace| > 0 {
      hide OnProgram, TargetSpec.Step, EmittedBy, BatchBy, TurnBy;
      var before := trace[..|trace| - 1];
      InitialisationFollowsProgram(isPage, config, before);
      StepOnProgram(Run(isPage, config, before).target, trace[|trace| - 1], Emitted(isPage, config, before),
                    Batches(isPage, config, before), Turns(isPage, config, before));
    }
  }

  /** Whatever is sent keeps to the program: it is a prefix, up to the command that closes a target that gave up. */
  lemma SentIsPrefixOfProgram(isPage: bool, config: Config, trace: seq<Event>)
    requires Run(isPage, config, trace).Alive?
    ensures var s, sent := Run(isPage, config, trace).target, Emitted(isPage, config, trace);
            var program := Program(config, Batches(isPage, config, trace));
            && |Batches(isPage, config, trace)| <= 1
            && (if s.init.Closing? then |sent| > 0 && sent[|sent| - 1] == CloseTarget && sent[..|sent| - 1] <= program
                else sent <= program)
            && (s.init.Initialized? ==> sent == program)
  {
    InitialisationFollowsProgram(isPage, config, trace);
    var s := Run(isPage, config, trace).target;
    UptoIsPrefix(s.init, config, Batches(isPage, config, trace));
    hide Upto, Program;
    if s.init.HasChain() {
      assert Emitted(isPage, config, trace) <= Emitted(isPage, config, trace) + s.init.chain.cmds;
    }
  }

  /** An isolated-world batch has exactly one command for every tracked frame, besides the one for future documents. */
  lemma {:induction false} OneWorldPerFrame(order: Order, ids: set<FrameId>, id: FrameId)
    requires F.Enumerates(order, ids)
    ensures multiset(F.WorldBatch(order))[CreateIsolatedWorld(id)] == if id in ids then 1 else 0
    ensures |F.WorldBatch(order)| == |ids| + 1
  {
    CountWorlds(order, id);
    assert multiset(order)[id] == multiset(ids)[id];
    assert |order| == |multiset(order)| == |multiset(ids)| == |ids|;
  }

  lemma {:induction false} CountWorlds(order: Order, id: FrameId)
    ensures multiset(F.WorldBatch(order))[CreateIsolatedWorld(id)] == multiset(order)[id]
  {
    if order == [] {
      assert F.WorldBatch(order) == [AddScriptToEvaluateOnNewDocument];
    } else {
      var rest, last := order[..|order| - 1], order[|order| - 1];
      CountWorlds(rest, id);
      assert F.WorldBatch(order) == F.WorldBatch(rest) + [CreateIsolatedWorld(last)];
      assert order == rest + [last];
    }
  }

  /** When a poll sets up the isolated world, it does so for each frame tracked at that time, once. */
  lemma WorldsForTrackedFrames(s: Target, e: Event, id: FrameId)
    requires Possible(s, e) && BatchBy(Alive(s), e) != []
    ensures BatchBy(Alive(s), e) == [e.order]
    ensures multiset(F.WorldBatch(e.order))[CreateIsolatedWorld(id)] == if id in s.frames.frames then 1 else 0
  {
    OneWorldPerFrame(e.order, s.frames.frames.Keys, id);
  }

  // ---------- Giving up ----------

  /** Initialisation fails exactly when the last command was sent more than the timeout ago and is not answered. */
  lemma GivesUpExactlyWhen(isPage: bool, config: Config, trace: seq<Event>, now: nat, order: Order)
    requires Run(isPage, config, trace).Alive?
    ensures var s, turns := Run(isPage, config, trace).target, Turns(isPage, config, trace);
            var a := Advance(s, now, order);
            && (a.move.GiveUp? <==>
                  && isPage && s.init.HasChain() && (s.init.InitializingFrame? ==> s.session.Some?)
                  && |turns| % 2 == 1 && turns[|turns| - 1].Issued? && now > turns[|turns| - 1].at + config.timeout)
            && (a.move.GiveUp? ==>
                  && a.target.init.Closing? && a.target.initiator.None?
                  && a.target.replies == s.replies + (if s.initiator.Some? then [InitTimedOut(s.initiator.value)] else []))
  {
    hide Advance, InTurn, IssuedIn, Upto, Program;
    InitialisationFollowsProgram(isPage, config, trace);
    GivesUpWhenLate(Run(isPage, config, trace).target, now, order);
  }

  lemma GivesUpWhenLate(s: Target, now: nat, order: Order)
    ensures var a := Advance(s, now, order);
            && (a.move.GiveUp? <==>
                  && s.isPage && s.init.HasChain() && (s.init.InitializingFrame? ==> s.session.Some?)
                  && s.init.chain.waiting.Some? && now > s.init.chain.waiting.value.deadline)
            && (a.move.GiveUp? ==>
                  && a.target.init.Closing? && a.target.initiator.None?
                  && a.target.replies == s.replies + (if s.initiator.Some? then [InitTimedOut(s.initiator.value)] else []))
  {
    if s.init.HasChain() && s.init.chain.waiting.None? && s.init.chain.cmds == [] {
      FreshChainsDoNotFail(NextStage(s, order), now, order);
    }
    assert s.replies + [] == s.replies;
  }

  /** A chain that was just started cannot be late. */
  lemma {:induction false} FreshChainsDoNotFail(s: Target, now: nat, order: Order)
    requires s.init.HasChain() ==> s.init.chain.waiting.None?
    ensures !Advance(s, now, order).move.GiveUp?
    decreases Rank(s.init), WorldMissing(s)
  {
    if s.init.HasChain() {
      NextStageDescends(s, order);
      FreshChainsDoNotFail(NextStage(s, order), now, order);
    }
  }

  /** A closing target stays closing and sends nothing any more. */
  lemma ClosingIsNeverLeft(s: Target, e: Event)
    requires F.WellShaped(s.frames) && s.init.Closing? && TargetSpec.Step(s, e).Alive?
    ensures TargetSpec.Step(s, e).target.init.Closing?
    ensures e.PollRequested? ==> TargetSpec.Poll(s, e.now, e.order, e.msgs, e.clocks) == Outgoing(s, None)
  {
  }

  // ---------- Answering those who ask for the page ----------

  /** Only replies to those who wait for the main frame were added. */
  ghost predicate OnlyLoaded(s: Target, t: Target) {
    && s.replies <= t.replies
    && forall i | |s.replies| <= i < |t.replies| :: t.replies[i].Loaded?
  }

  lemma {:induction false} NotifyOnlyLoads(s: Target)
    ensures OnlyLoaded(s, NotifyWaiters(s))
    decreases |s.waiters|
  {
    if s.LoadedMainFrame().Some? && s.waiters != [] {
      var last := |s.waiters| - 1;
      NotifyOnlyLoads(s.(waiters := s.waiters[..last]).Reply(Loaded(s.waiters[last], s.LoadedMainFrame().value)));
    }
  }

  lemma {:induction false} MessagesOnlyLoad(s: Target, msgs: seq<PageMessage>)
    ensures OnlyLoaded(s, OnMessages(s, msgs))
  {
    if msgs != [] {
      MessagesOnlyLoad(s, msgs[..|msgs| - 1]);
    }
  }

  lemma {:induction false} NetworkDrainIsSilent(s: Target)
    requires F.WellShaped(s.frames)
    ensures DrainNetwork(s).replies == s.replies
    decreases |s.network.queue|
  {
    if s.network.queue != [] {
      var s1 := s.(network := N.Step(s.network, N.Polled));
      NetworkEventKeepsShape(s1, s.network.queue[0]);
      NetworkDrainIsSilent(OnNetworkEvent(s1, s.network.queue[0]));
    }
  }

  lemma {:induction false} FramesDrainIsSilent(s: Target, now: nat, clocks: nat -> nat, k: nat)
    requires F.WellShaped(s.frames)
    ensures DrainFrames(s, now, clocks, k).replies == s.replies
    decreases Q.Backlog(s.frames)
  {
    var p := F.Poll(s.frames, now, clocks(k));
    Q.PollDrains(s.frames, now, clocks(k));
    F.PollKeepsFrames(s.frames, now, clocks(k));
    if p.event.Some? {
      FramesDrainIsSilent(s.(frames := p.manager).Push(FromFrames(p.event.value)), now, clocks, k + 1);
    }
  }

  lemma DrainOnlyLoads(s: Target, now: nat, msgs: seq<PageMessage>, clocks: nat -> nat)
    requires F.WellShaped(s.frames)
    ensures OnlyLoaded(s, Drain(s, now, msgs, clocks).target)
  {
    NotifyKeepsFrames(s);
    NotifyOnlyLoads(s);
    var s1 := NotifyWaiters(s);
    if s1.queue == [] {
      var m := if s1.hasPage then OnMessages(s1, msgs) else s1;
      var s2 := Round(s1, now, msgs, clocks);
      MessagesKeepFrames(s1, msgs);
      MessagesOnlyLoad(s1, msgs);
      NetworkDrainIsSilent(m);
      FramesDrainIsSilent(DrainNetwork(m), now, clocks, 0);
      NotifyKeepsFrames(s2);
      NotifyOnlyLoads(s2);
    }
  }

  /** The initialisation part of a poll replies at most once: with a timeout, or with the page when all is ready. */
  lemma {:induction false} AdvanceReplies(s: Target, now: nat, order: Order)
    ensures var a := Advance(s, now, order);
            || a.target.replies == s.replies
            || (a.move.GiveUp? && s.initiator.Some? && a.target.replies == s.replies + [InitTimedOut(s.initiator.value)])
            || (a.move.Proceed? && a.target.init.Initialized? && s.LoadedMainFrame().Some? && s.initiator.Some?
                && a.target.initiator.None? && a.target.hasPage
                && a.target.replies == s.replies + [PageGiven(s.initiator.value)])
    decreases Rank(s.init), WorldMissing(s)
  {
    if s.init.HasChain() {
      NextStageDescends(s, order);
      AdvanceReplies(NextStage(s, order), now, order);
    }
  }

  lemma OnlyPollsReply(s: Target, e: Event)
    requires F.WellShaped(s.frames) && !e.PollRequested? && TargetSpec.Step(s, e).Alive?
    ensures TargetSpec.Step(s, e).target.replies == s.replies
  {
    hide F.Step, F.OnFrameTree, N.Step;
  }

  /** Step `e` gives the page to `tx`. */
  ghost predicate GivesPage(s: Target, e: Event, tx: Ticket)
    requires F.WellShaped(s.frames)
  {
    var o := TargetSpec.Step(s, e);
    o.Alive? && exists i :: |s.replies| <= i < |o.target.replies| && o.target.replies[i] == PageGiven(tx)
  }

  lemma PageGivenByPoll(s: Target, e: Event, tx: Ticket)
    requires F.WellShaped(s.frames) && GivesPage(s, e, tx)
    ensures e.PollRequested? && s.LoadedMainFrame().Some? && s.initiator == Some(tx)
    ensures var t := TargetSpec.Step(s, e).target; t.init.Initialized? && t.initiator.None?
  {
    if e.PollRequested? {
      hide Advance, Drain;
      AdvanceReplies(s, e.now, e.order);
      AdvanceKeepsFrames(s, e.now, e.order);
      var a := Advance(s, e.now, e.order);
      if a.move.Proceed? {
        DrainOnlyLoads(a.target, e.now, e.msgs, e.clocks);
        DrainKeepsShape(a.target, e.now, e.msgs, e.clocks);
      }
    } else {
      OnlyPollsReply(s, e);
    }
  }

  /** Whoever asked for the page gets it only when the whole program was sent and answered, and the main frame is tracked
    * and loaded. Then nobody waits for it any more. */
  lemma PageOnlyWhenReady(isPage: bool, config: Config, trace: seq<Event>, e: Event, tx: Ticket)
    requires Run(isPage, config, trace).Alive? && GivesPage(Run(isPage, config, trace).target, e, tx)
    ensures var s, longer := Run(isPage, config, trace).target, trace + [e];
            && Run(isPage, config, longer).Alive?
            && Emitted(isPage, config, longer) == Program(config, Batches(isPage, config, longer))
            && |Turns(isPage, config, longer)| % 2 == 0
            && s.LoadedMainFrame().Some? && s.initiator == Some(tx)
            && Run(isPage, config, longer).target.initiator.None?
  {
    var longer := trace + [e];
    assert longer[..|longer| - 1] == trace;
    PageGivenByPoll(Run(isPage, config, trace).target, e, tx);
    InitialisationFollowsProgram(isPage, config, longer);
  }

  /** A poll that passes something on, other than a command of the initialisation, is the poll of an initialised target. */
  lemma PassesOnInitialised(s: Target, now: nat, order: Order, msgs: seq<PageMessage>, clocks: nat -> nat)
    requires F.WellShaped(s.frames)
    requires TargetSpec.Poll(s, now, order, msgs, clocks).event.Some? && CommandOf(Advance(s, now, order).move) == []
    ensures TargetSpec.Poll(s, now, order, msgs, clocks).target.init.Initialized?
  {
    hide Advance, Drain;
    AdvanceKeepsFrames(s, now, order);
    ProceedsWhenInitialised(s, now, order);
    DrainKeepsShape(Advance(s, now, order).target, now, msgs, clocks);
  }

  lemma ProgramCompleted(s: Target, emitted: seq<Command>, batches: seq<Order>, turns: seq<Turn>)
    requires OnProgram(s, emitted, batches, turns) && s.init.Initialized?
    ensures emitted == Program(s.config, batches) && |turns| % 2 == 0
  {
    hide Program;
  }

  lemma RunWithPoll(isPage: bool, config: Config, trace: seq<Event>, e: Event)
    requires Run(isPage, config, trace).Alive? && e.PollRequested?
    ensures var s := Run(isPage, config, trace).target;
            Run(isPage, config, trace + [e]) == Alive(TargetSpec.Poll(s, e.now, e.order, e.msgs, e.clocks).target)
  {
    hide TargetSpec.Poll;
    assert (trace + [e])[..|trace|] == trace;
  }

  /** Events of the managers and of the page are passed on only once the whole program was sent and answered. */
  lemma NothingElseBeforeInitialised(isPage: bool, config: Config, trace: seq<Event>, e: Event)
    requires Run(isPage, config, trace).Alive? && e.PollRequested?
    requires var s := Run(isPage, config, trace).target;
             var ev := TargetSpec.Poll(s, e.now, e.order, e.msgs, e.clocks).event;
             ev.Some? && CommandOf(Advance(s, e.now, e.order).move) == []
    ensures var longer := trace + [e];
            && Emitted(isPage, config, longer) == Program(config, Batches(isPage, config, longer))
            && |Turns(isPage, config, longer)| % 2 == 0
  {
    var longer := trace + [e];
    RunWithPoll(isPage, config, trace, e);
    hide Run, TargetSpec.Poll, Program, OnProgram, Advance, Emitted, Batches, Turns;
    PassesOnInitialised(Run(isPage, config, trace).target, e.now, e.order, e.msgs, e.clocks);
    InitialisationFollowsProgram(isPage, config, longer);
    ProgramCompleted(Run(isPage, config, longer).target, Emitted(isPage, config, longer), Batches(isPage, config, longer),
                     Turns(isPage, config, longer));
  }

  lemma {:induction false} ProceedsWhenInitialised(s: Target, now: nat, order: Order)
    ensures var a := Advance(s, now, order); a.move.Proceed? ==> a.target.init.Initialized?
    decreases Rank(s.init), WorldMissing(s)
  {
    if s.init.HasChain() {
      NextStageDescends(s, order);
      ProceedsWhenInitialised(NextStage(s, order), now, order);
    }
  }

  // ---------- Waiting for the main frame ----------

  function Told(replies: seq<Reply>): multiset<Ticket> {
    if replies == [] then multiset{}
    else Told(replies[..|replies| - 1]) +
         if replies[|replies| - 1].Loaded? then multiset{replies[|replies| - 1].tx} else multiset{}
  }

  function Asking(msgs: seq<PageMessage>): multiset<Ticket> {
    if msgs == [] then multiset{}
    else Asking(msgs[..|msgs| - 1]) +
         if msgs[|msgs| - 1].WaitForNavigation? then multiset{msgs[|msgs| - 1].tx} else multiset{}
  }

  /** Everyone who ever waited for the main frame: they still wait, or were told. */
  function Waiting(s: Target): multiset<Ticket> {
    multiset(s.waiters) + Told(s.replies)
  }

  lemma ToldOneMore(replies: seq<Reply>, r: Reply)
    ensures Told(replies + [r]) == Told(replies) + if r.Loaded? then multiset{r.tx} else multiset{}
  {
    assert (replies + [r])[..|replies|] == replies;
  }

  lemma {:induction false} NotifyTellsOnce(s: Target)
    ensures Waiting(NotifyWaiters(s)) == Waiting(s)
    ensures s.LoadedMainFrame().Some? ==> NotifyWaiters(s).waiters == []
    ensures s.LoadedMainFrame().None? ==> NotifyWaiters(s) == s
    decreases |s.waiters|
  {
    hide Told;
    if s.LoadedMainFrame().Some? && s.waiters != [] {
      var last := |s.waiters| - 1;
      var r := Loaded(s.waiters[last], s.LoadedMainFrame().value);
      assert s.waiters == s.waiters[..last] + [s.waiters[last]];
      ToldOneMore(s.replies, r);
      NotifyTellsOnce(s.(waiters := s.waiters[..last]).Reply(r));
    }
  }

  lemma {:induction false} MessagesTellOnce(s: Target, msgs: seq<PageMessage>)
    ensures Waiting(OnMessages(s, msgs)) == Waiting(s) + Asking(msgs)
  {
    if msgs != [] {
      MessagesTellOnce(s, msgs[..|msgs| - 1]);
      MessageTellsOnce(OnMessages(s, msgs[..|msgs| - 1]), msgs[|msgs| - 1]);
    }
  }

  lemma MessageTellsOnce(s: Target, msg: PageMessage)
    ensures Waiting(OnMessage(s, msg)) == Waiting(s) + if msg.WaitForNavigation? then multiset{msg.tx} else multiset{}
  {
    if msg.WaitForNavigation? && s.LoadedMainFrame().Some? {
      ToldOneMore(s.replies, Loaded(msg.tx, s.LoadedMainFrame().value));
    }
  }

  lemma {:induction false} DrainsKeepWaiters(s: Target, now: nat, clocks: nat -> nat)
    requires F.WellShaped(s.frames)
    ensures DrainNetwork(s).waiters == s.waiters
    decreases |s.network.queue|
  {
    if s.network.queue != [] {
      var s1 := s.(network := N.Step(s.network, N.Polled));
      NetworkEventKeepsShape(s1, s.network.queue[0]);
      DrainsKeepWaiters(OnNetworkEvent(s1, s.network.queue[0]), now, clocks);
    }
  }

  lemma {:induction false} FramesDrainKeepsWaiters(s: Target, now: nat, clocks: nat -> nat, k: nat)
    requires F.WellShaped(s.frames)
    ensures DrainFrames(s, now, clocks, k).waiters == s.waiters
    decreases Q.Backlog(s.frames)
  {
    var p := F.Poll(s.frames, now, clocks(k));
    Q.PollDrains(s.frames, now, clocks(k));
    F.PollKeepsFrames(s.frames, now, clocks(k));
    if p.event.Some? {
      FramesDrainKeepsWaiters(s.(frames := p.manager).Push(FromFrames(p.event.value)), now, clocks, k + 1);
    }
  }

  /** A poll loses and repeats no one who waits for the main frame: those who waited and those who newly ask still wait
    * or are told. Messages are read only from an existing page, when nothing is queued. */
  lemma WaitersAreToldOnce(s: Target, now: nat, msgs: seq<PageMessage>, clocks: nat -> nat)
    requires F.WellShaped(s.frames)
    ensures Waiting(Drain(s, now, msgs, clocks).target) ==
            Waiting(s) + if s.queue == [] && s.hasPage then Asking(msgs) else multiset{}
    ensures s.LoadedMainFrame().Some? && s.queue != [] ==> Drain(s, now, msgs, clocks).target.waiters == []
  {
    hide Told, Asking, Target.LoadedMainFrame;
    NotifyKeepsFrames(s);
    NotifyTellsOnce(s);
    NotifyKeepsPage(s);
    var s1 := NotifyWaiters(s);
    if s1.queue == [] {
      var m := if s1.hasPage then OnMessages(s1, msgs) else s1;
      var s2 := Round(s1, now, msgs, clocks);
      MessagesKeepFrames(s1, msgs);
      MessagesTellOnce(s1, msgs);
      NetworkDrainIsSilent(m);
      DrainsKeepWaiters(m, now, clocks);
      FramesDrainIsSilent(DrainNetwork(m), now, clocks, 0);
      FramesDrainKeepsWaiters(DrainNetwork(m), now, clocks, 0);
      assert Waiting(s2) == Waiting(m);
      NotifyKeepsFrames(s2);
      NotifyTellsOnce(s2);
    }
  }

  lemma {:induction false} NotifyKeepsPage(s: Target)
    ensures NotifyWaiters(s).hasPage == s.hasPage
    decreases |s.waiters|
  {
    if s.LoadedMainFrame().Some? && s.waiters != [] {
      var last := |s.waiters| - 1;
      NotifyKeepsPage(s.(waiters := s.waiters[..last]).Reply(Loaded(s.waiters[last], s.LoadedMainFrame().value)));
    }
  }

  /** Those who ask for the main frame in the messages that a step reads. */
  ghost function AskedBy(s: Target, e: Event): multiset<Ticket> {
    match e
    case PollRequested(now, order, msgs, _) =>
      var a := Advance(s, now, order);
      if a.move.Proceed? && a.target.queue == [] && a.target.hasPage then Asking(msgs) else multiset{}
    case _ => multiset{}
  }

  ghost function Asked(isPage: bool, config: Config, trace: seq<Event>): multiset<Ticket> {
    if |trace| == 0 then multiset{}
    else
      var before := trace[..|trace| - 1];
      Asked(isPage, config, before) +
      if Run(isPage, config, before).Alive? then AskedBy(Run(isPage, config, before).target, trace[|trace| - 1])
      else multiset{}
  }

  lemma {:induction false} AdvanceKeepsWaiters(s: Target, now: nat, order: Order)
    ensures Advance(s, now, order).target.waiters == s.waiters
    decreases Rank(s.init), WorldMissing(s)
  {
    if s.init.HasChain() {
      NextStageDescends(s, order);
      AdvanceKeepsWaiters(NextStage(s, order), now, order);
    }
  }

  lemma AdvanceTellsNoOne(s: Target, now: nat, order: Order)
    ensures Waiting(Advance(s, now, order).target) == Waiting(s)
  {
    hide Advance, Told, Target.LoadedMainFrame;
    AdvanceKeepsWaiters(s, now, order);
    AdvanceReplies(s, now, order);
    if s.initiator.Some? {
      ToldOneMore(s.replies, InitTimedOut(s.initiator.value));
      ToldOneMore(s.replies, PageGiven(s.initiator.value));
    }
  }

  lemma OnlyPollsTell(s: Target, e: Event)
    requires F.WellShaped(s.frames) && !e.PollRequested? && TargetSpec.Step(s, e).Alive?
    ensures Waiting(TargetSpec.Step(s, e).target) == Waiting(s)
  {
    hide F.Step, F.OnFrameTree, N.Step, Told;
    OnlyPollsReply(s, e);
  }

  lemma StepTellsOnce(s: Target, e: Event)
    requires F.WellShaped(s.frames) && TargetSpec.Step(s, e).Alive?
    ensures Waiting(TargetSpec.Step(s, e).target) == Waiting(s) + AskedBy(s, e)
  {
    if e.PollRequested? {
      hide Advance, Drain, Waiting, Asking;
      AdvanceKeepsFrames(s, e.now, e.order);
      AdvanceTellsNoOne(s, e.now, e.order);
      var a := Advance(s, e.now, e.order);
      if a.move.Proceed? {
        WaitersAreToldOnce(a.target, e.now, e.msgs, e.clocks);
      }
    } else {
      hide TargetSpec.Step;
      OnlyPollsTell(s, e);
    }
  }

  /** In every run, whoever asked for the main frame, counted as often as they asked, still waits or was told. */
  lemma {:induction false} WaitersAreToldInEveryRun(isPage: bool, config: Config, trace: seq<Event>)
    requires Run(isPage, config, trace).Alive?
    ensures multiset(Run(isPage, config, trace).target.waiters) + Told(Run(isPage, config, trace).target.replies) ==
            Asked(isPage, config, trace)
  {
    if |trace| == 0 {
      assert Told([]) == multiset{};
    } else {
      hide TargetSpec.Step, AskedBy, Told;
      var before := trace[..|trace| - 1];
      WaitersAreToldInEveryRun(isPage, config, before);
      StepTellsOnce(Run(isPage, config, before).target, trace[|trace| - 1]);
    }
  }

  // ---------- An idle target ----------

  /** No navigation can start or end: none is queued, or one is in flight that is neither late nor complete. */
  ghost predicate Settled(m: F.Manager, now: nat)
    requires F.WellShaped(m)
  {
    && (m.pending != [] ==> m.navigation.Some?)
    && (m.navigation.Some? ==>
          && now <= m.navigation.value.deadline
          && m.navigation.value.watcher.frameId in m.frames
          && Navigation.CheckLifecycleComplete(m.frames, m.navigation.value.watcher,
                                               m.navigation.value.watcher.frameId).None?)
  }

  lemma {:induction false} FramesDrainSettles(s: Target, now: nat, clocks: nat -> nat, k: nat)
    requires F.WellShaped(s.frames)
    ensures Settled(DrainFrames(s, now, clocks, k).frames, now)
    decreases Q.Backlog(s.frames)
  {
    var p := F.Poll(s.frames, now, clocks(k));
    Q.PollDrains(s.frames, now, clocks(k));
    F.PollKeepsFrames(s.frames, now, clocks(k));
    if p.event.Some? {
      FramesDrainSettles(s.(frames := p.manager).Push(FromFrames(p.event.value)), now, clocks, k + 1);
    }
  }

  /** When a poll of an initialised target puts nothing out, nothing is left to pass on, and if navigations are still
    * queued, one is in flight that is neither late nor complete. */
  lemma IdleMeans(s: Target, now: nat, order: Order, msgs: seq<PageMessage>, clocks: nat -> nat)
    requires F.WellShaped(s.frames) && s.isPage && s.init.Initialized?
    requires TargetSpec.Poll(s, now, order, msgs, clocks).event.None?
    ensures var t := TargetSpec.Poll(s, now, order, msgs, clocks).target;
            F.WellShaped(t.frames) && t.queue == [] && t.network.queue == [] && Settled(t.frames, now)
  {
    hide AnswerInitiator, Settled, Same;
    AdvanceKeepsFrames(s, now, order);
    var a := Advance(s, now, order).target;
    NotifyKeepsFrames(a);
    var s1 := NotifyWaiters(a);
    var m := if s1.hasPage then OnMessages(s1, msgs) else s1;
    MessagesKeepFrames(s1, msgs);
    NetworkDrainKeeps(m);
    FramesDrainKeeps(DrainNetwork(m), now, clocks, 0);
    FramesDrainSettles(DrainNetwork(m), now, clocks, 0);
  }

  // ---------- Polling again ----------

  /** Once the isolated world is set up, a poll lists frames no more. */
  lemma {:induction false} OrderUnused(s: Target, now: nat, a: Order, b: Order)
    requires WorldMissing(s) == 0
    ensures Advance(s, now, a) == Advance(s, now, b)
    decreases Rank(s.init)
  {
    if s.init.HasChain() {
      NextStageDescends(s, a);
      OrderUnused(NextStage(s, a), now, a, b);
    }
  }

  /** A poll lists the tracked frames if it sets up the isolated world. */
  ghost predicate Lists(s: Target, now: nat, order: Order) {
    BatchOf(s, Advance(s, now, order).target, order) != [] ==> F.Enumerates(order, s.frames.frames.Keys)
  }

  /** A poll whose chain is done is the poll of the next stage. */
  lemma PollAgain(s: Target, now: nat, order: Order, inner: Order, msgs: seq<PageMessage>, clocks: nat -> nat)
    requires s.isPage && s.init.HasChain() && F.WellShaped(s.frames) && F.WellShaped(NextStage(s, order).frames)
    requires s.init.InitializingFrame? ==> s.session.Some?
    requires s.init.chain.waiting.None? && s.init.chain.cmds == []
    requires BatchOf(s, NextStage(s, order), order) != [] ==> F.Enumerates(order, s.frames.frames.Keys)
    requires Lists(NextStage(s, order), now, inner)
    ensures var o := if BatchOf(s, NextStage(s, order), order) != [] then order else inner;
            && TargetSpec.Poll(s, now, o, msgs, clocks) == TargetSpec.Poll(NextStage(s, order), now, inner, msgs, clocks)
            && Lists(s, now, o)
  {
    hide Drain, F.Enumerates;
    if BatchOf(s, NextStage(s, order), order) != [] {
      OrderUnused(NextStage(s, order), now, order, inner);
    } else {
      assert NextStage(s, order) == NextStage(s, inner);
    }
  }
}
