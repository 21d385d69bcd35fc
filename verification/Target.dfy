/** A target as it runs (src/handler/target.rs:65-595). It owns its managers and the chain of its current stage. */
module Targets {
  import opened Options
  import opened Identifiers
  import opened Http
  import opened Navigation
  import opened ChainSpec
  import opened CommandChains
  import opened FrameManagers
  import opened NetworkManagers
  import opened TargetSpec
  import F = FrameManagerSpec
  import N = NetworkSpec
  import Q = FrameQueue
  import NR = NetworkRuns
  import TR = TargetRuns

  datatype Stage =
    | Attaching
    | InitializingFrame(cmds: CommandChain)
    | InitializingNetwork(cmds: CommandChain)
    | InitializingPage(cmds: CommandChain)
    | InitializingEmulation(cmds: CommandChain)
    | Initialized
    | Closing
  {
    predicate HasChain() {
      InitializingFrame? || InitializingNetwork? || InitializingPage? || InitializingEmulation?
    }
  }

  class Target {
    const isPage: bool
    const config: Config
    const frameManager: FrameManager
    const networkManager: NetworkManager
    var session: Option<string>
    var hasPage: bool
    var stage: Stage
    var queuedEvents: seq<TargetEvent>
    var waiters: seq<Ticket>
    var initiator: Option<Ticket>
    // what was sent to those who asked
    ghost var replies: seq<Reply>

    constructor (isPage: bool, config: Config)
      ensures Valid() && State() == NewTarget(isPage, config)
      ensures fresh(Repr())
    {
      this.isPage, this.config := isPage, config;
      frameManager := new FrameManager();
      var network := new NetworkManager();
      network.SetCacheEnabled(config.cacheEnabled);
      network.SetRequestInterception(config.requestIntercept);
      networkManager := network;
      session, hasPage, stage, queuedEvents, waiters, initiator := None, false, Stage.Attaching, [], [], None;
      replies := [];
    }

    ghost function Repr(): set<object>
      reads this
    {
      {this, frameManager, networkManager} + if stage.HasChain() then {stage.cmds} else {}
    }

    ghost function Init(): TargetInit
      reads this, Repr()
    {
      match stage
      case Attaching => TargetInit.Attaching
      case InitializingFrame(cmds) => TargetInit.InitializingFrame(cmds.State())
      case InitializingNetwork(cmds) => TargetInit.InitializingNetwork(cmds.State())
      case InitializingPage(cmds) => TargetInit.InitializingPage(cmds.State())
      case InitializingEmulation(cmds) => TargetInit.InitializingEmulation(cmds.State())
      case Initialized => TargetInit.Initialized
      case Closing => TargetInit.Closing
    }

    ghost function State(): TargetSpec.Target
      reads this, Repr()
    {
      TargetSpec.Target(isPage, config, session, hasPage, Init(), frameManager.State(), networkManager.State(),
                        queuedEvents, waiters, initiator, replies)
    }

    ghost predicate Valid()
      reads this, Repr()
    {
      frameManager.Valid() && networkManager.Valid()
    }

    // ---------- Events ----------

    method SetInitiator(tx: Ticket)
      requires Valid()
      modifies this`initiator
      ensures Valid() && State() == old(State()).(initiator := Some(tx))
    {
      initiator := Some(tx);
    }

    method CreatePage()
      requires Valid()
      modifies this`hasPage
      ensures Valid() && State() == TargetSpec.CreatePage(old(State()))
    {
      if !hasPage {
        if session.Some? {
          hasPage := true;
        }
      }
    }

    method OnAttachedToTarget(child: string, waitingForDebugger: bool, serviceWorker: bool)
      requires Valid()
      modifies this`queuedEvents
      ensures Valid() && State() == TargetSpec.OnAttachedToTarget(old(State()), child, waitingForDebugger, serviceWorker)
    {
      if waitingForDebugger {
        queuedEvents := queuedEvents + [RunIfWaitingForDebugger(child)];
      }
      if serviceWorker {
        queuedEvents := queuedEvents + [DetachFromTarget(child, session)];
      }
    }

    /** A response lets the current chain go on. A frame tree goes to the frame manager. */
    method OnResponse(identifier: string, tree: Option<F.BrowserFrameTree>) returns (panicked: bool)
      requires Valid()
      modifies Repr()
      ensures Repr() == old(Repr())
      ensures panicked <==> TargetSpec.OnResponse(old(State()), identifier, tree).Panicked?
      ensures !panicked ==>
        Valid() && TargetSpec.Outcome.Alive(State()) == TargetSpec.OnResponse(old(State()), identifier, tree)
    {
      hide F.OnFrameTree, F.WellShaped, Command.Identifier;
      if stage.HasChain() {
        var _ := stage.cmds.ReceivedResponse(identifier);
      }
      panicked := false;
      if identifier == GetFrameTree.Identifier() {
        if tree.Some? {
          panicked := frameManager.OnFrameTree(tree.value);
        }
      }
    }

    // ---------- Polling ----------

    method OnInitializationFailed() returns (event: TargetEvent)
      requires Valid()
      modifies this`stage, this`initiator, this`replies
      ensures Valid() && State() == TargetSpec.OnInitializationFailed(old(State()))
      ensures event == InitRequest(CloseTarget, session) && stage.Closing?
    {
      if initiator.Some? {
        replies := replies + [InitTimedOut(initiator.value)];
        initiator := None;
      }
      stage := Stage.Closing;
      event := InitRequest(CloseTarget, session);
    }

    /** Moves to the stage after one whose chain is done. */
    method EnterNextStage() returns (ghost order: seq<FrameId>)
      requires Valid() && stage.HasChain()
      requires stage.cmds.cmds == [] && stage.cmds.waiting.None?
      modifies this`stage, frameManager
      ensures Valid() && State() == NextStage(old(State()), order)
      ensures fresh(Repr() - old(Repr()))
      ensures TR.BatchOf(old(State()), State(), order) != [] ==> F.Enumerates(order, old(State()).frames.frames.Keys)
    {
      order := [];
      match stage
      case InitializingFrame(_) =>
        var chain;
        chain, order := frameManager.EnsureIsolatedWorld(F.UTILITY_WORLD_NAME);
        if chain.Some? {
          var cmds := new CommandChain(chain.value, config.timeout);
          stage := Stage.InitializingFrame(cmds);
        } else {
          var cmds := new CommandChain(NetworkCommands(config), config.timeout);
          stage := Stage.InitializingNetwork(cmds);
          assert frameManager.State() == old(frameManager.State());
        }
      case InitializingNetwork(_) =>
        var cmds := new CommandChain(PAGE_COMMANDS, config.timeout);
        stage := Stage.InitializingPage(cmds);
      case InitializingPage(_) =>
        if config.hasViewport {
          var cmds := new CommandChain(EMULATION_COMMANDS, config.timeout);
          stage := Stage.InitializingEmulation(cmds);
        } else {
          stage := Stage.Initialized;
        }
      case InitializingEmulation(_) => stage := Stage.Initialized;
    }

    function LoadedMainFrame(): Option<Option<HttpRequest>>
      reads this, frameManager
    {
      var fm := frameManager;
      if fm.mainFrame.Some? && fm.mainFrame.value in fm.frames && fm.frames[fm.mainFrame.value].IsLoaded()
      then Some(fm.frames[fm.mainFrame.value].httpRequest)
      else None
    }

    method AnswerInitiator()
      requires Valid()
      modifies this`initiator, this`hasPage, this`replies
      ensures Valid() && State() == TargetSpec.AnswerInitiator(old(State()))
    {
      hide F.WellShaped, NR.Paired;
      if initiator.Some? {
        var tx := initiator.value;
        initiator := None;
        if LoadedMainFrame().Some? {
          CreatePage();
          if hasPage {
            replies := replies + [PageGiven(tx)];
          } else {
            initiator := Some(tx);
          }
        } else {
          initiator := Some(tx);
        }
      }
    }

    method TellLastWaiter(request: Option<HttpRequest>)
      requires Valid() && waiters != []
      modifies this`waiters, this`replies
      ensures Valid() && LoadedMainFrame() == old(LoadedMainFrame()) && |waiters| == old(|waiters|) - 1
      ensures var s := old(State());
              State() == s.(waiters := s.waiters[..|s.waiters| - 1]).Reply(Loaded(s.waiters[|s.waiters| - 1], request))
    {
      hide F.WellShaped, NR.Paired;
      var last := |waiters| - 1;
      replies := replies + [Loaded(waiters[last], request)];
      waiters := waiters[..last];
    }

    lemma MainFrameAgrees()
      ensures LoadedMainFrame() == State().LoadedMainFrame() && waiters == State().waiters
    {
      hide F.WellShaped, NR.Paired;
    }

    method TellWaiters()
      requires Valid()
      modifies this`waiters, this`replies
      ensures Valid() && State() == NotifyWaiters(old(State()))
    {
      hide State, LoadedMainFrame, Valid;
      MainFrameAgrees();
      if LoadedMainFrame().Some? {
        while waiters != []
          invariant Valid() && LoadedMainFrame().Some?
          invariant NotifyWaiters(State()) == NotifyWaiters(old(State()))
          decreases |waiters|
        {
          MainFrameAgrees();
          TellLastWaiter(LoadedMainFrame().value);
        }
        MainFrameAgrees();
      }
    }

    method ReadMessage(msg: PageMessage)
      requires Valid()
      modifies this`queuedEvents, this`waiters, this`replies, networkManager
      ensures Valid() && State() == OnMessage(old(State()), msg)
    {
      match msg
      case CommandSent(tx) => queuedEvents := queuedEvents + [PageCommand(tx)];
      case WaitForNavigation(tx) =>
        if LoadedMainFrame().Some? {
          replies := replies + [Loaded(tx, LoadedMainFrame().value)];
        } else {
          waiters := waiters + [tx];
        }
      case CredentialsSet(credentials) => networkManager.Authenticate(credentials);
    }

    method ReadMessages(msgs: seq<PageMessage>)
      requires Valid()
      modifies this`queuedEvents, this`waiters, this`replies, networkManager
      ensures Valid() && State() == OnMessages(old(State()), msgs)
    {
      hide State, Valid, OnMessage;
      for i := 0 to |msgs|
        invariant Valid() && State() == OnMessages(old(State()), msgs[..i])
      {
        assert msgs[..i + 1][..i] == msgs[..i];
        ReadMessage(msgs[i]);
      }
      assert msgs[..|msgs|] == msgs;
    }

    method PollNetwork() returns (event: Option<N.NetworkEvent>)
      requires Valid()
      modifies networkManager
      ensures Valid() && State() == old(State()).(network := N.Step(old(State()).network, N.Polled))
      ensures event == if old(State()).network.queue == [] then None else Some(old(State()).network.queue[0])
    {
      event := networkManager.Poll();
    }

    method HandleNetworkEvent(event: N.NetworkEvent)
      requires Valid()
      modifies this`queuedEvents, frameManager
      ensures Valid() && State() == OnNetworkEvent(old(State()), event)
    {
      hide F.WellShaped, NR.Paired;
      match event
      case SendCdpRequest(command) => queuedEvents := queuedEvents + [NetworkRequest(command, session)];
      case RequestStarted(_) =>
      case RequestFailed(request) => frameManager.OnHttpRequestFinished(request);
      case RequestFinished(request) => frameManager.OnHttpRequestFinished(request);
    }

    lemma ValidIsShaped()
      requires Valid()
      ensures F.WellShaped(State().frames)
    {
    }

    method TakeNetworkEvents()
      requires Valid()
      modifies this`queuedEvents, frameManager, networkManager
      ensures Valid() && F.WellShaped(old(State()).frames) && State() == DrainNetwork(old(State()))
    {
      hide State, Valid, F.WellShaped, OnNetworkEvent;
      ValidIsShaped();
      var more := true;
      while more
        invariant Valid() && F.WellShaped(State().frames) && F.WellShaped(old(State()).frames)
        invariant if more then DrainNetwork(State()) == DrainNetwork(old(State()))
                  else State() == DrainNetwork(old(State()))
        decreases more, |State().network.queue|
      {
        ghost var s := State();
        var event := PollNetwork();
        if event.Some? {
          NetworkEventKeepsShape(State(), event.value);
          QueueUntouched(State(), event.value);
          HandleNetworkEvent(event.value);
        } else {
          more := false;
        }
      }
    }

    method PollFrames(now: nat, clock: nat) returns (event: Option<FrameEvent>)
      requires Valid()
      modifies frameManager
      ensures Valid() && F.WellShaped(old(State()).frames)
      ensures var p := F.Poll(old(State()).frames, now, clock);
              event == p.event && State() == old(State()).(frames := p.manager)
    {
      hide NR.Paired;
      event := frameManager.Poll(now, clock);
    }

    method QueueEvent(event: TargetEvent)
      requires Valid()
      modifies this`queuedEvents
      ensures Valid() && State() == old(State()).Push(event)
    {
      hide F.WellShaped, NR.Paired;
      queuedEvents := queuedEvents + [event];
    }

    method TakeFrameEvents(now: nat, clocks: nat -> nat)
      requires Valid()
      modifies this`queuedEvents, frameManager
      ensures Valid() && F.WellShaped(old(State()).frames) && State() == DrainFrames(old(State()), now, clocks, 0)
    {
      var k := 0;
      var more := true;
      while more
        invariant Valid() && F.WellShaped(State().frames) && F.WellShaped(old(State()).frames)
        invariant if more then DrainFrames(State(), now, clocks, k) == DrainFrames(old(State()), now, clocks, 0)
                  else State() == DrainFrames(old(State()), now, clocks, 0)
        decreases more, Q.Backlog(State().frames)
      {
        Q.PollDrains(State().frames, now, clocks(k));
        hide State, Valid, F.WellShaped, F.Poll, Q.Backlog;
        var event := PollFrames(now, clocks(k));
        if event.Some? {
          QueueEvent(FromFrames(event.value));
          k := k + 1;
        } else {
          more := false;
        }
      }
    }

    /** What the managers and the page put out is queued. */
    method Collect(now: nat, msgs: seq<PageMessage>, clocks: nat -> nat)
      requires Valid()
      modifies this`queuedEvents, this`waiters, this`replies, frameManager, networkManager
      ensures Valid() && F.WellShaped(old(State()).frames) && State() == Round(old(State()), now, msgs, clocks)
    {
      ValidIsShaped();
      PageAgrees();
      hide State, Valid, F.WellShaped, OnMessages;
      if hasPage {
        MessagesKeepFrames(State(), msgs);
        ReadMessages(msgs);
      }
      TakeNetworkEvents();
      TakeFrameEvents(now, clocks);
    }

    lemma PageAgrees()
      ensures hasPage == State().hasPage && queuedEvents == State().queue
    {
    }

    method PopEvent() returns (event: TargetEvent)
      requires Valid() && queuedEvents != []
      modifies this`queuedEvents
      ensures Valid() && Outgoing(State(), Some(event)) == PopQueue(old(State()))
    {
      event := queuedEvents[0];
      queuedEvents := queuedEvents[1..];
    }

    /** The rest of a poll, once the target is initialised. The loop turns at most twice: what a round queues is passed on
      * by the next. */
    method PassOn(now: nat, msgs: seq<PageMessage>, clocks: nat -> nat) returns (event: Option<TargetEvent>)
      requires Valid()
      modifies this`queuedEvents, this`waiters, this`replies, frameManager, networkManager
      ensures Valid() && F.WellShaped(old(State()).frames)
      ensures Outgoing(State(), event) == Drain(old(State()), now, msgs, clocks)
    {
      hide State, Valid, F.WellShaped, NotifyWaiters, Round;
      ValidIsShaped();
      NotifyKeepsFrames(State());
      ghost var first := true;
      while true
        invariant Valid()
        invariant F.WellShaped(NotifyWaiters(old(State())).frames)
        invariant first ==> State() == old(State())
        invariant !first ==> NotifyWaiters(old(State())).queue == [] && State().queue != []
                             && State() == Round(NotifyWaiters(old(State())), now, msgs, clocks)
        decreases first
      {
        NotifyKeepsFrames(State());
        TellWaiters();
        PageAgrees();
        if queuedEvents != [] {
          var popped := PopEvent();
          return Some(popped);
        }
        Collect(now, msgs, clocks);
        PageAgrees();
        if queuedEvents == [] {
          return None;
        }
        first := false;
      }
    }

    method Attach() returns (event: TargetEvent)
      requires Valid() && isPage && stage.Attaching?
      modifies this`stage
      ensures Valid() && fresh(Repr() - old(Repr()))
      ensures forall now, order, msgs, clocks ::
        Outgoing(State(), Some(event)) == TargetSpec.Poll(old(State()), now, order, msgs, clocks)
    {
      var cmds := new CommandChain(FRAME_COMMANDS, config.timeout);
      stage := Stage.InitializingFrame(cmds);
      event := InitRequest(AttachToTarget, None);
    }

    method PollChain(now: nat) returns (next: NextCommand)
      requires Valid() && stage.HasChain()
      modifies stage.cmds
      ensures Valid() && State().init.HasChain() && old(State()).init.HasChain()
      ensures var p := ChainSpec.Poll(old(State()).init.chain, now);
              next == p.next && State() == old(State()).(init := old(State()).init.With(p.chain))
    {
      next := stage.cmds.Poll(now);
    }

    lemma StageAgrees()
      ensures stage.HasChain() == State().init.HasChain() && stage.Initialized? == State().init.Initialized?
      ensures stage.Attaching? == State().init.Attaching? && stage.Closing? == State().init.Closing?
      ensures stage.InitializingFrame? == State().init.InitializingFrame?
      ensures session == State().session && isPage == State().isPage
      ensures stage.HasChain() ==> stage.cmds.State() == State().init.chain
    {
    }

    /** Advances the target. Whenever a chain is done, the target moves to the next stage and polls itself again. */
    method Poll(now: nat, msgs: seq<PageMessage>, clocks: nat -> nat)
      returns (event: Option<TargetEvent>, ghost order: seq<FrameId>)
      requires Valid()
      modifies Repr()
      ensures Valid() && F.WellShaped(old(State()).frames) && fresh(Repr() - old(Repr()))
      ensures Outgoing(State(), event) == TargetSpec.Poll(old(State()), now, order, msgs, clocks)
      ensures TR.Lists(old(State()), now, order)
      decreases Rank(State().init), WorldMissing(State())
    {
      hide State, Valid, F.WellShaped, NextStage, Drain;
      ValidIsShaped();
      StageAgrees();
      order := [];
      if !isPage || stage.Closing? {
        return None, [];
      }
      if stage.Attaching? {
        var attach := Attach();
        return Some(attach), [];
      }
      if stage.Initialized? {
        AnswerInitiator();
        event := PassOn(now, msgs, clocks);
        return;
      }
      if stage.InitializingFrame? && session.None? {
        return None, [];
      }
      var next := PollChain(now);
      StageAgrees();
      match next
      case Pending => return None, [];
      case Issue(cmd) => return Some(InitRequest(cmd, session)), [];
      case Exceeded(_, _) =>
        var closing := OnInitializationFailed();
        return Some(closing), [];
      case Exhausted =>
        event, order := PollNextStage(now, msgs, clocks);
    }

    method PollNextStage(now: nat, msgs: seq<PageMessage>, clocks: nat -> nat)
      returns (event: Option<TargetEvent>, ghost order: seq<FrameId>)
      requires Valid() && isPage && stage.HasChain() && (stage.InitializingFrame? ==> session.Some?)
      requires stage.cmds.cmds == [] && stage.cmds.waiting.None?
      modifies Repr()
      ensures Valid() && F.WellShaped(old(State()).frames) && fresh(Repr() - old(Repr()))
      ensures Outgoing(State(), event) == TargetSpec.Poll(old(State()), now, order, msgs, clocks)
      ensures TR.Lists(old(State()), now, order)
      decreases Rank(State().init), WorldMissing(State()), 0
    {
      hide F.WellShaped, NR.Paired, TargetSpec.Poll, Advance, NextStage, F.Enumerates;
      ValidIsShaped();
      StageAgrees();
      ghost var s := State();
      ghost var listed, inner;
      listed := EnterNextStage();
      TR.NextStageDescends(s, listed);
      event, inner := Poll(now, msgs, clocks);
      TR.PollAgain(s, now, listed, inner, msgs, clocks);
      order := if TR.BatchOf(s, NextStage(s, listed), listed) != [] then listed else inner;
    }
  }

  lemma QueueUntouched(s: TargetSpec.Target, event: N.NetworkEvent)
    ensures OnNetworkEvent(s, event).network == s.network
  {
  }
}
