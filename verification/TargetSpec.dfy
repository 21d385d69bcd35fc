/** A target as a function of its state (src/handler/target.rs:44-563): it is initialised by chains of commands, one
  * after the other, and then passes on what its managers put out. */
module TargetSpec {
  import opened Options
  import opened Identifiers
  import opened Http
  import opened Navigation
  import opened ChainSpec
  import F = FrameManagerSpec
  import N = NetworkSpec
  import Q = FrameQueue

  datatype Config = Config(
    timeout: nat, hasViewport: bool, ignoreHttpsErrors: bool, cacheEnabled: bool, requestIntercept: bool)

  datatype TargetInit =
    | Attaching
    | InitializingFrame(chain: Chain)
    | InitializingNetwork(chain: Chain)
    | InitializingPage(chain: Chain)
    | InitializingEmulation(chain: Chain)
    | Initialized
    | Closing
  {
    predicate HasChain() {
      InitializingFrame? || InitializingNetwork? || InitializingPage? || InitializingEmulation?
    }

    function With(c: Chain): TargetInit
      requires HasChain()
    {
      this.(chain := c)
    }
  }

  datatype TargetEvent =
    | InitRequest(cmd: Command, session: Option<string>)
    | NetworkRequest(command: N.Command, session: Option<string>)
    | RunIfWaitingForDebugger(child: string)
    | DetachFromTarget(child: string, session: Option<string>)
    | NavigationRequested(id: NavigationId, req: CdpRequest)
    | NavigationDone(result: NavigationResult)
    | PageCommand(tx: Ticket)

  datatype PageMessage =
    | CommandSent(tx: Ticket)
    | WaitForNavigation(tx: Ticket)
    | CredentialsSet(credentials: N.Credentials)

  datatype Reply = PageGiven(tx: Ticket) | InitTimedOut(tx: Ticket) | Loaded(tx: Ticket, request: Option<HttpRequest>)

  datatype Target = Target(
    isPage: bool,
    config: Config,
    session: Option<string>,
    hasPage: bool,
    init: TargetInit,
    frames: F.Manager,
    network: N.Network,
    queue: seq<TargetEvent>,
    waiters: seq<Ticket>,
    initiator: Option<Ticket>,
    replies: seq<Reply>)
  {
    function Reply(r: Reply): Target {
      this.(replies := replies + [r])
    }

    function Push(ev: TargetEvent): Target {
      this.(queue := queue + [ev])
    }

    /** The request of the main frame, if that frame is tracked and loaded. */
    function LoadedMainFrame(): Option<Option<HttpRequest>> {
      match frames.mainFrame
      case None => None
      case Some(id) =>
        if id in frames.frames && frames.frames[id].IsLoaded() then Some(frames.frames[id].httpRequest) else None
    }
  }

  function NewTarget(isPage: bool, config: Config): Target {
    var network := N.SetRequestInterception(N.SetCacheEnabled(N.NEW_NETWORK, config.cacheEnabled), config.requestIntercept);
    Target(isPage, config, None, false, Attaching, F.NEW_MANAGER, network, [], [], None, [])
  }

  // ---------- The commands of each stage ----------

  const FRAME_COMMANDS: seq<Command> := [PageEnable, GetFrameTree, SetLifecycleEventsEnabled, RuntimeEnable]

  const PAGE_COMMANDS: seq<Command> := [SetAutoAttach, PerformanceEnable, LogEnable]

  const EMULATION_COMMANDS: seq<Command> := [SetDeviceMetricsOverride, SetTouchEmulationEnabled]

  function NetworkCommands(config: Config): seq<Command> {
    if config.ignoreHttpsErrors then [NetworkEnable, SetIgnoreCertificateErrors] else [NetworkEnable]
  }

  // ---------- Initialisation ----------

  /** What a poll does for the initialisation: it sends something, waits, or lets the rest of the poll go on. */
  datatype Move = Attach | Send(cmd: Command) | GiveUp | Wait | Proceed

  datatype Advanced = Advanced(target: Target, move: Move)

  /** The stage after one whose chain is done. The isolated world is a second chain of the frame stage, unless the
    * world is already there. */
  function NextStage(s: Target, order: seq<FrameId>): Target
    requires s.init.HasChain()
  {
    var timeout := s.config.timeout;
    match s.init
    case InitializingFrame(_) =>
      if F.UTILITY_WORLD_NAME in s.frames.isolatedWorlds
      then s.(init := InitializingNetwork(NewChain(NetworkCommands(s.config), timeout)))
      else s.(frames := F.EnsureIsolatedWorld(s.frames, F.UTILITY_WORLD_NAME),
              init := InitializingFrame(NewChain(F.WorldBatch(order), timeout)))
    case InitializingNetwork(_) => s.(init := InitializingPage(NewChain(PAGE_COMMANDS, timeout)))
    case InitializingPage(_) =>
      if s.config.hasViewport
      then s.(init := InitializingEmulation(NewChain(EMULATION_COMMANDS, timeout)))
      else s.(init := Initialized)
    case InitializingEmulation(_) => s.(init := Initialized)
  }

  /** A target that could not be initialised in time is closed, and whoever asked for its page is told. */
  function OnInitializationFailed(s: Target): Target {
    (if s.initiator.Some? then s.Reply(InitTimedOut(s.initiator.value)) else s).(initiator := None, init := Closing)
  }

  /** The page is created once, when the target has a session. */
  function CreatePage(s: Target): Target {
    if s.session.Some? then s.(hasPage := true) else s
  }

  function AnswerInitiator(s: Target): Target {
    if s.initiator.None? || s.LoadedMainFrame().None? then s
    else
      var s1 := CreatePage(s);
      if s1.hasPage then s1.(initiator := None).Reply(PageGiven(s.initiator.value)) else s1
  }

  /** How many stages are still to come. */
  function Rank(init: TargetInit): nat {
    match init
    case Attaching => 6
    case InitializingFrame(_) => 5
    case InitializingNetwork(_) => 4
    case InitializingPage(_) => 3
    case InitializingEmulation(_) => 2
    case Initialized => 1
    case Closing => 0
  }

  function WorldMissing(s: Target): nat {
    if F.UTILITY_WORLD_NAME in s.frames.isolatedWorlds then 0 else 1
  }

  /** The initialisation part of a poll. It polls the target again whenever a chain is done, which ends because every
    * stage follows a higher one, and the isolated world is set up at most once. */
  function Advance(s: Target, now: nat, order: seq<FrameId>): Advanced
    decreases Rank(s.init), WorldMissing(s)
  {
    if !s.isPage || s.init.Closing? then Advanced(s, Wait)
    else if s.init.Attaching? then
      Advanced(s.(init := InitializingFrame(NewChain(FRAME_COMMANDS, s.config.timeout))), Attach)
    else if s.init.Initialized? then Advanced(AnswerInitiator(s), Proceed)
    else if s.init.InitializingFrame? && s.session.None? then Advanced(s, Wait)
    else
      var p := ChainSpec.Poll(s.init.chain, now);
      match p.next
      case Pending => Advanced(s, Wait)
      case Issue(cmd) => Advanced(s.(init := s.init.With(p.chain)), Send(cmd))
      case Exceeded(_, _) => Advanced(OnInitializationFailed(s), GiveUp)
      case Exhausted => Advance(NextStage(s, order), now, order)
  }

  // ---------- Passing on ----------

  /** Those who wait for the main frame are told once it has loaded, last one first. */
  function NotifyWaiters(s: Target): Target
    decreases |s.waiters|
  {
    if s.LoadedMainFrame().None? || s.waiters == [] then s
    else
      var last := |s.waiters| - 1;
      NotifyWaiters(s.(waiters := s.waiters[..last]).Reply(Loaded(s.waiters[last], s.LoadedMainFrame().value)))
  }

  function OnMessage(s: Target, msg: PageMessage): Target {
    match msg
    case CommandSent(tx) => s.Push(PageCommand(tx))
    case WaitForNavigation(tx) =>
      if s.LoadedMainFrame().Some? then s.Reply(Loaded(tx, s.LoadedMainFrame().value)) else s.(waiters := s.waiters + [tx])
    case CredentialsSet(credentials) => s.(network := N.Authenticate(s.network, credentials))
  }

  function OnMessages(s: Target, msgs: seq<PageMessage>): Target {
    if msgs == [] then s else OnMessage(OnMessages(s, msgs[..|msgs| - 1]), msgs[|msgs| - 1])
  }

  function OnNetworkEvent(s: Target, ev: N.NetworkEvent): Target {
    match ev
    case SendCdpRequest(command) => s.Push(NetworkRequest(command, s.session))
    case RequestStarted(_) => s
    case RequestFailed(request) => s.(frames := F.OnHttpRequestFinished(s.frames, request))
    case RequestFinished(request) => s.(frames := F.OnHttpRequestFinished(s.frames, request))
  }

  lemma NetworkEventKeepsShape(s: Target, ev: N.NetworkEvent)
    requires F.WellShaped(s.frames)
    ensures F.WellShaped(OnNetworkEvent(s, ev).frames)
  {
    if ev.RequestFailed? || ev.RequestFinished? {
      F.StepKeepsShape(s.frames, F.HttpFinished(ev.request));
    }
  }

  /** Takes everything the network manager put out, in order. */
  ghost function DrainNetwork(s: Target): (r: Target)
    requires F.WellShaped(s.frames)
    ensures F.WellShaped(r.frames)
    decreases |s.network.queue|
  {
    if s.network.queue == [] then s
    else
      var s1 := s.(network := N.Step(s.network, N.Polled));
      NetworkEventKeepsShape(s1, s.network.queue[0]);
      DrainNetwork(OnNetworkEvent(s1, s.network.queue[0]))
  }

  function FromFrames(ev: FrameEvent): TargetEvent {
    match ev
    case ResultEvent(result) => NavigationDone(result)
    case RequestEvent(id, req) => NavigationRequested(id, req)
  }

  /** Takes everything the frame manager puts out. `clocks` are the further readings of the clock, from `k` on. */
  ghost function DrainFrames(s: Target, now: nat, clocks: nat -> nat, k: nat): (r: Target)
    requires F.WellShaped(s.frames)
    ensures r.frames.frames == s.frames.frames && r.frames.mainFrame == s.frames.mainFrame
    decreases Q.Backlog(s.frames)
  {
    var p := F.Poll(s.frames, now, clocks(k));
    Q.PollDrains(s.frames, now, clocks(k));
    F.PollKeepsFrames(s.frames, now, clocks(k));
    if p.event.None? then s
    else DrainFrames(s.(frames := p.manager).Push(FromFrames(p.event.value)), now, clocks, k + 1)
  }

  /** One round through everything that may put something out. */
  ghost function Round(s: Target, now: nat, msgs: seq<PageMessage>, clocks: nat -> nat): (r: Target)
    requires F.WellShaped(s.frames)
    ensures F.WellShaped(r.frames)
  {
    MessagesKeepFrames(s, msgs);
    DrainFrames(DrainNetwork(if s.hasPage then OnMessages(s, msgs) else s), now, clocks, 0)
  }

  lemma {:induction false} MessagesKeepFrames(s: Target, msgs: seq<PageMessage>)
    ensures OnMessages(s, msgs).frames == s.frames
  {
    if msgs != [] {
      MessagesKeepFrames(s, msgs[..|msgs| - 1]);
    }
  }

  datatype Outgoing = Outgoing(target: Target, event: Option<TargetEvent>)

  function PopQueue(s: Target): Outgoing
    requires s.queue != []
  {
    Outgoing(s.(queue := s.queue[1..]), Some(s.queue[0]))
  }

  /** The rest of a poll: it passes on the oldest queued event, after a round if there was none. */
  ghost function Drain(s: Target, now: nat, msgs: seq<PageMessage>, clocks: nat -> nat): Outgoing
    requires F.WellShaped(s.frames)
  {
    var s1 := NotifyWaiters(s);
    NotifyKeepsFrames(s);
    if s1.queue != [] then PopQueue(s1)
    else
      var s2 := Round(s1, now, msgs, clocks);
      if s2.queue == [] then Outgoing(s2, None) else NotifyKeepsFrames(s2); PopQueue(NotifyWaiters(s2))
  }

  lemma {:induction false} NotifyKeepsFrames(s: Target)
    ensures NotifyWaiters(s).frames == s.frames && NotifyWaiters(s).queue == s.queue
    ensures NotifyWaiters(s).init == s.init
    decreases |s.waiters|
  {
    if s.LoadedMainFrame().Some? && s.waiters != [] {
      var last := |s.waiters| - 1;
      NotifyKeepsFrames(s.(waiters := s.waiters[..last]).Reply(Loaded(s.waiters[last], s.LoadedMainFrame().value)));
    }
  }

  /** What a move sends to the browser. The command to attach is the only one that belongs to no session. */
  function Sent(s: Target, move: Move): Option<TargetEvent> {
    match move
    case Attach => Some(InitRequest(AttachToTarget, None))
    case Send(cmd) => Some(InitRequest(cmd, s.session))
    case GiveUp => Some(InitRequest(CloseTarget, s.session))
    case Wait => None
    case Proceed => None
  }

  ghost function Poll(s: Target, now: nat, order: seq<FrameId>, msgs: seq<PageMessage>, clocks: nat -> nat): Outgoing
    requires F.WellShaped(s.frames)
  {
    var a := Advance(s, now, order);
    AdvanceKeepsFrames(s, now, order);
    if a.move.Proceed? then Drain(a.target, now, msgs, clocks) else Outgoing(a.target, Sent(s, a.move))
  }

  lemma {:induction false} AdvanceKeepsFrames(s: Target, now: nat, order: seq<FrameId>)
    ensures var t := Advance(s, now, order).target;
            && t.frames.frames == s.frames.frames && t.frames.mainFrame == s.frames.mainFrame
            && t.config == s.config && t.isPage == s.isPage && t.session == s.session
    decreases Rank(s.init), WorldMissing(s)
  {
    if s.init.HasChain() {
      AdvanceKeepsFrames(NextStage(s, order), now, order);
    }
  }

  // ---------- Events ----------

  datatype Event =
    | FrameEventArrived(ev: F.Event)
    | NetworkEventArrived(arrived: N.Event)
    | AttachedToTarget(child: string, waitingForDebugger: bool, serviceWorker: bool)
    | ResponseArrived(identifier: string, tree: Option<F.BrowserFrameTree>)
    | SessionSet(session: Option<string>)
    | InitiatorSet(tx: Ticket)
    | PageAskedFor
    | PollRequested(now: nat, order: seq<FrameId>, msgs: seq<PageMessage>, clocks: nat -> nat)

  datatype Outcome = Alive(target: Target) | Panicked

  function OnAttachedToTarget(s: Target, child: string, waiting: bool, serviceWorker: bool): Target {
    var s1 := if waiting then s.Push(RunIfWaitingForDebugger(child)) else s;
    if serviceWorker then s1.Push(DetachFromTarget(child, s.session)) else s1
  }

  ghost function OnFrames(s: Target, o: F.Outcome): Outcome {
    match o case Alive(m) => Alive(s.(frames := m)) case Panicked => Panicked
  }

  /** A response lets the current chain go on if it answers its last command. A frame tree is recorded in any case. */
  ghost function OnResponse(s: Target, identifier: string, tree: Option<F.BrowserFrameTree>): Outcome {
    var s1 := if s.init.HasChain() then s.(init := s.init.With(ReceivedResponse(s.init.chain, identifier))) else s;
    if identifier == GetFrameTree.Identifier() && tree.Some?
    then OnFrames(s1, F.OnFrameTree(s1.frames, tree.value))
    else Alive(s1)
  }

  ghost function Step(s: Target, e: Event): Outcome
    requires F.WellShaped(s.frames)
  {
    match e
    case FrameEventArrived(ev) => OnFrames(s, F.Step(s.frames, ev))
    case NetworkEventArrived(ev) => Alive(s.(network := N.Step(s.network, ev)))
    case AttachedToTarget(child, waiting, serviceWorker) => Alive(OnAttachedToTarget(s, child, waiting, serviceWorker))
    case ResponseArrived(identifier, tree) => OnResponse(s, identifier, tree)
    case SessionSet(session) => Alive(s.(session := session))
    case InitiatorSet(tx) => Alive(s.(initiator := Some(tx)))
    case PageAskedFor => Alive(CreatePage(s))
    case PollRequested(now, order, msgs, clocks) => Alive(Poll(s, now, order, msgs, clocks).target)
  }

  /** The managers are polled by the target alone, and only the target sets up the isolated world; a poll lists the
    * tracked frames in any order. */
  ghost predicate Possible(s: Target, e: Event) {
    match e
    case FrameEventArrived(ev) => !ev.PollRequested? && !ev.IsolatedWorldEnsured?
    case NetworkEventArrived(ev) => !ev.Polled?
    case PollRequested(_, order, _, _) => F.Enumerates(order, s.frames.frames.Keys)
    case _ => true
  }
}
