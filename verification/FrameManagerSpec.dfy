/** The frame manager as a function of its state (src/handler/frame.rs:186-559). */
module FrameManagerSpec {
  import opened Options
  import opened Http
  import opened FrameTable
  import opened FrameOps
  import opened Navigation
  import Chains = ChainSpec

  datatype QueuedNavigation = QueuedNavigation(req: FrameNavigationRequest, watcher: NavigationWatcher)
  datatype OngoingNavigation = OngoingNavigation(watcher: NavigationWatcher, deadline: nat)

  datatype Manager = Manager(
    mainFrame: Option<FrameId>,
    frames: Table,
    contextIds: map<string, FrameId>,
    isolatedWorlds: set<string>,
    pending: seq<QueuedNavigation>,
    navigation: Option<OngoingNavigation>)

  const NEW_MANAGER := Manager(None, map[], map[], {}, [], None)

  /** A handler either returns or hits the expectation that the main frame is tracked. */
  datatype Outcome = Alive(manager: Manager) | Panicked

  datatype BrowserFrameTree = BrowserFrameTree(frame: CdpFrame, children: seq<BrowserFrameTree>)

  /** A created execution context; `frame`, `isDefault` and `isolated` are read from its auxiliary data. */
  datatype ContextInfo = ContextInfo(frame: Option<FrameId>, isDefault: bool, isolated: bool, name: string,
                                     id: int, uniqueId: string)

  const UTILITY_WORLD_NAME := "__chromiumoxide_utility_world__"

  /** No main frame and no frames, or the tree below the main frame, or nothing left after the main frame was detached. */
  ghost predicate Shape(main: Option<FrameId>, t: Table) {
    match main
    case None => t == map[]
    case Some(m) => t == map[] || Tree(t, m)
  }

  ghost predicate WellShaped(s: Manager) {
    Shape(s.mainFrame, s.frames)
  }

  /** Changing other fields of one frame keeps the shape. */
  lemma UpdateKeepsShape(main: Option<FrameId>, t: Table, id: FrameId, f: Frame)
    requires Shape(main, t)
    requires id in t && f.id == t[id].id && f.parent == t[id].parent && f.children == t[id].children
    ensures Shape(main, t[id := f])
  {
    UpdateKeepsLinks(t, id, f);
    LinksDecide(t[id := f], t);
  }

  // ---------- Frame events ----------

  function OnFrameAttached(s: Manager, id: FrameId, parent: Option<FrameId>): Manager {
    s.(frames := Attached(s.frames, id, parent))
  }

  ghost function OnFrameDetached(s: Manager, id: FrameId): Manager {
    s.(frames := Pruned(s.frames, {id}))
  }

  function Renavigated(f: Frame, to: CdpFrame): Frame {
    f.(name := to.name, url := Some(to.FullUrl()))
  }

  ghost function OnFrameNavigated(s: Manager, f: CdpFrame): Outcome {
    if f.parentId.Some? then
      if f.id in s.frames
      then Alive(s.(frames := Bared(s.frames, f.id)[f.id := Renavigated(s.frames[f.id].(children := {}), f)]))
      else Alive(s)
    else
      match s.mainFrame
      case None => Alive(s.(mainFrame := Some(f.id), frames := s.frames[f.id := Renavigated(NewFrame(f.id, None), f)]))
      case Some(m) =>
        if m in s.frames then
          var main := s.frames[m].(children := {}, id := f.id);
          Alive(s.(mainFrame := Some(f.id),
                   frames := Pruned(s.frames - {m}, s.frames[m].children)[f.id := Renavigated(main, f)]))
        else Panicked
  }

  ghost function OnFrameTree(s: Manager, tree: BrowserFrameTree): Outcome
    decreases tree, 1
  {
    match OnFrameNavigated(OnFrameAttached(s, tree.frame.id, tree.frame.parentId), tree.frame)
    case Panicked => Panicked
    case Alive(s') => OnFrameTrees(s', tree.children)
  }

  ghost function OnFrameTrees(s: Manager, trees: seq<BrowserFrameTree>): Outcome
    decreases trees, 0
  {
    if trees == [] then Alive(s)
    else match OnFrameTree(s, trees[0])
         case Panicked => Panicked
         case Alive(s') => OnFrameTrees(s', trees[1..])
  }

  function OnNavigatedWithinDocument(s: Manager, id: FrameId, url: string): Manager {
    var s1 := if id in s.frames then s.(frames := s.frames[id := s.frames[id].(url := Some(url))]) else s;
    if s1.navigation.Some? && s1.navigation.value.watcher.frameId == id
    then s1.(navigation := Some(s1.navigation.value.(watcher := s1.navigation.value.watcher.(sameDocument := true))))
    else s1
  }

  function LoadingStopped(f: Frame): Frame {
    f.(lifecycle := f.lifecycle + {"DOMContentLoaded", "load"})
  }

  function OnStoppedLoading(s: Manager, id: FrameId): Manager {
    if id in s.frames then s.(frames := s.frames[id := LoadingStopped(s.frames[id])]) else s
  }

  function LoadingStarted(f: Frame): Frame {
    f.(lifecycle := {}, httpRequest := None)
  }

  function OnStartedLoading(s: Manager, id: FrameId): Manager {
    if id in s.frames then s.(frames := s.frames[id := LoadingStarted(s.frames[id])]) else s
  }

  function Progressed(f: Frame, name: string, loader: string): Frame {
    if name == "init"
    then f.(loaderId := Some(loader), lifecycle := {name})
    else f.(lifecycle := f.lifecycle + {name})
  }

  function OnLifecycleEvent(s: Manager, id: FrameId, name: string, loader: string): Manager {
    if id in s.frames then s.(frames := s.frames[id := Progressed(s.frames[id], name, loader)]) else s
  }

  function OnHttpRequestFinished(s: Manager, request: HttpRequest): Manager {
    if request.frame.Some? && request.frame.value in s.frames
    then s.(frames := s.frames[request.frame.value := s.frames[request.frame.value].(httpRequest := Some(request))])
    else s
  }

  // ---------- Execution contexts ----------

  function WithContext(f: Frame, ctx: ContextInfo): Frame {
    if ctx.isDefault then f.(mainWorld := f.mainWorld.SetContext(ctx.id, ctx.uniqueId))
    else if ctx.name == UTILITY_WORLD_NAME && f.secondaryWorld.context.None?
    then f.(secondaryWorld := f.secondaryWorld.SetContext(ctx.id, ctx.uniqueId))
    else f
  }

  function OnContextCreated(s: Manager, ctx: ContextInfo): Manager {
    var s1 :=
      if ctx.frame.Some? && ctx.frame.value in s.frames then
        var f := s.frames[ctx.frame.value];
        s.(frames := s.frames[ctx.frame.value := WithContext(f, ctx)], contextIds := s.contextIds[ctx.uniqueId := f.id])
      else s;
    if ctx.isolated then s1.(isolatedWorlds := s1.isolatedWorlds + {ctx.name}) else s1
  }

  function WithoutContext(f: Frame, uniqueId: string): Frame {
    if f.mainWorld.uniqueId == Some(uniqueId) then f.(mainWorld := f.mainWorld.TakeContext())
    else if f.secondaryWorld.uniqueId == Some(uniqueId) then f.(secondaryWorld := f.secondaryWorld.TakeContext())
    else f
  }

  function OnContextDestroyed(s: Manager, uniqueId: string): Manager {
    if uniqueId in s.contextIds then
      var id := s.contextIds[uniqueId];
      var s1 := s.(contextIds := s.contextIds - {uniqueId});
      if id in s.frames then s1.(frames := s.frames[id := WithoutContext(s.frames[id], uniqueId)]) else s1
    else s
  }

  function WithoutContexts(f: Frame): Frame {
    f.(mainWorld := f.mainWorld.TakeContext(), secondaryWorld := f.secondaryWorld.TakeContext())
  }

  function ClearedIn(t: Table, ids: set<FrameId>): Table {
    map x | x in t :: if x in ids then WithoutContexts(t[x]) else t[x]
  }

  lemma ClearedOneMore(t: Table, ids: set<FrameId>, id: FrameId)
    ensures var u := ClearedIn(t, ids);
            ClearedIn(t, ids + {id}) == if id in u then u[id := WithoutContexts(u[id])] else u
  {
  }

  lemma ClearedKeepsShape(main: Option<FrameId>, t: Table, ids: set<FrameId>)
    requires Shape(main, t)
    ensures Shape(main, ClearedIn(t, ids))
  {
    assert SameLinks(ClearedIn(t, ids), t);
    LinksDecide(ClearedIn(t, ids), t);
  }

  function OnContextsCleared(s: Manager): Manager {
    s.(frames := ClearedIn(s.frames, s.contextIds.Values), contextIds := map[])
  }

  function EnsureIsolatedWorld(s: Manager, name: string): Manager {
    s.(isolatedWorlds := s.isolatedWorlds + {name})
  }

  /** The commands that create an isolated world, in whatever order the table yields its frames. */
  function WorldBatch(order: seq<FrameId>): seq<Chains.Command> {
    [Chains.AddScriptToEvaluateOnNewDocument] +
    seq(|order|, i requires 0 <= i < |order| => Chains.CreateIsolatedWorld(order[i]))
  }

  /** `order` lists every tracked frame exactly once. */
  ghost predicate Enumerates(order: seq<FrameId>, ids: set<FrameId>) {
    multiset(order) == multiset(ids)
  }

  // ---------- Navigations ----------

  function NavigateFrame(s: Manager, id: FrameId, req: FrameNavigationRequest): Manager {
    var loader := if id in s.frames then s.frames[id].loaderId else None;
    s.(pending := s.pending + [QueuedNavigation(req.SetFrameId(id), UntilPageLoad(req.id, id, loader))])
  }

  function Goto(s: Manager, req: FrameNavigationRequest): Manager {
    match s.mainFrame
    case None => s
    case Some(m) => NavigateFrame(s, m, req)
  }

  datatype Polled = Polled(manager: Manager, event: Option<FrameEvent>)

  /** One poll. `clock` is the second reading of the clock, taken when a queued navigation starts. */
  function Poll(s: Manager, now: nat, clock: nat): Polled
    requires Forest(s.frames)
  {
    match s.navigation
    case Some(OngoingNavigation(w, deadline)) =>
      if now > deadline then Polled(s.(navigation := None), Some(ResultEvent(Err(Timeout(w.id, now, deadline)))))
      else if w.frameId in s.frames then
        match CheckLifecycleComplete(s.frames, w, w.frameId)
        case Some(ok) => Polled(s.(navigation := None), Some(ResultEvent(Ok(ok))))
        case None => Polled(s, None)
      else Polled(s.(navigation := None), Some(ResultEvent(Err(FrameNotFound(w.id, w.frameId)))))
    case None =>
      if s.pending == [] then Polled(s, None)
      else
        var next := s.pending[0];
        Polled(s.(pending := s.pending[1..],
                  navigation := Some(OngoingNavigation(next.watcher, clock + next.req.timeout))),
               Some(RequestEvent(next.req.id, next.req.req)))
  }

  // ---------- Steps and runs ----------

  datatype Event =
    | FrameAttached(id: FrameId, parent: Option<FrameId>)
    | FrameDetached(id: FrameId)
    | FrameNavigated(frame: CdpFrame)
    | FrameTreeReceived(tree: BrowserFrameTree)
    | NavigatedWithinDocument(id: FrameId, url: string)
    | StoppedLoading(id: FrameId)
    | StartedLoading(id: FrameId)
    | LifecycleEvent(id: FrameId, name: string, loader: string)
    | HttpFinished(request: HttpRequest)
    | ContextCreated(ctx: ContextInfo)
    | ContextDestroyed(uniqueId: string)
    | ContextsCleared
    | IsolatedWorldEnsured(name: string)
    | GotoRequested(req: FrameNavigationRequest)
    | FrameNavigationRequested(id: FrameId, req: FrameNavigationRequest)
    | PollRequested(now: nat, clock: nat)

  ghost function Step(s: Manager, e: Event): Outcome
    requires Forest(s.frames)
  {
    match e
    case FrameAttached(id, parent) => Alive(OnFrameAttached(s, id, parent))
    case FrameDetached(id) => Alive(OnFrameDetached(s, id))
    case FrameNavigated(f) => OnFrameNavigated(s, f)
    case FrameTreeReceived(tree) => OnFrameTree(s, tree)
    case NavigatedWithinDocument(id, url) => Alive(OnNavigatedWithinDocument(s, id, url))
    case StoppedLoading(id) => Alive(OnStoppedLoading(s, id))
    case StartedLoading(id) => Alive(OnStartedLoading(s, id))
    case LifecycleEvent(id, name, loader) => Alive(OnLifecycleEvent(s, id, name, loader))
    case HttpFinished(request) => Alive(OnHttpRequestFinished(s, request))
    case ContextCreated(ctx) => Alive(OnContextCreated(s, ctx))
    case ContextDestroyed(uniqueId) => Alive(OnContextDestroyed(s, uniqueId))
    case ContextsCleared => Alive(OnContextsCleared(s))
    case IsolatedWorldEnsured(name) => Alive(EnsureIsolatedWorld(s, name))
    case GotoRequested(req) => Alive(Goto(s, req))
    case FrameNavigationRequested(id, req) => Alive(NavigateFrame(s, id, req))
    case PollRequested(now, clock) => Alive(Poll(s, now, clock).manager)
  }

  // ---------- Every step keeps the shape ----------

  lemma NavigatedKeepsShape(s: Manager, f: CdpFrame)
    requires WellShaped(s)
    ensures OnFrameNavigated(s, f).Alive? ==> WellShaped(OnFrameNavigated(s, f).manager)
    ensures f.parentId.None? && OnFrameNavigated(s, f).Alive? ==>
      OnFrameNavigated(s, f).manager.frames.Keys == {f.id} && OnFrameNavigated(s, f).manager.mainFrame == Some(f.id)
    ensures s.frames != map[] && OnFrameNavigated(s, f).Alive? ==> OnFrameNavigated(s, f).manager.frames != map[]
  {
    if f.parentId.None? {
      if OnFrameNavigated(s, f).Alive? {
        TopNavigatedIsAlone(s, f);
      }
    } else if f.id in s.frames {
      BaredIsTree(s.frames, s.mainFrame.value, f.id);
      var bared := Bared(s.frames, f.id);
      UpdateKeepsShape(s.mainFrame, bared, f.id, Renavigated(s.frames[f.id].(children := {}), f));
      assert f.id in OnFrameNavigated(s, f).manager.frames;
    }
  }

  /** A top-level navigation first discards every other tracked frame. */
  lemma TopNavigatedIsAlone(s: Manager, f: CdpFrame)
    requires WellShaped(s) && f.parentId.None? && OnFrameNavigated(s, f).Alive?
    ensures var s' := OnFrameNavigated(s, f).manager;
            && s'.mainFrame == Some(f.id) && s'.frames.Keys == {f.id}
            && s'.frames[f.id].children == {} && s'.frames[f.id].parent.None?
            && WellShaped(s')
  {
    var s' := OnFrameNavigated(s, f).manager;
    if s.mainFrame.Some? {
      BaredRootIsAlone(s.frames, s.mainFrame.value);
    }
    assert s'.frames == map[f.id := s'.frames[f.id]];
    LoneRootIsTree(f.id, s'.frames[f.id]);
  }

  lemma {:induction false} FrameTreeKeepsShape(s: Manager, tree: BrowserFrameTree)
    requires WellShaped(s)
    ensures OnFrameTree(s, tree).Alive? ==> WellShaped(OnFrameTree(s, tree).manager)
    decreases tree, 1
  {
    var s1 := OnFrameAttached(s, tree.frame.id, tree.frame.parentId);
    if s.mainFrame.Some? && s.frames != map[] {
      AttachedIsTree(s.frames, s.mainFrame.value, tree.frame.id, tree.frame.parentId);
    }
    NavigatedKeepsShape(s1, tree.frame);
    if OnFrameNavigated(s1, tree.frame).Alive? {
      FrameTreesKeepShape(OnFrameNavigated(s1, tree.frame).manager, tree.children);
    }
  }

  lemma {:induction false} FrameTreesKeepShape(s: Manager, trees: seq<BrowserFrameTree>)
    requires WellShaped(s)
    ensures OnFrameTrees(s, trees).Alive? ==> WellShaped(OnFrameTrees(s, trees).manager)
    decreases trees, 0
  {
    if trees != [] {
      FrameTreeKeepsShape(s, trees[0]);
      if OnFrameTree(s, trees[0]).Alive? {
        FrameTreesKeepShape(OnFrameTree(s, trees[0]).manager, trees[1..]);
      }
    }
  }

  /** The four events that may change which frames are tracked or how they are linked. */
  predicate Structural(e: Event) {
    e.FrameAttached? || e.FrameDetached? || e.FrameNavigated? || e.FrameTreeReceived?
  }

  lemma OthersKeepLinks(s: Manager, e: Event)
    requires Forest(s.frames) && !Structural(e)
    ensures Step(s, e).Alive?
    ensures SameLinks(Step(s, e).manager.frames, s.frames)
    ensures Step(s, e).manager.mainFrame == s.mainFrame
  {
    hide OnFrameAttached, OnFrameDetached, OnFrameNavigated, OnFrameTree, OnContextCreated, OnContextDestroyed, Poll,
      OnContextsCleared, OnHttpRequestFinished, OnNavigatedWithinDocument, OnStoppedLoading, OnStartedLoading,
      OnLifecycleEvent;
    match e
    case StoppedLoading(id) => LoadingKeepsLinks(s, e);
    case StartedLoading(id) => LoadingKeepsLinks(s, e);
    case LifecycleEvent(id, name, loader) => LoadingKeepsLinks(s, e);
    case NavigatedWithinDocument(id, url) => DocumentKeepsLinks(s, e);
    case HttpFinished(request) => DocumentKeepsLinks(s, e);
    case ContextCreated(ctx) => ContextCreatedKeepsLinks(s, ctx);
    case ContextDestroyed(u) => ContextDestroyedKeepsLinks(s, u);
    case ContextsCleared => DocumentKeepsLinks(s, e);
    case PollRequested(now, clock) => PollKeepsFrames(s, now, clock);
    case _ =>
  }

  lemma LoadingKeepsLinks(s: Manager, e: Event)
    requires Forest(s.frames) && (e.StoppedLoading? || e.StartedLoading? || e.LifecycleEvent?)
    ensures Step(s, e).Alive? && Step(s, e).manager.mainFrame == s.mainFrame
    ensures SameLinks(Step(s, e).manager.frames, s.frames)
  {
    hide Forest;
  }

  lemma DocumentKeepsLinks(s: Manager, e: Event)
    requires Forest(s.frames) && (e.NavigatedWithinDocument? || e.HttpFinished? || e.ContextsCleared?)
    ensures Step(s, e).Alive? && Step(s, e).manager.mainFrame == s.mainFrame
    ensures SameLinks(Step(s, e).manager.frames, s.frames)
  {
    hide Forest;
  }

  lemma PollKeepsFrames(s: Manager, now: nat, clock: nat)
    requires Forest(s.frames)
    ensures Poll(s, now, clock).manager.frames == s.frames
    ensures Poll(s, now, clock).manager.mainFrame == s.mainFrame
  {
  }

  lemma ContextDestroyedKeepsLinks(s: Manager, u: string)
    ensures SameLinks(OnContextDestroyed(s, u).frames, s.frames)
    ensures OnContextDestroyed(s, u).mainFrame == s.mainFrame
  {
  }

  lemma ContextCreatedKeepsLinks(s: Manager, ctx: ContextInfo)
    ensures SameLinks(OnContextCreated(s, ctx).frames, s.frames)
    ensures OnContextCreated(s, ctx).mainFrame == s.mainFrame
  {
  }

  lemma DetachedKeepsShape(s: Manager, id: FrameId)
    requires WellShaped(s)
    ensures WellShaped(OnFrameDetached(s, id))
    ensures OnFrameDetached(s, id).frames == map[] <==> s.frames == map[] || s.mainFrame == Some(id)
  {
    if s.frames == map[] {
      PrunedNothing(s.frames, {id});
    } else if id == s.mainFrame.value {
      PruneRoot(s.frames, id);
    } else {
      PrunedIsTree(s.frames, s.mainFrame.value, id);
    }
  }

  /** Whatever event arrives, links stay consistent: the shape is an invariant of every step. */
  lemma StepKeepsShape(s: Manager, e: Event)
    requires WellShaped(s)
    ensures Step(s, e).Alive? ==> WellShaped(Step(s, e).manager)
  {
    hide OnFrameDetached, OnFrameNavigated, OnFrameTree, OnContextCreated, OnContextDestroyed, OnContextsCleared, Poll,
      OnNavigatedWithinDocument, OnHttpRequestFinished, OnLifecycleEvent;
    match e
    case FrameAttached(id, parent) =>
      if s.frames != map[] {
        AttachedIsTree(s.frames, s.mainFrame.value, id, parent);
      }
    case FrameDetached(id) => DetachedKeepsShape(s, id);
    case FrameNavigated(f) => NavigatedKeepsShape(s, f);
    case FrameTreeReceived(tree) => FrameTreeKeepsShape(s, tree);
    case _ =>
      OthersKeepLinks(s, e);
      LinksDecide(Step(s, e).manager.frames, s.frames);
      assert s.frames == map[] ==> Step(s, e).manager.frames == map[];
  }
}
