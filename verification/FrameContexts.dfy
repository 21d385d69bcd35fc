/** The index from context ids to frames (src/handler/frame.rs:445-503, 143-154; src/handler/domworld.rs:35-45). */
module FrameContexts {
  import opened Options
  import opened Http
  import opened FrameTable
  import opened FrameOps
  import opened FrameManagerSpec
  import opened FrameRuns

  predicate HoldsContext(f: Frame, u: string) {
    f.mainWorld.uniqueId == Some(u) || f.secondaryWorld.uniqueId == Some(u)
  }

  /** The context and its unique id come and go together. */
  predicate Paired(w: DomWorld) {
    w.context.Some? <==> w.uniqueId.Some?
  }

  /** A frame whose contexts are found through the index; its two worlds never share one. */
  predicate FrameIndexed(x: FrameId, f: Frame, index: map<string, FrameId>) {
    && Paired(f.mainWorld) && Paired(f.secondaryWorld)
    && (f.mainWorld.uniqueId.Some? ==> f.mainWorld.uniqueId != f.secondaryWorld.uniqueId)
    && (f.mainWorld.uniqueId.Some? ==> f.mainWorld.uniqueId.value in index && index[f.mainWorld.uniqueId.value] == x)
    && (f.secondaryWorld.uniqueId.Some? ==>
          f.secondaryWorld.uniqueId.value in index && index[f.secondaryWorld.uniqueId.value] == x)
  }

  /** Every world of a tracked frame that holds a context is indexed to that frame. */
  predicate Indexed(s: Manager) {
    forall x | x in s.frames :: FrameIndexed(x, s.frames[x], s.contextIds)
  }

  // ---------- What the index is for ----------

  lemma DestroyedInOneFrame(x: FrameId, f: Frame, index: map<string, FrameId>, u: string)
    requires FrameIndexed(x, f, index)
    ensures var f' := if u in index && index[u] == x then WithoutContext(f, u) else f;
            && FrameIndexed(x, f', index - {u}) && !HoldsContext(f', u)
            && forall v | v != u :: HoldsContext(f', v) <==> HoldsContext(f, v)
  {
  }

  /** Destroying a context leaves it in no world, and every other context where it was. */
  lemma DestroyedContextIsGone(s: Manager, u: string)
    requires Indexed(s)
    ensures var s' := OnContextDestroyed(s, u);
            && Indexed(s') && s'.frames.Keys == s.frames.Keys
            && (forall x | x in s'.frames :: !HoldsContext(s'.frames[x], u))
            && (forall x, v | x in s.frames && v != u :: HoldsContext(s'.frames[x], v) <==> HoldsContext(s.frames[x], v))
  {
    var s' := OnContextDestroyed(s, u);
    if u in s.contextIds {
      forall x | x in s.frames
        ensures s'.frames[x] == if s.contextIds[u] == x then WithoutContext(s.frames[x], u) else s.frames[x]
        ensures FrameIndexed(x, s'.frames[x], s'.contextIds) && !HoldsContext(s'.frames[x], u)
        ensures forall v | v != u :: HoldsContext(s'.frames[x], v) <==> HoldsContext(s.frames[x], v)
      {
        DestroyedInOneFrame(x, s.frames[x], s.contextIds, u);
      }
    } else {
      forall x | x in s.frames
        ensures !HoldsContext(s.frames[x], u)
      {
        DestroyedInOneFrame(x, s.frames[x], s.contextIds, u);
      }
    }
  }

  /** Clearing all contexts leaves no tracked frame with one. */
  lemma ClearedContextsAreGone(s: Manager)
    requires Indexed(s)
    ensures var s' := OnContextsCleared(s);
            && Indexed(s')
            && (forall x | x in s'.frames ::
                  s'.frames[x].mainWorld.context.None? && s'.frames[x].secondaryWorld.context.None?)
  {
    forall x | x in s.frames && x !in s.contextIds.Values
      ensures s.frames[x].mainWorld.uniqueId.None? && s.frames[x].secondaryWorld.uniqueId.None?
    {
      assert FrameIndexed(x, s.frames[x], s.contextIds);
    }
  }

  // ---------- When the index stays right ----------

  /** The world that a new context would replace, if any. */
  predicate Replaces(s: Manager, ctx: ContextInfo, x: FrameId, main: bool)
    requires x in s.frames
  {
    && ctx.frame == Some(x)
    && if main then ctx.isDefault
       else !ctx.isDefault && ctx.name == UTILITY_WORLD_NAME && s.frames[x].secondaryWorld.context.None?
  }

  /** No world that keeps its context already holds the new unique id, unless it is a world of the same frame and the
    * new context is stored in neither. */
  predicate ContextFits(s: Manager, ctx: ContextInfo) {
    ctx.frame.Some? && ctx.frame.value in s.frames ==>
      forall x | x in s.frames && HoldsContext(s.frames[x], ctx.uniqueId) ::
        && x == ctx.frame.value
        && (Replaces(s, ctx, x, true) ==> s.frames[x].secondaryWorld.uniqueId != Some(ctx.uniqueId))
        && (Replaces(s, ctx, x, false) ==> s.frames[x].mainWorld.uniqueId != Some(ctx.uniqueId))
  }

  lemma CreatedInOneFrame(s: Manager, ctx: ContextInfo, x: FrameId)
    requires x in s.frames && FrameIndexed(x, s.frames[x], s.contextIds)
    requires ctx.frame.Some? && ctx.frame.value in s.frames && s.frames[ctx.frame.value].id == ctx.frame.value
    ensures var s' := OnContextCreated(s, ctx);
            FrameIndexed(x, s'.frames[x], s'.contextIds) <==>
              (HoldsContext(s.frames[x], ctx.uniqueId) ==>
                 && x == ctx.frame.value
                 && (Replaces(s, ctx, x, true) ==> s.frames[x].secondaryWorld.uniqueId != Some(ctx.uniqueId))
                 && (Replaces(s, ctx, x, false) ==> s.frames[x].mainWorld.uniqueId != Some(ctx.uniqueId)))
  {
    var s' := OnContextCreated(s, ctx);
    assert s'.contextIds == s.contextIds[ctx.uniqueId := ctx.frame.value];
    assert s'.frames[x] == if x == ctx.frame.value then WithContext(s.frames[x], ctx) else s.frames[x];
  }

  /** A new context keeps the index right exactly when no world that keeps its context holds the new unique id, other than
    * one of the same frame while the new context is stored in neither of its worlds. */
  lemma ContextCreatedExactlyWhen(s: Manager, ctx: ContextInfo)
    requires (forall x | x in s.frames :: s.frames[x].id == x) && Indexed(s)
    ensures Indexed(OnContextCreated(s, ctx)) <==> ContextFits(s, ctx)
  {
    var s' := OnContextCreated(s, ctx);
    if ctx.frame.Some? && ctx.frame.value in s.frames {
      assert s'.frames.Keys == s.frames.Keys;
      forall x | x in s.frames
        ensures FrameIndexed(x, s'.frames[x], s'.contextIds) <==>
          (HoldsContext(s.frames[x], ctx.uniqueId) ==>
             && x == ctx.frame.value
             && (Replaces(s, ctx, x, true) ==> s.frames[x].secondaryWorld.uniqueId != Some(ctx.uniqueId))
             && (Replaces(s, ctx, x, false) ==> s.frames[x].mainWorld.uniqueId != Some(ctx.uniqueId)))
      {
        assert FrameIndexed(x, s.frames[x], s.contextIds);
        CreatedInOneFrame(s, ctx, x);
      }
    } else {
      assert s'.frames == s.frames && s'.contextIds == s.contextIds;
    }
  }

  /** If the navigation renames the main frame, that frame holds no context. */
  predicate NavigationFits(s: Manager, f: CdpFrame) {
    f.parentId.None? && s.mainFrame.Some? && s.mainFrame.value != f.id && s.mainFrame.value in s.frames ==>
      var main := s.frames[s.mainFrame.value];
      main.mainWorld == NO_WORLD && main.secondaryWorld == NO_WORLD
  }

  /** A navigation keeps the index right exactly when it does not give the main frame, holding contexts, another id. */
  lemma NavigatedExactlyWhen(s: Manager, f: CdpFrame)
    requires WellShaped(s) && Indexed(s) && OnFrameNavigated(s, f).Alive?
    ensures Indexed(OnFrameNavigated(s, f).manager) <==> NavigationFits(s, f)
  {
    if f.parentId.Some? {
      ChildNavigatedStaysIndexed(s, f);
    } else {
      TopNavigatedExactlyWhen(s, f);
    }
  }

  lemma ChildNavigatedStaysIndexed(s: Manager, f: CdpFrame)
    requires WellShaped(s) && Indexed(s) && f.parentId.Some?
    ensures Indexed(OnFrameNavigated(s, f).manager)
  {
    hide FrameIndexed, WellShaped;
    var s' := OnFrameNavigated(s, f).manager;
    forall x | x in s'.frames
      ensures FrameIndexed(x, s'.frames[x], s'.contextIds)
    {
      SameWorldsSameIndex(x, s.frames[x], s'.frames[x], s.contextIds);
    }
  }

  lemma SameWorldsSameIndex(x: FrameId, f: Frame, f': Frame, index: map<string, FrameId>)
    requires FrameIndexed(x, f, index) && f'.mainWorld == f.mainWorld && f'.secondaryWorld == f.secondaryWorld
    ensures FrameIndexed(x, f', index)
  {
  }

  lemma TopNavigatedExactlyWhen(s: Manager, f: CdpFrame)
    requires WellShaped(s) && Indexed(s) && OnFrameNavigated(s, f).Alive? && f.parentId.None?
    ensures Indexed(OnFrameNavigated(s, f).manager) <==> NavigationFits(s, f)
  {
    var s' := OnFrameNavigated(s, f).manager;
    NavigatedKeepsShape(s, f);
    hide WellShaped, Pruned;
    assert s'.frames.Keys == {f.id};
    if s.mainFrame.Some? {
      var main := s.mainFrame.value;
      assert FrameIndexed(main, s.frames[main], s.contextIds);
      assert Indexed(s') <==> FrameIndexed(f.id, s'.frames[f.id], s.contextIds);
    }
  }

  // ---------- Whole runs ----------

  /** Every parentless frame of the tree has the id `main`. */
  predicate OnlyRoot(tree: BrowserFrameTree, main: FrameId)
    decreases tree, 1
  {
    (tree.frame.parentId.None? ==> tree.frame.id == main) && OnlyRootAll(tree.children, main)
  }

  predicate OnlyRootAll(trees: seq<BrowserFrameTree>, main: FrameId)
    decreases trees, 0
  {
    trees == [] || (OnlyRoot(trees[0], main) && OnlyRootAll(trees[1..], main))
  }

  /** All parentless frames the browser reports are the one main frame. */
  predicate KeepsMainId(trace: seq<Event>, main: FrameId) {
    forall i | 0 <= i < |trace| ::
      match trace[i]
      case FrameNavigated(f) => f.parentId.None? ==> f.id == main
      case FrameTreeReceived(tree) => OnlyRoot(tree, main)
      case _ => true
  }

  /** The browser never reuses the unique id of a context. */
  predicate FreshContexts(trace: seq<Event>) {
    forall i, j | 0 <= i < j < |trace| && trace[i].ContextCreated? && trace[j].ContextCreated? ::
      trace[i].ctx.uniqueId != trace[j].ctx.uniqueId
  }

  /** Only contexts that were created are indexed. */
  predicate IndexFrom(index: map<string, FrameId>, trace: seq<Event>) {
    forall u | u in index :: exists i | 0 <= i < |trace| :: trace[i].ContextCreated? && trace[i].ctx.uniqueId == u
  }

  ghost predicate Good(s: Manager, main: FrameId) {
    WellShaped(s) && Indexed(s) && (s.mainFrame.Some? ==> s.mainFrame.value == main)
  }

  lemma {:induction false} TreeStaysIndexed(s: Manager, tree: BrowserFrameTree, main: FrameId)
    requires Good(s, main) && OnlyRoot(tree, main)
    ensures OnFrameTree(s, tree).Alive? ==>
      Good(OnFrameTree(s, tree).manager, main) && OnFrameTree(s, tree).manager.contextIds == s.contextIds
    decreases tree, 1
  {
    var s1 := OnFrameAttached(s, tree.frame.id, tree.frame.parentId);
    AttachedStaysGood(s, tree.frame.id, tree.frame.parentId, main);
    NavigatedStaysGood(s1, tree.frame, main);
    if OnFrameNavigated(s1, tree.frame).Alive? {
      TreesStayIndexed(OnFrameNavigated(s1, tree.frame).manager, tree.children, main);
    }
  }

  lemma {:induction false} TreesStayIndexed(s: Manager, trees: seq<BrowserFrameTree>, main: FrameId)
    requires Good(s, main) && OnlyRootAll(trees, main)
    ensures OnFrameTrees(s, trees).Alive? ==>
      Good(OnFrameTrees(s, trees).manager, main) && OnFrameTrees(s, trees).manager.contextIds == s.contextIds
    decreases trees, 0
  {
    if trees != [] {
      TreeStaysIndexed(s, trees[0], main);
      if OnFrameTree(s, trees[0]).Alive? {
        TreesStayIndexed(OnFrameTree(s, trees[0]).manager, trees[1..], main);
      }
    }
  }

  lemma AttachedStaysIndexed(s: Manager, id: FrameId, parent: Option<FrameId>)
    requires WellShaped(s) && Indexed(s)
    ensures WellShaped(OnFrameAttached(s, id, parent)) && Indexed(OnFrameAttached(s, id, parent))
  {
    StepKeepsShape(s, FrameAttached(id, parent));
    hide WellShaped;
    var s' := OnFrameAttached(s, id, parent);
    forall x | x in s'.frames
      ensures FrameIndexed(x, s'.frames[x], s'.contextIds)
    {
      assert x in s.frames ==> FrameIndexed(x, s.frames[x], s.contextIds);
    }
  }

  lemma AttachedStaysGood(s: Manager, id: FrameId, parent: Option<FrameId>, main: FrameId)
    requires Good(s, main)
    ensures Good(OnFrameAttached(s, id, parent), main)
  {
    AttachedStaysIndexed(s, id, parent);
  }

  lemma NavigatedStaysGood(s: Manager, f: CdpFrame, main: FrameId)
    requires Good(s, main) && (f.parentId.None? ==> f.id == main)
    ensures OnFrameNavigated(s, f).Alive? ==>
      Good(OnFrameNavigated(s, f).manager, main) && OnFrameNavigated(s, f).manager.contextIds == s.contextIds
  {
    if OnFrameNavigated(s, f).Alive? {
      NavigatedKeepsShape(s, f);
      NavigatedExactlyWhen(s, f);
    }
  }

  predicate SameWorlds(f: Frame, g: Frame) {
    f.mainWorld == g.mainWorld && f.secondaryWorld == g.secondaryWorld
  }

  predicate KeepsWorlds(s: Manager, s': Manager) {
    && s'.frames.Keys <= s.frames.Keys && s'.contextIds == s.contextIds && s'.mainFrame == s.mainFrame
    && forall x | x in s'.frames :: SameWorlds(s'.frames[x], s.frames[x])
  }

  lemma OthersKeepWorlds(s: Manager, e: Event)
    requires Forest(s.frames) && !e.FrameTreeReceived? && !e.FrameNavigated? && !e.FrameAttached?
    requires !e.ContextCreated? && !e.ContextDestroyed? && !e.ContextsCleared?
    ensures KeepsWorlds(s, Step(s, e).manager)
  {
    if e.StoppedLoading? || e.StartedLoading? || e.LifecycleEvent? {
      LoadingKeepsWorlds(s, e);
    } else if e.NavigatedWithinDocument? || e.HttpFinished? {
      DocumentKeepsWorlds(s, e);
    } else {
      RestKeepsWorlds(s, e);
    }
  }

  lemma LoadingKeepsWorlds(s: Manager, e: Event)
    requires Forest(s.frames) && (e.StoppedLoading? || e.StartedLoading? || e.LifecycleEvent?)
    ensures KeepsWorlds(s, Step(s, e).manager)
  {
    hide Forest;
  }

  lemma DocumentKeepsWorlds(s: Manager, e: Event)
    requires Forest(s.frames) && (e.NavigatedWithinDocument? || e.HttpFinished?)
    ensures KeepsWorlds(s, Step(s, e).manager)
  {
    hide Forest;
  }

  lemma RestKeepsWorlds(s: Manager, e: Event)
    requires Forest(s.frames) && !e.FrameTreeReceived? && !e.FrameNavigated? && !e.FrameAttached?
    requires !e.ContextCreated? && !e.ContextDestroyed? && !e.ContextsCleared?
    requires !e.StoppedLoading? && !e.StartedLoading? && !e.LifecycleEvent? && !e.NavigatedWithinDocument? && !e.HttpFinished?
    ensures KeepsWorlds(s, Step(s, e).manager)
  {
    hide OnStoppedLoading, OnStartedLoading, OnLifecycleEvent, OnNavigatedWithinDocument, OnHttpRequestFinished,
      OnFrameAttached, OnFrameNavigated, OnFrameTree, OnContextCreated, OnContextDestroyed, OnContextsCleared;
    if e.PollRequested? {
      hide Poll;
      PollKeepsFrames(s, e.now, e.clock);
    }
  }

  lemma StepStaysGood(s: Manager, e: Event, main: FrameId)
    requires Good(s, main)
    requires e.FrameNavigated? ==> e.frame.parentId.None? ==> e.frame.id == main
    requires e.FrameTreeReceived? ==> OnlyRoot(e.tree, main)
    requires e.ContextCreated? ==> e.ctx.uniqueId !in s.contextIds
    ensures Step(s, e).Alive? ==>
      Good(Step(s, e).manager, main)
      && Step(s, e).manager.contextIds.Keys <= s.contextIds.Keys + (if e.ContextCreated? then {e.ctx.uniqueId} else {})
  {
    match e
    case ContextCreated(_) => ContextStepStaysGood(s, e, main);
    case ContextDestroyed(_) => ContextStepStaysGood(s, e, main);
    case ContextsCleared => ContextStepStaysGood(s, e, main);
    case _ => OtherStepStaysGood(s, e, main);
  }

  lemma ContextStepStaysGood(s: Manager, e: Event, main: FrameId)
    requires Good(s, main) && (e.ContextCreated? || e.ContextDestroyed? || e.ContextsCleared?)
    requires e.ContextCreated? ==> e.ctx.uniqueId !in s.contextIds
    ensures Step(s, e).Alive?
    ensures Good(Step(s, e).manager, main)
    ensures Step(s, e).manager.contextIds.Keys <= s.contextIds.Keys + (if e.ContextCreated? then {e.ctx.uniqueId} else {})
  {
    StepKeepsShape(s, e);
    GoodIds(s, main);
    hide WellShaped, Indexed;
    match e
    case ContextCreated(ctx) => FreshContextStaysIndexed(s, ctx);
    case ContextDestroyed(u) => DestroyedContextIsGone(s, u);
    case ContextsCleared => ClearedContextsAreGone(s);
  }

  lemma OtherStepStaysGood(s: Manager, e: Event, main: FrameId)
    requires Good(s, main) && !e.ContextCreated? && !e.ContextDestroyed? && !e.ContextsCleared?
    requires e.FrameNavigated? ==> e.frame.parentId.None? ==> e.frame.id == main
    requires e.FrameTreeReceived? ==> OnlyRoot(e.tree, main)
    ensures Step(s, e).Alive? ==>
      Good(Step(s, e).manager, main) && Step(s, e).manager.contextIds.Keys <= s.contextIds.Keys
  {
    StepKeepsShape(s, e);
    GoodIds(s, main);
    hide OnFrameAttached, OnFrameNavigated, OnFrameTree, WellShaped, Indexed;
    match e
    case FrameAttached(id, parent) => AttachedStaysGood(s, id, parent, main);
    case FrameNavigated(f) => NavigatedStaysGood(s, f, main);
    case FrameTreeReceived(tree) => TreeStaysIndexed(s, tree, main);
    case _ =>
      hide Step;
      GoodLinks(s, main);
      OthersStayIndexed(s, e);
  }

  lemma GoodLinks(s: Manager, main: FrameId)
    requires Good(s, main)
    ensures Forest(s.frames)
  {
  }

  lemma GoodIds(s: Manager, main: FrameId)
    requires Good(s, main)
    ensures forall x | x in s.frames :: s.frames[x].id == x
  {
  }

  lemma FreshContextStaysIndexed(s: Manager, ctx: ContextInfo)
    requires (forall x | x in s.frames :: s.frames[x].id == x) && Indexed(s) && ctx.uniqueId !in s.contextIds
    ensures Indexed(OnContextCreated(s, ctx))
  {
    forall x | x in s.frames
      ensures !HoldsContext(s.frames[x], ctx.uniqueId)
    {
      assert FrameIndexed(x, s.frames[x], s.contextIds);
    }
    ContextCreatedExactlyWhen(s, ctx);
  }

  lemma OthersStayIndexed(s: Manager, e: Event)
    requires Forest(s.frames) && Indexed(s)
    requires !e.FrameTreeReceived? && !e.FrameNavigated? && !e.FrameAttached?
    requires !e.ContextCreated? && !e.ContextDestroyed? && !e.ContextsCleared?
    ensures Indexed(Step(s, e).manager)
    ensures Step(s, e).manager.contextIds == s.contextIds && Step(s, e).manager.mainFrame == s.mainFrame
  {
    OthersKeepWorlds(s, e);
    forall x | x in Step(s, e).manager.frames
      ensures FrameIndexed(x, Step(s, e).manager.frames[x], s.contextIds)
    {
      assert FrameIndexed(x, s.frames[x], s.contextIds);
    }
  }

  /** In every run in which the main frame keeps its id and unique ids are not reused, the index is right. */
  lemma {:induction false} IndexedInEveryRun(trace: seq<Event>, main: FrameId)
    requires KeepsMainId(trace, main) && FreshContexts(trace) && Run(trace).Alive?
    ensures Indexed(Run(trace).manager)
    ensures Run(trace).manager.mainFrame.Some? ==> Run(trace).manager.mainFrame.value == main
    ensures IndexFrom(Run(trace).manager.contextIds, trace)
  {
    if trace != [] {
      var last := |trace| - 1;
      var before := trace[..last];
      IndexedInEveryRun(before, main);
      var s := Run(before).manager;
      assert trace[last].ContextCreated? ==> trace[last].ctx.uniqueId !in s.contextIds;
      StepStaysGood(s, trace[last], main);
      forall u | u in Run(trace).manager.contextIds
        ensures exists i | 0 <= i < |trace| :: trace[i].ContextCreated? && trace[i].ctx.uniqueId == u
      {
        if u in s.contextIds {
          var i :| 0 <= i < |before| && before[i].ContextCreated? && before[i].ctx.uniqueId == u;
          assert trace[i] == before[i];
        } else {
          assert trace[last].ctx.uniqueId == u;
        }
      }
    }
  }

  // ---------- Exactly the runs in which the index stays right ----------

  /** Every navigation that recording the tree consists of keeps the index right. */
  ghost predicate TreeFits(s: Manager, tree: BrowserFrameTree)
    decreases tree, 1
  {
    var s1 := OnFrameAttached(s, tree.frame.id, tree.frame.parentId);
    var o := OnFrameNavigated(s1, tree.frame);
    NavigationFits(s1, tree.frame) && (o.Alive? ==> TreesFit(o.manager, tree.children))
  }

  ghost predicate TreesFit(s: Manager, trees: seq<BrowserFrameTree>)
    decreases trees, 0
  {
    trees == [] ||
    (TreeFits(s, trees[0]) && (OnFrameTree(s, trees[0]).Alive? ==> TreesFit(OnFrameTree(s, trees[0]).manager, trees[1..])))
  }

  /** The index is right after each navigation that recording the tree consists of. */
  ghost predicate IndexedInTree(s: Manager, tree: BrowserFrameTree)
    decreases tree, 1
  {
    var o := OnFrameNavigated(OnFrameAttached(s, tree.frame.id, tree.frame.parentId), tree.frame);
    o.Alive? ==> Indexed(o.manager) && IndexedInTrees(o.manager, tree.children)
  }

  ghost predicate IndexedInTrees(s: Manager, trees: seq<BrowserFrameTree>)
    decreases trees, 0
  {
    trees == [] ||
    (IndexedInTree(s, trees[0])
     && (OnFrameTree(s, trees[0]).Alive? ==> IndexedInTrees(OnFrameTree(s, trees[0]).manager, trees[1..])))
  }

  lemma PanickedFits(s: Manager, f: CdpFrame)
    requires OnFrameNavigated(s, f).Panicked?
    ensures NavigationFits(s, f)
  {
  }

  lemma {:induction false} TreeExactlyWhen(s: Manager, tree: BrowserFrameTree)
    requires WellShaped(s) && Indexed(s)
    ensures IndexedInTree(s, tree) <==> TreeFits(s, tree)
    ensures IndexedInTree(s, tree) && OnFrameTree(s, tree).Alive? ==>
      WellShaped(OnFrameTree(s, tree).manager) && Indexed(OnFrameTree(s, tree).manager)
    decreases tree, 1
  {
    var s1 := OnFrameAttached(s, tree.frame.id, tree.frame.parentId);
    AttachedStaysIndexed(s, tree.frame.id, tree.frame.parentId);
    hide WellShaped, Indexed, OnFrameNavigated, OnFrameAttached, NavigationFits;
    var o := OnFrameNavigated(s1, tree.frame);
    if o.Alive? {
      NavigatedKeepsShape(s1, tree.frame);
      NavigatedExactlyWhen(s1, tree.frame);
      if Indexed(o.manager) {
        TreesExactlyWhen(o.manager, tree.children);
      }
    } else {
      PanickedFits(s1, tree.frame);
    }
  }

  lemma {:induction false} TreesExactlyWhen(s: Manager, trees: seq<BrowserFrameTree>)
    requires WellShaped(s) && Indexed(s)
    ensures IndexedInTrees(s, trees) <==> TreesFit(s, trees)
    ensures IndexedInTrees(s, trees) && OnFrameTrees(s, trees).Alive? ==>
      WellShaped(OnFrameTrees(s, trees).manager) && Indexed(OnFrameTrees(s, trees).manager)
    decreases trees, 0
  {
    hide WellShaped, Indexed;
    if trees != [] {
      TreeExactlyWhen(s, trees[0]);
      hide OnFrameTree, IndexedInTree, TreeFits;
      if IndexedInTree(s, trees[0]) && OnFrameTree(s, trees[0]).Alive? {
        TreesExactlyWhen(OnFrameTree(s, trees[0]).manager, trees[1..]);
      }
    }
  }

  /** The condition under which a step keeps the index right. */
  ghost predicate StepFits(s: Manager, e: Event) {
    match e
    case ContextCreated(ctx) => ContextFits(s, ctx)
    case FrameNavigated(f) => NavigationFits(s, f)
    case FrameTreeReceived(tree) => TreeFits(s, tree)
    case _ => true
  }

  /** The index is right after the step, and within it if it records a frame tree. */
  ghost predicate IndexedAfter(s: Manager, e: Event)
    requires WellShaped(s)
  {
    && (Step(s, e).Alive? ==> Indexed(Step(s, e).manager))
    && (e.FrameTreeReceived? ==> IndexedInTree(s, e.tree))
  }

  lemma StepExactlyWhen(s: Manager, e: Event)
    requires WellShaped(s) && Indexed(s)
    ensures IndexedAfter(s, e) <==> StepFits(s, e)
  {
    WellShapedIds(s);
    hide WellShaped, Indexed, OnFrameNavigated, OnFrameAttached, OnFrameTree, OnContextCreated, OnContextDestroyed,
      OnContextsCleared, NavigationFits, ContextFits, TreeFits, IndexedInTree;
    match e
    case FrameAttached(id, parent) => AttachedStaysIndexed(s, id, parent);
    case FrameNavigated(f) =>
      if OnFrameNavigated(s, f).Alive? {
        NavigatedExactlyWhen(s, f);
      } else {
        PanickedFits(s, f);
      }
    case FrameTreeReceived(tree) => TreeExactlyWhen(s, tree);
    case ContextCreated(ctx) => ContextCreatedExactlyWhen(s, ctx);
    case ContextDestroyed(u) => DestroyedContextIsGone(s, u);
    case ContextsCleared => ClearedContextsAreGone(s);
    case _ =>
      hide Step;
      OthersStayIndexed(s, e);
  }

  lemma WellShapedIds(s: Manager)
    requires WellShaped(s)
    ensures Forest(s.frames) && forall x | x in s.frames :: s.frames[x].id == x
  {
  }

  /** The index is right after every prefix of the run, and after each navigation of a recorded frame tree. */
  ghost predicate AlwaysIndexed(trace: seq<Event>) {
    forall i | 0 <= i < |trace| && Run(trace[..i]).Alive? :: IndexedAfter(Run(trace[..i]).manager, trace[i])
  }

  /** Every step of the run meets its condition. */
  ghost predicate AlwaysFits(trace: seq<Event>) {
    forall i | 0 <= i < |trace| && Run(trace[..i]).Alive? :: StepFits(Run(trace[..i]).manager, trace[i])
  }

  lemma AlwaysOneMore(trace: seq<Event>)
    requires trace != []
    ensures var before, e := trace[..|trace| - 1], trace[|trace| - 1];
            && (AlwaysIndexed(trace) <==>
                  AlwaysIndexed(before) && (Run(before).Alive? ==> IndexedAfter(Run(before).manager, e)))
            && (AlwaysFits(trace) <==> AlwaysFits(before) && (Run(before).Alive? ==> StepFits(Run(before).manager, e)))
  {
    hide Run, IndexedAfter, StepFits;
    var last := |trace| - 1;
    var before := trace[..last];
    assert forall i | 0 <= i < last :: before[..i] == trace[..i] && before[i] == trace[i];
  }

  lemma RunOneMore(trace: seq<Event>)
    requires trace != [] && Run(trace).Alive?
    ensures var before := trace[..|trace| - 1];
            Run(before).Alive? && Run(trace) == Step(Run(before).manager, trace[|trace| - 1])
  {
    hide Step;
  }

  /** In exactly the runs in which every step meets its condition, the index is right all the time. */
  lemma {:induction false} IndexedExactlyWhen(trace: seq<Event>)
    ensures AlwaysIndexed(trace) <==> AlwaysFits(trace)
    ensures AlwaysIndexed(trace) && Run(trace).Alive? ==> Indexed(Run(trace).manager)
  {
    if trace == [] {
      NothingIndexed();
    } else {
      var before, e := trace[..|trace| - 1], trace[|trace| - 1];
      IndexedExactlyWhen(before);
      AlwaysOneMore(trace);
      if Run(trace).Alive? {
        RunOneMore(trace);
      }
      hide Run, Step, IndexedAfter, StepFits, Indexed, AlwaysIndexed, AlwaysFits;
      if AlwaysIndexed(before) && Run(before).Alive? {
        StepExactlyWhen(Run(before).manager, e);
        AfterMeans(Run(before).manager, e);
      }
    }
  }

  lemma AfterMeans(s: Manager, e: Event)
    requires WellShaped(s)
    ensures IndexedAfter(s, e) && Step(s, e).Alive? ==> Indexed(Step(s, e).manager)
  {
    hide Step, Indexed;
  }

  lemma NothingIndexed()
    ensures Run([]) == Alive(NEW_MANAGER) && Indexed(NEW_MANAGER)
  {
  }

  /** Without the first assumption it fails: renaming the main frame strands its context, and destroying it misses. */
  lemma RenamedMainFrameStrandsItsContext()
    ensures var ctx := ContextInfo(Some(FrameId("A")), true, false, "", 1, "u");
            var s := OnFrameNavigated(NEW_MANAGER, CdpFrame(FrameId("A"), None, "", None, None));
            s.Alive? &&
            var renamed := OnFrameNavigated(OnContextCreated(s.manager, ctx), CdpFrame(FrameId("B"), None, "", None, None));
            renamed.Alive? &&
            var s' := OnContextDestroyed(renamed.manager, "u");
            FrameId("B") in s'.frames && HoldsContext(s'.frames[FrameId("B")], "u")
  {
    assert FrameId("A").raw[0] == 'A' && FrameId("B").raw[0] == 'B';
  }
}
