/** What the frame manager knows of each frame, computed from its events alone: the path down to the frame, and what was
  * last reported of it (src/handler/frame.rs:359-515). */
module FrameHistory {
  import opened Options
  import opened Sequences
  import opened Http
  import opened FrameTable
  import opened FrameOps
  import opened FrameManagerSpec
  import opened FrameRuns

  // ---------- A frame tree is its attachments and navigations ----------

  function UnfoldTree(tree: BrowserFrameTree): seq<Event>
    decreases tree, 1
  {
    [FrameAttached(tree.frame.id, tree.frame.parentId)] + [FrameNavigated(tree.frame)] + UnfoldTrees(tree.children)
  }

  function UnfoldTrees(trees: seq<BrowserFrameTree>): seq<Event>
    decreases trees, 0
  {
    if trees == [] then [] else UnfoldTree(trees[0]) + UnfoldTrees(trees[1..])
  }

  function Unfold(e: Event): seq<Event> {
    if e.FrameTreeReceived? then UnfoldTree(e.tree) else [e]
  }

  /** The run with every frame tree replaced by the events that it stands for. */
  function Unfolded(trace: seq<Event>): seq<Event> {
    if trace == [] then [] else Unfolded(Front(trace)) + Unfold(Last(trace))
  }

  /** The state after further events. */
  ghost function Play(s: Manager, events: seq<Event>): (r: Outcome)
    requires WellShaped(s)
    ensures r.Alive? ==> WellShaped(r.manager)
    decreases |events|
  {
    if events == [] then Alive(s)
    else
      StepKeepsShape(s, events[0]);
      match Step(s, events[0])
      case Panicked => Panicked
      case Alive(s') => Play(s', events[1..])
  }

  lemma {:induction false} PlayOn(s: Manager, a: seq<Event>, b: seq<Event>)
    requires WellShaped(s)
    ensures Play(s, a + b) == match Play(s, a) case Panicked => Panicked case Alive(s') => Play(s', b)
    decreases |a|
  {
    if a == [] {
      assert a + b == b;
    } else {
      assert (a + b)[1..] == a[1..] + b;
      StepKeepsShape(s, a[0]);
      if Step(s, a[0]).Alive? {
        PlayOn(Step(s, a[0]).manager, a[1..], b);
      }
    }
  }

  lemma PlayOne(s: Manager, e: Event)
    requires WellShaped(s)
    ensures Play(s, [e]) == Step(s, e)
  {
    assert [e][1..] == [];
    StepKeepsShape(s, e);
    hide Step;
  }

  lemma {:induction false} RunPlays(trace: seq<Event>)
    ensures Run(trace) == Play(NEW_MANAGER, trace)
  {
    if trace != [] {
      var before, e := Front(trace), Last(trace);
      assert trace == before + [e];
      RunPlays(before);
      PlayOn(NEW_MANAGER, before, [e]);
      hide Step, Play;
      if Run(before).Alive? {
        PlayOne(Run(before).manager, e);
      }
    }
  }

  lemma {:induction false} TreePlays(s: Manager, tree: BrowserFrameTree)
    requires WellShaped(s)
    ensures OnFrameTree(s, tree) == Play(s, UnfoldTree(tree))
    decreases tree, 1
  {
    var attached, navigated := FrameAttached(tree.frame.id, tree.frame.parentId), FrameNavigated(tree.frame);
    StepKeepsShape(s, attached);
    var s1 := OnFrameAttached(s, tree.frame.id, tree.frame.parentId);
    StepKeepsShape(s1, navigated);
    PlayOne(s, attached);
    PlayOne(s1, navigated);
    PlayOn(s, [attached], [navigated]);
    PlayOn(s, [attached] + [navigated], UnfoldTrees(tree.children));
    hide Play, OnFrameNavigated, OnFrameAttached;
    if OnFrameNavigated(s1, tree.frame).Alive? {
      TreesPlay(OnFrameNavigated(s1, tree.frame).manager, tree.children);
    }
  }

  lemma {:induction false} TreesPlay(s: Manager, trees: seq<BrowserFrameTree>)
    requires WellShaped(s)
    ensures OnFrameTrees(s, trees) == Play(s, UnfoldTrees(trees))
    decreases trees, 0
  {
    if trees != [] {
      TreePlays(s, trees[0]);
      FrameTreeKeepsShape(s, trees[0]);
      PlayOn(s, UnfoldTree(trees[0]), UnfoldTrees(trees[1..]));
      hide Play, OnFrameTree;
      if OnFrameTree(s, trees[0]).Alive? {
        TreesPlay(OnFrameTree(s, trees[0]).manager, trees[1..]);
      }
    }
  }

  /** Every run reaches what the unfolded run reaches. */
  lemma {:induction false} UnfoldedRuns(trace: seq<Event>)
    ensures Run(Unfolded(trace)) == Run(trace)
  {
    if trace != [] {
      var before, e := Front(trace), Last(trace);
      UnfoldedRuns(before);
      RunPlays(Unfolded(before));
      RunPlays(Unfolded(trace));
      PlayOn(NEW_MANAGER, Unfolded(before), Unfold(e));
      hide Play;
      if Run(before).Alive? {
        if e.FrameTreeReceived? {
          TreePlays(Run(before).manager, e.tree);
        } else {
          PlayOne(Run(before).manager, e);
        }
      }
    }
  }

  predicate Plain(trace: seq<Event>) {
    forall i | 0 <= i < |trace| :: !trace[i].FrameTreeReceived?
  }

  lemma {:induction false} TreeUnfoldsPlainly(tree: BrowserFrameTree)
    ensures Plain(UnfoldTree(tree))
    decreases tree, 1
  {
    TreesUnfoldPlainly(tree.children);
  }

  lemma {:induction false} TreesUnfoldPlainly(trees: seq<BrowserFrameTree>)
    ensures Plain(UnfoldTrees(trees))
    decreases trees, 0
  {
    if trees != [] {
      TreeUnfoldsPlainly(trees[0]);
      TreesUnfoldPlainly(trees[1..]);
    }
  }

  lemma {:induction false} UnfoldsPlainly(trace: seq<Event>)
    ensures Plain(Unfolded(trace))
  {
    if trace != [] {
      UnfoldsPlainly(Front(trace));
      if Last(trace).FrameTreeReceived? {
        TreeUnfoldsPlainly(Last(trace).tree);
      }
    }
  }

  // ---------- Where each frame is ----------

  /** The frame that the last navigation without a parent named. */
  function Main(trace: seq<Event>): Option<FrameId> {
    if trace == [] then None
    else if Last(trace).FrameNavigated? && Last(trace).frame.parentId.None? then Some(Last(trace).frame.id)
    else Main(Front(trace))
  }

  /** The path from the main frame down to a tracked frame, fixed when it is attached. */
  function Path(trace: seq<Event>, x: FrameId): Option<seq<FrameId>> {
    if trace == [] then None
    else
      var before := Front(trace);
      var path := Path(before, x);
      match Last(trace)
      case FrameAttached(id, parent) =>
        if id == x && path.None? && parent.Some? && Path(before, parent.value).Some?
        then Some(Path(before, parent.value).value + [x])
        else path
      case FrameDetached(id) => if path.Some? && id in path.value then None else path
      case FrameNavigated(f) =>
        if f.parentId.None? then (if f.id == x then Some([x]) else None)
        else if path.Some? && f.id in path.value && f.id != x then None else path
      case _ => path
  }

  /** Frame `x` is tracked, at or below frame `a`. */
  predicate OnPath(trace: seq<Event>, x: FrameId, a: FrameId) {
    Path(trace, x).Some? && a in Path(trace, x).value
  }

  /** The last but one frame of a path. */
  function ParentOn(path: seq<FrameId>): Option<FrameId> {
    if |path| < 2 then None else Some(path[|path| - 2])
  }

  /** The frame is tracked exactly if it has a path, below the parent on it, which has the path before. */
  ghost predicate PathFits(t: Table, trace: seq<Event>, x: FrameId) {
    && (x in t <==> Path(trace, x).Some?)
    && (x in t ==>
          var path := Path(trace, x).value;
          && path != [] && Last(path) == x && x !in Front(path) && t[x].id == x && t[x].parent == ParentOn(path)
          && (|path| > 1 ==> Path(trace, path[|path| - 2]) == Some(Front(path))))
  }

  ghost predicate PathsFit(t: Table, trace: seq<Event>) {
    forall x :: PathFits(t, trace, x)
  }

  /** A frame is below exactly the frames on its path. */
  lemma {:induction false} PathsAreBelow(t: Table, trace: seq<Event>, x: FrameId, a: FrameId)
    requires PathsFit(t, trace)
    ensures Under(t, x, a) <==> OnPath(trace, x, a)
    decreases if Path(trace, x).Some? then |Path(trace, x).value| else 0
  {
    UnderParent(t, x, a);
    assert PathFits(t, trace, x);
    if x in t {
      var path := Path(trace, x).value;
      assert path == Front(path) + [x];
      if |path| > 1 {
        var parent := path[|path| - 2];
        assert PathFits(t, trace, parent);
        PathsAreBelow(t, trace, parent, a);
      } else {
        assert path == [x];
      }
    }
  }

  lemma AttachedFits(t: Table, trace: seq<Event>, id: FrameId, parent: Option<FrameId>)
    requires PathsFit(t, trace)
    ensures PathsFit(Attached(t, id, parent), trace + [FrameAttached(id, parent)])
  {
    var longer := trace + [FrameAttached(id, parent)];
    assert Front(longer) == trace;
    forall x
      ensures PathFits(Attached(t, id, parent), longer, x)
    {
      assert PathFits(t, trace, x) && PathFits(t, trace, id);
      if parent.Some? {
        assert PathFits(t, trace, parent.value);
      }
      if x in t && |Path(trace, x).value| > 1 {
        var path := Path(trace, x).value;
        assert PathFits(t, trace, path[|path| - 2]);
      }
      if x == id && x !in t && parent.Some? && parent.value in t {
        if x in Path(trace, parent.value).value {
          OnPathIsTracked(t, trace, parent.value, x);
        }
        assert Front(Path(trace, parent.value).value + [x]) == Path(trace, parent.value).value;
      }
    }
  }

  lemma DetachedFits(t: Table, trace: seq<Event>, id: FrameId)
    requires PathsFit(t, trace)
    ensures PathsFit(Pruned(t, {id}), trace + [FrameDetached(id)])
  {
    var longer, u := trace + [FrameDetached(id)], Pruned(t, {id});
    assert Front(longer) == trace;
    forall x
      ensures PathFits(u, longer, x)
    {
      assert PathFits(t, trace, x);
      UnderAnySingle(t, x, id);
      PathsAreBelow(t, trace, x, id);
      if x in u && |Path(trace, x).value| > 1 {
        var path := Path(trace, x).value;
        assert PathFits(t, trace, path[|path| - 2]);
        assert forall a | a in Front(path) :: a in path;
      }
    }
  }

  lemma ChildNavigatedFits(s: Manager, trace: seq<Event>, f: CdpFrame)
    requires PathsFit(s.frames, trace) && f.parentId.Some?
    ensures OnFrameNavigated(s, f).Alive? && PathsFit(OnFrameNavigated(s, f).manager.frames, trace + [FrameNavigated(f)])
  {
    var t, longer, u := s.frames, trace + [FrameNavigated(f)], OnFrameNavigated(s, f).manager.frames;
    assert Front(longer) == trace;
    forall x
      ensures PathFits(u, longer, x)
    {
      assert PathFits(t, trace, x) && PathFits(t, trace, f.id);
      PathsAreBelow(t, trace, x, f.id);
      if f.id !in t && x in t && f.id in Path(trace, x).value {
        OnPathIsTracked(t, trace, x, f.id);
      }
      if x in u && |Path(trace, x).value| > 1 {
        var path := Path(trace, x).value;
        assert PathFits(t, trace, path[|path| - 2]);
        assert forall a | a in Front(path) :: a in path;
      }
    }
  }

  /** All frames on the path of a tracked frame are tracked. */
  lemma {:induction false} OnPathIsTracked(t: Table, trace: seq<Event>, x: FrameId, a: FrameId)
    requires PathsFit(t, trace) && OnPath(trace, x, a)
    ensures a in t
    decreases |Path(trace, x).value|
  {
    assert PathFits(t, trace, x);
    var path := Path(trace, x).value;
    assert path == Front(path) + [x];
    if a != x {
      assert |path| > 1;
      assert PathFits(t, trace, path[|path| - 2]);
      OnPathIsTracked(t, trace, path[|path| - 2], a);
    }
  }

  lemma TopNavigatedFits(s: Manager, trace: seq<Event>, f: CdpFrame)
    requires WellShaped(s) && f.parentId.None? && OnFrameNavigated(s, f).Alive?
    ensures PathsFit(OnFrameNavigated(s, f).manager.frames, trace + [FrameNavigated(f)])
  {
    TopNavigatedIsAlone(s, f);
    var longer := trace + [FrameNavigated(f)];
    assert Front(longer) == trace;
    hide OnFrameNavigated;
    var u := OnFrameNavigated(s, f).manager.frames;
    forall x
      ensures PathFits(u, longer, x)
    {
      assert x in u <==> x == f.id;
    }
  }

  lemma SameLinksFit(t: Table, u: Table, trace: seq<Event>, e: Event)
    requires PathsFit(t, trace) && SameLinks(u, t) && !Structural(e)
    ensures PathsFit(u, trace + [e])
  {
    var longer := trace + [e];
    assert Front(longer) == trace;
    forall x
      ensures PathFits(u, longer, x)
    {
      assert PathFits(t, trace, x);
    }
  }

  lemma StepPathsFit(s: Manager, trace: seq<Event>, e: Event)
    requires WellShaped(s) && PathsFit(s.frames, trace) && s.mainFrame == Main(trace) && !e.FrameTreeReceived?
    ensures Step(s, e).Alive? ==>
      PathsFit(Step(s, e).manager.frames, trace + [e]) && Step(s, e).manager.mainFrame == Main(trace + [e])
  {
    assert Front(trace + [e]) == trace;
    hide PathsFit, OnFrameNavigated, Path;
    match e
    case FrameAttached(id, parent) => AttachedFits(s.frames, trace, id, parent);
    case FrameDetached(id) => DetachedFits(s.frames, trace, id);
    case FrameNavigated(f) =>
      if f.parentId.Some? {
        ChildNavigatedFits(s, trace, f);
        ChildKeepsMain(s, f);
      } else if OnFrameNavigated(s, f).Alive? {
        TopNavigatedFits(s, trace, f);
        TopNavigatedIsAlone(s, f);
      }
    case _ => OtherPathsFit(s, trace, e);
  }

  lemma OtherPathsFit(s: Manager, trace: seq<Event>, e: Event)
    requires Forest(s.frames) && PathsFit(s.frames, trace) && !Structural(e)
    ensures Step(s, e).Alive? && PathsFit(Step(s, e).manager.frames, trace + [e])
    ensures Step(s, e).manager.mainFrame == s.mainFrame
  {
    OthersKeepLinks(s, e);
    hide Step, PathsFit;
    SameLinksFit(s.frames, Step(s, e).manager.frames, trace, e);
  }

  lemma ChildKeepsMain(s: Manager, f: CdpFrame)
    requires f.parentId.Some?
    ensures OnFrameNavigated(s, f).manager.mainFrame == s.mainFrame
  {
  }

  lemma RunBefore(trace: seq<Event>)
    requires trace != [] && Run(trace).Alive?
    ensures Run(Front(trace)).Alive? && Run(trace) == Step(Run(Front(trace)).manager, Last(trace))
    ensures Front(trace) + [Last(trace)] == trace
  {
    hide Step;
  }

  /** In every run the tracked frames are those that have a path, each below its parent on the path, which is attached
    * while the frame is tracked; and the main frame is the one that navigated last without a parent. */
  lemma {:induction false} PathsInEveryRun(trace: seq<Event>)
    requires Plain(trace) && Run(trace).Alive?
    ensures PathsFit(Run(trace).manager.frames, trace) && Run(trace).manager.mainFrame == Main(trace)
  {
    if trace == [] {
      NothingTracked();
    } else {
      RunBefore(trace);
      hide Run, Step, PathsFit, Main;
      PathsInEveryRun(Front(trace));
      StepPathsFit(Run(Front(trace)).manager, Front(trace), Last(trace));
    }
  }

  lemma NothingTracked()
    ensures Run([]) == Alive(NEW_MANAGER) && PathsFit(map[], [])
  {
  }

  /** What follows for descendants. */
  lemma BelowInEveryRun(trace: seq<Event>, x: FrameId, a: FrameId)
    requires Plain(trace) && Run(trace).Alive?
    ensures x in Subtree(Run(trace).manager.frames, a) <==> OnPath(trace, x, a)
  {
    PathsInEveryRun(trace);
    PathsAreBelow(Run(trace).manager.frames, trace, x, a);
    assert PathFits(Run(trace).manager.frames, trace, x);
  }

  // ---------- What was last reported of each frame ----------

  datatype Record = Record(
    name: Option<string>, url: Option<string>, loader: Option<string>, lifecycle: set<string>,
    request: Option<HttpRequest>, main: DomWorld, secondary: DomWorld)

  const FRESH := Record(None, None, None, {}, None, NO_WORLD, NO_WORLD)

  /** The frame that the context belongs to, until it is destroyed. */
  function ContextOf(trace: seq<Event>, u: string): Option<FrameId> {
    if trace == [] then None
    else
      var before := Front(trace);
      match Last(trace)
      case ContextCreated(ctx) =>
        if ctx.uniqueId == u && ctx.frame.Some? && Path(before, ctx.frame.value).Some? then ctx.frame
        else ContextOf(before, u)
      case ContextDestroyed(destroyed) => if destroyed == u then None else ContextOf(before, u)
      case ContextsCleared => None
      case _ => ContextOf(before, u)
  }

  ghost function ContextsOf(trace: seq<Event>, x: FrameId): iset<string> {
    iset u | ContextOf(trace, u) == Some(x)
  }

  /** What an event tells of frame `x`. */
  function Told(r: Record, e: Event, x: FrameId): Record {
    match e
    case FrameNavigated(f) =>
      if f.id == x then r.(name := f.name, url := Some(f.url + if f.urlFragment.Some? then f.urlFragment.value else "")) else r
    case NavigatedWithinDocument(id, url) => if id == x then r.(url := Some(url)) else r
    case StoppedLoading(id) => if id == x then r.(lifecycle := r.lifecycle + {"DOMContentLoaded", "load"}) else r
    case StartedLoading(id) => if id == x then r.(lifecycle := {}, request := None) else r
    case LifecycleEvent(id, name, loader) =>
      if id != x then r
      else if name == "init" then r.(loader := Some(loader), lifecycle := {"init"})
      else r.(lifecycle := r.lifecycle + {name})
    case HttpFinished(request) => if request.frame == Some(x) then r.(request := Some(request)) else r
    case ContextCreated(ctx) =>
      if ctx.frame != Some(x) then r
      else if ctx.isDefault then r.(main := DomWorld(Some(ctx.id), Some(ctx.uniqueId)))
      else if ctx.name == "__chromiumoxide_utility_world__" && r.secondary.context.None?
      then r.(secondary := DomWorld(Some(ctx.id), Some(ctx.uniqueId)))
      else r
    case _ => r
  }

  /** What an event takes from the worlds of frame `x`, to which the contexts of `mine` belong. */
  ghost function Taken(r: Record, e: Event, mine: iset<string>): Record {
    match e
    case ContextDestroyed(u) =>
      if u !in mine then r
      else if r.main.uniqueId == Some(u) then r.(main := NO_WORLD)
      else if r.secondary.uniqueId == Some(u) then r.(secondary := NO_WORLD)
      else r
    case ContextsCleared => if exists u :: u in mine then r.(main := NO_WORLD, secondary := NO_WORLD) else r
    case _ => r
  }

  /** What was last reported of frame `x` since it is tracked. A main frame that is renamed keeps what was reported. */
  ghost function RecordOf(trace: seq<Event>, x: FrameId): Record {
    if trace == [] then FRESH
    else
      var before, e := Front(trace), Last(trace);
      var r :=
        if e.FrameNavigated? && e.frame.parentId.None? then
          (if e.frame.id == x && Main(before).Some? then RecordOf(before, Main(before).value) else FRESH)
        else if Path(before, x).None? then FRESH
        else RecordOf(before, x);
      Taken(Told(r, e, x), e, ContextsOf(before, x))
  }

  predicate Shows(f: Frame, r: Record) {
    && f.name == r.name && f.url == r.url && f.loaderId == r.loader && f.lifecycle == r.lifecycle
    && f.httpRequest == r.request && f.mainWorld == r.main && f.secondaryWorld == r.secondary
  }

  ghost predicate ShowsAll(t: Table, trace: seq<Event>) {
    forall x | x in t :: Shows(t[x], RecordOf(trace, x))
  }

  ghost predicate Indexes(index: map<string, FrameId>, trace: seq<Event>) {
    forall u :: if ContextOf(trace, u).Some? then u in index && index[u] == ContextOf(trace, u).value else u !in index
  }

  /** All that is known of a frame manager after its events. */
  ghost predicate Known(s: Manager, trace: seq<Event>) {
    && WellShaped(s) && PathsFit(s.frames, trace) && s.mainFrame == Main(trace)
    && ShowsAll(s.frames, trace) && Indexes(s.contextIds, trace)
  }

  lemma RecordOneMore(trace: seq<Event>, e: Event, x: FrameId)
    ensures var r :=
              if e.FrameNavigated? && e.frame.parentId.None? then
                (if e.frame.id == x && Main(trace).Some? then RecordOf(trace, Main(trace).value) else FRESH)
              else if Path(trace, x).None? then FRESH
              else RecordOf(trace, x);
            RecordOf(trace + [e], x) == Taken(Told(r, e, x), e, ContextsOf(trace, x))
  {
    assert Front(trace + [e]) == trace;
    hide Told, Taken, Main, Path, ContextOf, ContextsOf;
  }

  /** Events that do not concern which frames are tracked, seen by one frame. */
  lemma OtherShows(s: Manager, e: Event, x: FrameId, r: Record, mine: iset<string>)
    requires Forest(s.frames) && !Structural(e) && x in s.frames && Shows(s.frames[x], r)
    requires forall u :: u in mine <==> u in s.contextIds && s.contextIds[u] == x
    ensures Step(s, e).Alive? && x in Step(s, e).manager.frames
    ensures Shows(Step(s, e).manager.frames[x], Taken(Told(r, e, x), e, mine))
  {
    if e.ContextCreated? || e.ContextDestroyed? || e.ContextsCleared? {
      ContextShows(s, e, x, r, mine);
    } else if e.PollRequested? {
      hide Poll;
      PollKeepsFrames(s, e.now, e.clock);
    } else if e.NavigatedWithinDocument? || e.HttpFinished? {
      DocumentShows(s, e, x, r, mine);
    } else {
      LoadingShows(s, e, x, r, mine);
    }
  }

  lemma ContextShows(s: Manager, e: Event, x: FrameId, r: Record, mine: iset<string>)
    requires Forest(s.frames) && (e.ContextCreated? || e.ContextDestroyed? || e.ContextsCleared?)
    requires x in s.frames && Shows(s.frames[x], r)
    requires forall u :: u in mine <==> u in s.contextIds && s.contextIds[u] == x
    ensures Step(s, e).Alive? && x in Step(s, e).manager.frames
    ensures Shows(Step(s, e).manager.frames[x], Taken(Told(r, e, x), e, mine))
  {
    hide Forest;
    if e.ContextsCleared? {
      assert x in s.contextIds.Values <==> exists u :: u in mine;
    }
  }

  lemma DocumentShows(s: Manager, e: Event, x: FrameId, r: Record, mine: iset<string>)
    requires Forest(s.frames) && (e.NavigatedWithinDocument? || e.HttpFinished?)
    requires x in s.frames && Shows(s.frames[x], r)
    ensures Step(s, e).Alive? && x in Step(s, e).manager.frames
    ensures Shows(Step(s, e).manager.frames[x], Taken(Told(r, e, x), e, mine))
  {
    hide Forest;
  }

  lemma LoadingShows(s: Manager, e: Event, x: FrameId, r: Record, mine: iset<string>)
    requires Forest(s.frames) && !Structural(e) && !e.ContextCreated? && !e.ContextDestroyed? && !e.ContextsCleared?
    requires !e.PollRequested? && !e.NavigatedWithinDocument? && !e.HttpFinished?
    requires x in s.frames && Shows(s.frames[x], r)
    ensures Step(s, e).Alive? && x in Step(s, e).manager.frames
    ensures Shows(Step(s, e).manager.frames[x], Taken(Told(r, e, x), e, mine))
  {
    hide Forest;
  }

  lemma OthersShowAll(s: Manager, trace: seq<Event>, e: Event)
    requires Known(s, trace) && !Structural(e)
    ensures Step(s, e).Alive? && ShowsAll(Step(s, e).manager.frames, trace + [e])
  {
    OthersKeepLinks(s, e);
    forall x | x in s.frames
      ensures Shows(Step(s, e).manager.frames[x], RecordOf(trace + [e], x))
    {
      assert PathFits(s.frames, trace, x);
      RecordOneMore(trace, e, x);
      hide Step, RecordOf, Path, Told, Taken;
      forall u
        ensures u in ContextsOf(trace, x) <==> u in s.contextIds && s.contextIds[u] == x
      {
      }
      OtherShows(s, e, x, RecordOf(trace, x), ContextsOf(trace, x));
    }
  }

  lemma AttachedShows(s: Manager, trace: seq<Event>, id: FrameId, parent: Option<FrameId>)
    requires Known(s, trace)
    ensures ShowsAll(OnFrameAttached(s, id, parent).frames, trace + [FrameAttached(id, parent)])
  {
    var e, u := FrameAttached(id, parent), OnFrameAttached(s, id, parent).frames;
    forall x | x in u
      ensures Shows(u[x], RecordOf(trace + [e], x))
    {
      assert PathFits(s.frames, trace, x);
      RecordOneMore(trace, e, x);
      hide RecordOf, Path, WellShaped;
    }
  }

  lemma DetachedShows(s: Manager, trace: seq<Event>, id: FrameId)
    requires Known(s, trace)
    ensures ShowsAll(OnFrameDetached(s, id).frames, trace + [FrameDetached(id)])
  {
    var e, u := FrameDetached(id), OnFrameDetached(s, id).frames;
    forall x | x in u
      ensures Shows(u[x], RecordOf(trace + [e], x))
    {
      assert PathFits(s.frames, trace, x);
      RecordOneMore(trace, e, x);
      hide RecordOf, Path, WellShaped, UnderAny;
    }
  }

  lemma NavigatedShows(s: Manager, trace: seq<Event>, f: CdpFrame)
    requires Known(s, trace) && OnFrameNavigated(s, f).Alive?
    ensures ShowsAll(OnFrameNavigated(s, f).manager.frames, trace + [FrameNavigated(f)])
  {
    if f.parentId.None? {
      TopNavigatedShows(s, trace, f);
    } else {
      ChildNavigatedShows(s, trace, f);
    }
  }

  lemma ChildNavigatedShows(s: Manager, trace: seq<Event>, f: CdpFrame)
    requires Known(s, trace) && OnFrameNavigated(s, f).Alive? && f.parentId.Some?
    ensures ShowsAll(OnFrameNavigated(s, f).manager.frames, trace + [FrameNavigated(f)])
  {
    var e, u := FrameNavigated(f), OnFrameNavigated(s, f).manager.frames;
    assert f.url + "" == f.url;
    forall x | x in u
      ensures Shows(u[x], RecordOf(trace + [e], x))
    {
      assert PathFits(s.frames, trace, x);
      RecordOneMore(trace, e, x);
      hide RecordOf, Path, WellShaped, Under;
    }
  }

  lemma TopNavigatedShows(s: Manager, trace: seq<Event>, f: CdpFrame)
    requires Known(s, trace) && OnFrameNavigated(s, f).Alive? && f.parentId.None?
    ensures ShowsAll(OnFrameNavigated(s, f).manager.frames, trace + [FrameNavigated(f)])
  {
    var e, u := FrameNavigated(f), OnFrameNavigated(s, f).manager.frames;
    assert f.url + "" == f.url;
    TopNavigatedIsAlone(s, f);
    RecordOneMore(trace, e, f.id);
    if s.mainFrame.Some? {
      assert Shows(s.frames[s.mainFrame.value], RecordOf(trace, s.mainFrame.value));
    }
    hide RecordOf, Path, WellShaped, Pruned, PathsFit;
    assert Shows(u[f.id], RecordOf(trace + [e], f.id));
  }

  lemma StepIndexes(s: Manager, trace: seq<Event>, e: Event)
    requires Known(s, trace) && !e.FrameTreeReceived? && Step(s, e).Alive?
    ensures Indexes(Step(s, e).manager.contextIds, trace + [e])
  {
    StepIndex(s, e);
    if e.ContextCreated? && e.ctx.frame.Some? {
      assert PathFits(s.frames, trace, e.ctx.frame.value);
    }
    hide Step, WellShaped, PathsFit, ShowsAll, Path;
    IndexesMore(s.contextIds, Step(s, e).manager.contextIds, trace, e);
  }

  lemma IndexesMore(index: map<string, FrameId>, index': map<string, FrameId>, trace: seq<Event>, e: Event)
    requires Indexes(index, trace)
    requires index' ==
      if e.ContextCreated? then
        (if e.ctx.frame.Some? && Path(trace, e.ctx.frame.value).Some? then index[e.ctx.uniqueId := e.ctx.frame.value] else index)
      else if e.ContextDestroyed? then index - {e.uniqueId}
      else if e.ContextsCleared? then map[]
      else index
    ensures Indexes(index', trace + [e])
  {
    assert Front(trace + [e]) == trace;
    hide Path;
  }

  lemma StepIndex(s: Manager, e: Event)
    requires WellShaped(s) && !e.FrameTreeReceived? && Step(s, e).Alive?
    ensures var index := Step(s, e).manager.contextIds;
      match e
      case ContextCreated(ctx) =>
        index == if ctx.frame.Some? && ctx.frame.value in s.frames then s.contextIds[ctx.uniqueId := ctx.frame.value]
                 else s.contextIds
      case ContextDestroyed(u) => index == s.contextIds - {u}
      case ContextsCleared => index == map[]
      case _ => index == s.contextIds
  {
    if e.ContextDestroyed? && e.uniqueId !in s.contextIds {
      assert s.contextIds - {e.uniqueId} == s.contextIds;
    }
  }

  lemma StepIsKnown(s: Manager, trace: seq<Event>, e: Event)
    requires Known(s, trace) && !e.FrameTreeReceived? && Step(s, e).Alive?
    ensures Known(Step(s, e).manager, trace + [e])
  {
    StepKeepsShape(s, e);
    StepPathsFit(s, trace, e);
    StepIndexes(s, trace, e);
    hide Known, WellShaped, PathsFit, ShowsAll, Indexes, OnFrameNavigated, OnFrameDetached, OnFrameAttached;
    match e
    case FrameAttached(id, parent) => AttachedShows(s, trace, id, parent);
    case FrameDetached(id) => DetachedShows(s, trace, id);
    case FrameNavigated(f) => NavigatedShows(s, trace, f);
    case _ => OthersShowAll(s, trace, e);
  }

  /** In every run, each tracked frame has the name, url, loader, lifecycle, request and contexts that were last reported
    * of it since it is tracked, and each context is indexed to the frame it was created in. */
  lemma {:induction false} KnownInEveryRun(trace: seq<Event>)
    requires Plain(trace) && Run(trace).Alive?
    ensures Known(Run(trace).manager, trace)
  {
    if trace == [] {
      NothingKnown();
    } else {
      RunBefore(trace);
      hide Run, Step, Known;
      KnownInEveryRun(Front(trace));
      StepIsKnown(Run(Front(trace)).manager, Front(trace), Last(trace));
    }
  }

  lemma NothingKnown()
    ensures Run([]) == Alive(NEW_MANAGER) && Known(NEW_MANAGER, [])
  {
  }

  // ---------- Isolated worlds ----------

  /** The names of the isolated worlds that were reported or set up. */
  function WorldsIn(trace: seq<Event>): set<string> {
    if trace == [] then {}
    else
      WorldsIn(Front(trace)) +
      match Last(trace)
      case ContextCreated(ctx) => if ctx.isolated then {ctx.name} else {}
      case IsolatedWorldEnsured(name) => {name}
      case _ => {}
  }

  lemma StepWorlds(s: Manager, e: Event)
    requires WellShaped(s) && !e.FrameTreeReceived? && Step(s, e).Alive?
    ensures Step(s, e).manager.isolatedWorlds ==
            s.isolatedWorlds +
            (if e.ContextCreated? && e.ctx.isolated then {e.ctx.name}
             else if e.IsolatedWorldEnsured? then {e.name}
             else {})
  {
    assert s.isolatedWorlds + {} == s.isolatedWorlds;
    hide WellShaped;
  }

  lemma {:induction false} WorldsInEveryRun(trace: seq<Event>)
    requires Plain(trace) && Run(trace).Alive?
    ensures Run(trace).manager.isolatedWorlds == WorldsIn(trace)
  {
    if trace == [] {
      NothingKnown();
    } else {
      RunBefore(trace);
      hide Run, Step;
      WorldsInEveryRun(Front(trace));
      StepWorlds(Run(Front(trace)).manager, Last(trace));
    }
  }
}
