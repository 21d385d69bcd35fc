/** What a frame's lifecycle events stand for (src/handler/frame.rs:129-141, 429-441, 505-515). */
module FrameLifecycle {
  import opened Options
  import opened Http
  import opened FrameTable
  import opened FrameOps
  import opened Navigation
  import opened FrameManagerSpec
  import opened FrameRuns
  import Contexts = FrameContexts
  import Queue = FrameQueue

  /** The event tells that frame `x` reached this point of its lifecycle. */
  predicate Brings(e: Event, x: FrameId, name: string) {
    match e
    case LifecycleEvent(id, reached, _) => id == x && reached == name
    case StoppedLoading(id) => id == x && (name == "DOMContentLoaded" || name == "load")
    case _ => false
  }

  /** The event starts the lifecycle of frame `x` over: an init event, or the start of loading. */
  predicate Resets(e: Event, x: FrameId, name: string) {
    match e
    case LifecycleEvent(id, reached, _) => id == x && reached == "init" && name != "init"
    case StartedLoading(id) => id == x
    case _ => false
  }

  ghost predicate ReachedAt(trace: seq<Event>, j: nat, x: FrameId, name: string) {
    && j < |trace| && Brings(trace[j], x, name)
    && forall k | j < k < |trace| :: !Resets(trace[k], x, name)
  }

  /** Frame `x` reached this point, and its lifecycle was not started over since. */
  ghost predicate Reached(trace: seq<Event>, x: FrameId, name: string) {
    exists j: nat :: ReachedAt(trace, j, x, name)
  }

  /** Every lifecycle event of `after` was one of the same frame before. */
  ghost predicate NothingNew(before: Table, after: Table) {
    forall x, name | x in after && name in after[x].lifecycle :: x in before && name in before[x].lifecycle
  }

  lemma NavigatedBringsNothing(s: Manager, f: CdpFrame, main: FrameId)
    requires WellShaped(s) && (s.mainFrame.Some? ==> s.mainFrame.value == main) && (f.parentId.None? ==> f.id == main)
    ensures OnFrameNavigated(s, f).Alive? ==>
      var s' := OnFrameNavigated(s, f).manager;
      NothingNew(s.frames, s'.frames) && WellShaped(s') && (s'.mainFrame.Some? ==> s'.mainFrame.value == main)
  {
    if OnFrameNavigated(s, f).Alive? {
      NavigatedKeepsShape(s, f);
      if f.parentId.None? && s.mainFrame.Some? {
        BaredRootIsAlone(s.frames, s.mainFrame.value);
      }
    }
  }

  lemma {:induction false} TreeBringsNothing(s: Manager, tree: BrowserFrameTree, main: FrameId)
    requires WellShaped(s) && (s.mainFrame.Some? ==> s.mainFrame.value == main) && Contexts.OnlyRoot(tree, main)
    ensures OnFrameTree(s, tree).Alive? ==> NothingNew(s.frames, OnFrameTree(s, tree).manager.frames)
    ensures OnFrameTree(s, tree).Alive? && OnFrameTree(s, tree).manager.mainFrame.Some? ==>
      OnFrameTree(s, tree).manager.mainFrame.value == main
    decreases tree, 1
  {
    hide NothingNew;
    var s1 := OnFrameAttached(s, tree.frame.id, tree.frame.parentId);
    StepKeepsShape(s, FrameAttached(tree.frame.id, tree.frame.parentId));
    AttachedBringsNothing(s, tree.frame.id, tree.frame.parentId);
    NavigatedBringsNothing(s1, tree.frame, main);
    var o := OnFrameNavigated(s1, tree.frame);
    if o.Alive? {
      TreesBringNothing(o.manager, tree.children, main);
      if OnFrameTree(s, tree).Alive? {
        NothingNewTransitive(s.frames, s1.frames, o.manager.frames);
        NothingNewTransitive(s.frames, o.manager.frames, OnFrameTree(s, tree).manager.frames);
      }
    }
  }

  lemma {:induction false} TreesBringNothing(s: Manager, trees: seq<BrowserFrameTree>, main: FrameId)
    requires WellShaped(s) && (s.mainFrame.Some? ==> s.mainFrame.value == main) && Contexts.OnlyRootAll(trees, main)
    ensures OnFrameTrees(s, trees).Alive? ==> NothingNew(s.frames, OnFrameTrees(s, trees).manager.frames)
    ensures OnFrameTrees(s, trees).Alive? && OnFrameTrees(s, trees).manager.mainFrame.Some? ==>
      OnFrameTrees(s, trees).manager.mainFrame.value == main
    decreases trees, 0
  {
    if trees != [] {
      TreeBringsNothing(s, trees[0], main);
      FrameTreeKeepsShape(s, trees[0]);
      var o := OnFrameTree(s, trees[0]);
      if o.Alive? {
        TreesBringNothing(o.manager, trees[1..], main);
        if OnFrameTrees(s, trees).Alive? {
          NothingNewTransitive(s.frames, o.manager.frames, OnFrameTrees(s, trees).manager.frames);
        }
      }
    }
  }

  lemma NothingNewTransitive(a: Table, b: Table, c: Table)
    requires NothingNew(a, b) && NothingNew(b, c)
    ensures NothingNew(a, c)
  {
  }

  lemma AttachedBringsNothing(s: Manager, id: FrameId, parent: Option<FrameId>)
    ensures NothingNew(s.frames, OnFrameAttached(s, id, parent).frames)
  {
  }

  /** The events that concern lifecycles. */
  predicate Concerns(e: Event) {
    e.LifecycleEvent? || e.StartedLoading? || e.StoppedLoading?
  }

  lemma OthersBringNothing(s: Manager, e: Event)
    requires Forest(s.frames) && !Concerns(e) && !e.FrameNavigated? && !e.FrameTreeReceived? && !e.FrameAttached?
    ensures Step(s, e).Alive? ==>
      NothingNew(s.frames, Step(s, e).manager.frames) && Step(s, e).manager.mainFrame == s.mainFrame
  {
    hide Forest;
    if e.PollRequested? {
      PollKeepsFrames(s, e.now, e.clock);
    }
  }

  /** A lifecycle event of a frame is one it had before and that this event does not reset, or one that it brings. */
  lemma ConcernedReaches(s: Manager, e: Event, x: FrameId, name: string)
    requires Forest(s.frames) && Concerns(e) && Step(s, e).Alive?
    ensures x in Step(s, e).manager.frames <==> x in s.frames
    ensures x in s.frames ==>
      (name in Step(s, e).manager.frames[x].lifecycle <==>
         Brings(e, x, name) || (name in s.frames[x].lifecycle && !Resets(e, x, name)))
    ensures Step(s, e).manager.mainFrame == s.mainFrame
  {
    hide Forest;
  }

  lemma ReachedStays(trace: seq<Event>, e: Event, x: FrameId, name: string)
    requires (Reached(trace, x, name) && !Resets(e, x, name)) || Brings(e, x, name)
    ensures Reached(trace + [e], x, name)
  {
    var longer := trace + [e];
    assert longer[|trace|] == e;
    if Brings(e, x, name) {
      assert ReachedAt(longer, |trace|, x, name);
    } else {
      var j: nat :| ReachedAt(trace, j, x, name);
      assert forall k | 0 <= k < |trace| :: longer[k] == trace[k];
      assert ReachedAt(longer, j, x, name);
    }
  }

  ghost predicate AllReached(trace: seq<Event>, t: Table) {
    forall x, name | x in t && name in t[x].lifecycle :: Reached(trace, x, name)
  }

  lemma NothingNewReached(trace: seq<Event>, e: Event, before: Table, after: Table)
    requires AllReached(trace, before) && NothingNew(before, after) && !Concerns(e)
    ensures AllReached(trace + [e], after)
  {
    hide Reached;
    forall x, name | x in after && name in after[x].lifecycle
      ensures Reached(trace + [e], x, name)
    {
      ReachedStays(trace, e, x, name);
    }
  }

  lemma ConcernedReached(trace: seq<Event>, s: Manager, e: Event)
    requires Forest(s.frames) && AllReached(trace, s.frames) && Concerns(e) && Step(s, e).Alive?
    ensures AllReached(trace + [e], Step(s, e).manager.frames)
    ensures Step(s, e).manager.mainFrame == s.mainFrame
  {
    hide Reached, Forest, Step;
    forall x, name | x in Step(s, e).manager.frames && name in Step(s, e).manager.frames[x].lifecycle
      ensures Reached(trace + [e], x, name)
    {
      ConcernedReaches(s, e, x, name);
      ReachedStays(trace, e, x, name);
    }
    ConcernedReaches(s, e, FrameId(""), "");
  }

  /** In every run in which the main frame keeps its id: every lifecycle event recorded for a tracked frame arrived for that
    * frame, and its lifecycle was not started over since. So a frame that counts as loaded did load after it last started. */
  lemma {:induction false} LifecycleIsCurrent(trace: seq<Event>, main: FrameId)
    requires Contexts.KeepsMainId(trace, main) && Run(trace).Alive?
    ensures AllReached(trace, Run(trace).manager.frames)
    ensures Run(trace).manager.mainFrame.Some? ==> Run(trace).manager.mainFrame.value == main
  {
    if trace != [] {
      var before, e := trace[..|trace| - 1], trace[|trace| - 1];
      LifecycleIsCurrent(before, main);
      var s := Run(before).manager;
      assert before + [e] == trace;
      hide AllReached, NothingNew, OnFrameNavigated, OnFrameTree, OnFrameAttached;
      StepKeepsMain(before, s, e, main);
    }
  }

  lemma StepKeepsMain(trace: seq<Event>, s: Manager, e: Event, main: FrameId)
    requires WellShaped(s) && (s.mainFrame.Some? ==> s.mainFrame.value == main) && AllReached(trace, s.frames)
    requires e.FrameNavigated? ==> e.frame.parentId.None? ==> e.frame.id == main
    requires e.FrameTreeReceived? ==> Contexts.OnlyRoot(e.tree, main)
    ensures Step(s, e).Alive? ==>
      var s' := Step(s, e).manager;
      AllReached(trace + [e], s'.frames) && (s'.mainFrame.Some? ==> s'.mainFrame.value == main)
  {
    if Step(s, e).Alive? {
      hide AllReached, NothingNew, OnFrameNavigated, OnFrameTree;
      var after := Step(s, e).manager.frames;
      if Concerns(e) {
        ConcernedReached(trace, s, e);
      } else {
        match e {
          case FrameNavigated(f) => NavigatedBringsNothing(s, f, main);
          case FrameTreeReceived(tree) => TreeBringsNothing(s, tree, main);
          case FrameAttached(id, parent) => AttachedBringsNothing(s, id, parent);
          case _ => OthersBringNothing(s, e);
        }
        NothingNewReached(trace, e, s.frames, after);
      }
    }
  }

  /** So a navigation that succeeds is the ongoing one, and every frame of its subtree loaded, or has no url and loaded
    * its content, after that frame last started over. */
  lemma SuccessMeansReached(trace: seq<Event>, main: FrameId, now: nat, clock: nat, ok: NavigationOk)
    requires Contexts.KeepsMainId(trace, main) && Run(trace).Alive?
    requires Poll(Run(trace).manager, now, clock).event == Some(ResultEvent(Ok(ok)))
    ensures var s := Run(trace).manager;
      s.navigation.Some? &&
      var w := s.navigation.value.watcher;
      && w.id == ok.id && w.frameId in s.frames
      && forall x | x in Subtree(s.frames, w.frameId) ::
           Reached(trace, x, "load") || (s.frames[x].url.None? && Reached(trace, x, "DOMContentLoaded"))
  {
    hide Reached, Queue.QueuedAt;
    var s := Run(trace).manager;
    LifecycleIsCurrent(trace, main);
    Queue.SuccessMeansLoaded(trace, now, clock, ok);
    var w := s.navigation.value.watcher;
    var i: nat :| Queue.QueuedAt(trace, i, w) && Queue.LoadedSince(s, trace, i, w);
    forall x | x in Subtree(s.frames, w.frameId)
      ensures Reached(trace, x, "load") || (s.frames[x].url.None? && Reached(trace, x, "DOMContentLoaded"))
    {
      assert s.frames[x].IsLoaded() ==> "load" in s.frames[x].lifecycle;
    }
  }
}
