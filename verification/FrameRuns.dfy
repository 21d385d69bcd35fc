/** Runs of the frame manager: when the table is a tree, when the main-frame expectation fails, and what replaying
  * a frame tree of the browser leaves behind. */
module FrameRuns {
  import opened Options
  import opened Http
  import opened FrameTable
  import opened FrameOps
  import opened FrameManagerSpec

  /** The state after all events of `trace`, unless one of them panicked. */
  ghost function Run(trace: seq<Event>): (r: Outcome)
    ensures r.Alive? ==> WellShaped(r.manager)
  {
    if trace == [] then Alive(NEW_MANAGER)
    else match Run(trace[..|trace| - 1])
         case Panicked => Panicked
         case Alive(s) => StepKeepsShape(s, trace[|trace| - 1]); Step(s, trace[|trace| - 1])
  }

  // ---------- The tree and the panic, predicted from the events alone ----------

  /** All that decides the fate of the table: the id of the main frame and whether a detach event named it. */
  datatype Monitor = Monitor(main: Option<FrameId>, lost: bool) | Failed

  /** A navigation without a parent id renames the main frame, and fails once the main frame is lost. */
  function MonitorNavigated(m: Monitor, f: CdpFrame): Monitor {
    if m.Failed? || f.parentId.Some? then m
    else if m.lost then Failed
    else Monitor(Some(f.id), false)
  }

  function MonitorTree(m: Monitor, tree: BrowserFrameTree): Monitor
    decreases tree, 1
  {
    MonitorTrees(MonitorNavigated(m, tree.frame), tree.children)
  }

  function MonitorTrees(m: Monitor, trees: seq<BrowserFrameTree>): Monitor
    decreases trees, 0
  {
    if trees == [] then m else MonitorTrees(MonitorTree(m, trees[0]), trees[1..])
  }

  function MonitorStep(m: Monitor, e: Event): Monitor {
    if m.Failed? then m
    else
      match e
      case FrameDetached(id) => if m.main == Some(id) then m.(lost := true) else m
      case FrameNavigated(f) => MonitorNavigated(m, f)
      case FrameTreeReceived(tree) => MonitorTree(m, tree)
      case _ => m
  }

  function MonitorRun(trace: seq<Event>): Monitor {
    if trace == [] then Monitor(None, false) else MonitorStep(MonitorRun(trace[..|trace| - 1]), trace[|trace| - 1])
  }

  /** The monitor knows the main frame and whether its table is gone. */
  ghost predicate Tracks(m: Monitor, o: Outcome) {
    match o
    case Panicked => m.Failed?
    case Alive(s) =>
      && m.Monitor? && m.main == s.mainFrame
      && WellShaped(s)
      && (m.lost <==> s.mainFrame.Some? && s.frames == map[])
  }

  lemma NavigatedTracks(m: Monitor, s: Manager, f: CdpFrame)
    requires Tracks(m, Alive(s))
    ensures Tracks(MonitorNavigated(m, f), OnFrameNavigated(s, f))
  {
    NavigatedKeepsShape(s, f);
  }

  lemma AttachedTracks(m: Monitor, s: Manager, id: FrameId, parent: Option<FrameId>)
    requires Tracks(m, Alive(s))
    ensures Tracks(m, Alive(OnFrameAttached(s, id, parent)))
  {
    if s.frames != map[] {
      AttachedIsTree(s.frames, s.mainFrame.value, id, parent);
    }
  }

  lemma {:induction false} TreeTracks(m: Monitor, s: Manager, tree: BrowserFrameTree)
    requires Tracks(m, Alive(s))
    ensures Tracks(MonitorTree(m, tree), OnFrameTree(s, tree))
    decreases tree, 1
  {
    var s1 := OnFrameAttached(s, tree.frame.id, tree.frame.parentId);
    AttachedTracks(m, s, tree.frame.id, tree.frame.parentId);
    NavigatedTracks(m, s1, tree.frame);
    var o := OnFrameNavigated(s1, tree.frame);
    if o.Alive? {
      TreesTrack(MonitorNavigated(m, tree.frame), o.manager, tree.children);
    } else {
      FailedStays(tree.children);
    }
  }

  lemma {:induction false} TreesTrack(m: Monitor, s: Manager, trees: seq<BrowserFrameTree>)
    requires Tracks(m, Alive(s))
    ensures Tracks(MonitorTrees(m, trees), OnFrameTrees(s, trees))
    decreases trees, 0
  {
    if trees != [] {
      TreeTracks(m, s, trees[0]);
      if OnFrameTree(s, trees[0]).Alive? {
        TreesTrack(MonitorTree(m, trees[0]), OnFrameTree(s, trees[0]).manager, trees[1..]);
      } else {
        FailedStays(trees[1..]);
      }
    }
  }

  lemma {:induction false} FailedStays(trees: seq<BrowserFrameTree>)
    ensures MonitorTrees(Failed, trees) == Failed
    decreases trees
  {
    if trees != [] {
      FailedStays(trees[0].children);
      FailedStays(trees[1..]);
    }
  }

  lemma {:induction false} RunTracks(trace: seq<Event>)
    ensures Tracks(MonitorRun(trace), Run(trace))
  {
    if trace != [] {
      var before := trace[..|trace| - 1];
      var e := trace[|trace| - 1];
      RunTracks(before);
      if Run(before).Alive? {
        var s := Run(before).manager;
        var m := MonitorRun(before);
        StepKeepsShape(s, e);
        match e
        case FrameAttached(id, parent) => AttachedTracks(m, s, id, parent);
        case FrameDetached(id) => DetachedKeepsShape(s, id);
        case FrameNavigated(f) => NavigatedTracks(m, s, f);
        case FrameTreeReceived(tree) => TreeTracks(m, s, tree);
        case _ =>
          OthersKeepLinks(s, e);
          assert Step(s, e).manager.frames.Keys == s.frames.Keys;
      }
    }
  }

  /** In every run: the expectation on the main frame fails exactly when a parentless navigation follows a detach of
    * the main frame; otherwise the table is a tree below the main frame, exactly until such a detach. */
  lemma TableIsTreeInEveryRun(trace: seq<Event>)
    ensures Run(trace).Panicked? <==> MonitorRun(trace).Failed?
    ensures Run(trace).Alive? ==>
      var s := Run(trace).manager;
      var m := MonitorRun(trace);
      && m.main == s.mainFrame
      && (s.mainFrame.None? ==> s.frames == map[])
      && (s.mainFrame.Some? && !m.lost ==> Tree(s.frames, s.mainFrame.value))
      && (m.lost ==> s.frames == map[])
  {
    RunTracks(trace);
  }

  /** No detach event names the frame that is the main frame at that time. */
  ghost predicate NeverDetachesMain(trace: seq<Event>) {
    forall i | 0 <= i < |trace| && trace[i].FrameDetached? && Run(trace[..i]).Alive? ::
      Run(trace[..i]).manager.mainFrame != Some(trace[i].id)
  }

  /** Then the table stays a tree below the main frame, and no navigation fails. */
  lemma {:induction false} MainKeptNeverPanics(trace: seq<Event>)
    requires NeverDetachesMain(trace)
    ensures Run(trace).Alive?
    ensures Run(trace).manager.mainFrame.Some? ==> Tree(Run(trace).manager.frames, Run(trace).manager.mainFrame.value)
    ensures MonitorRun(trace).Monitor? && !MonitorRun(trace).lost
  {
    RunTracks(trace);
    if trace != [] {
      var before := trace[..|trace| - 1];
      forall i | 0 <= i < |before|
        ensures before[..i] == trace[..i] && before[i] == trace[i]
      {
      }
      MainKeptNeverPanics(before);
      RunTracks(before);
      var e := trace[|trace| - 1];
      var m := MonitorRun(before);
      assert trace[..|trace| - 1] == before;
      match e
      case FrameTreeReceived(tree) => NotLostStays(m, tree);
      case _ =>
    }
  }

  lemma {:induction false} NotLostStays(m: Monitor, tree: BrowserFrameTree)
    requires m.Monitor? && !m.lost
    ensures MonitorTree(m, tree).Monitor? && !MonitorTree(m, tree).lost
    decreases tree, 1
  {
    NotLostStaysAll(MonitorNavigated(m, tree.frame), tree.children);
  }

  lemma {:induction false} NotLostStaysAll(m: Monitor, trees: seq<BrowserFrameTree>)
    requires m.Monitor? && !m.lost
    ensures MonitorTrees(m, trees).Monitor? && !MonitorTrees(m, trees).lost
    decreases trees, 0
  {
    if trees != [] {
      NotLostStays(m, trees[0]);
      NotLostStaysAll(MonitorTree(m, trees[0]), trees[1..]);
    }
  }

  /** Without the assumption it does fail: navigate, detach the main frame, navigate again. */
  lemma DetachedMainFrameFails()
    ensures var main := CdpFrame(FrameId("M"), None, "about:blank", None, None);
            Run([FrameNavigated(main), FrameDetached(main.id), FrameNavigated(main)]).Panicked?
  {
    var main := CdpFrame(FrameId("M"), None, "about:blank", None, None);
    var trace := [FrameNavigated(main), FrameDetached(main.id), FrameNavigated(main)];
    assert trace[..2] == [FrameNavigated(main), FrameDetached(main.id)];
    assert trace[..2][..1] == [FrameNavigated(main)];
    assert [FrameNavigated(main)][..0] == [];
    assert MonitorRun([FrameNavigated(main)]) == Monitor(Some(main.id), false);
    assert MonitorRun(trace[..2]) == Monitor(Some(main.id), true);
    TableIsTreeInEveryRun(trace);
  }
}
