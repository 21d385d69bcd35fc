/** Replaying the browser's own frame tree into the table (src/handler/frame.rs:359-418). */
module FrameReplay {
  import opened Options
  import opened Http
  import opened FrameTable
  import opened FrameOps
  import opened FrameManagerSpec
  import opened FrameRuns

  function Ids(tree: BrowserFrameTree): set<FrameId>
    decreases tree, 1
  {
    {tree.frame.id} + IdsOfAll(tree.children)
  }

  function IdsOfAll(trees: seq<BrowserFrameTree>): set<FrameId>
    decreases trees, 0
  {
    if trees == [] then {} else Ids(trees[0]) + IdsOfAll(trees[1..])
  }

  function Roots(trees: seq<BrowserFrameTree>): set<FrameId> {
    if trees == [] then {} else {trees[0].frame.id} + Roots(trees[1..])
  }

  /** No frame id occurs twice, and every child names the frame it hangs below as its parent. */
  predicate Proper(tree: BrowserFrameTree)
    decreases tree, 1
  {
    tree.frame.id !in IdsOfAll(tree.children) && ProperBelow(tree.children, tree.frame.id)
  }

  predicate ProperBelow(trees: seq<BrowserFrameTree>, parent: FrameId)
    decreases trees, 0
  {
    trees == [] ||
    (&& trees[0].frame.parentId == Some(parent)
     && Proper(trees[0])
     && Ids(trees[0]) !! IdsOfAll(trees[1..])
     && ProperBelow(trees[1..], parent))
  }

  /** The table holds this tree: same parents, same children, same names and urls, all the way down. */
  predicate Holds(t: Table, tree: BrowserFrameTree)
    decreases tree, 1
  {
    && tree.frame.id in t
    && t[tree.frame.id].parent == tree.frame.parentId
    && t[tree.frame.id].children == Roots(tree.children)
    && t[tree.frame.id].name == tree.frame.name
    && t[tree.frame.id].url == Some(tree.frame.FullUrl())
    && HoldsAll(t, tree.children)
  }

  predicate HoldsAll(t: Table, trees: seq<BrowserFrameTree>)
    decreases trees, 0
  {
    trees == [] || (Holds(t, trees[0]) && HoldsAll(t, trees[1..]))
  }

  lemma {:induction false} HoldsElsewhere(t: Table, u: Table, tree: BrowserFrameTree)
    requires Holds(t, tree) && forall x | x in Ids(tree) && x in t :: x in u && u[x] == t[x]
    ensures Holds(u, tree)
    decreases tree, 1
  {
    HoldsAllElsewhere(t, u, tree.children);
  }

  lemma {:induction false} HoldsAllElsewhere(t: Table, u: Table, trees: seq<BrowserFrameTree>)
    requires HoldsAll(t, trees) && forall x | x in IdsOfAll(trees) && x in t :: x in u && u[x] == t[x]
    ensures HoldsAll(u, trees)
    decreases trees, 0
  {
    if trees != [] {
      HoldsElsewhere(t, u, trees[0]);
      HoldsAllElsewhere(t, u, trees[1..]);
    }
  }

  /** All that grafting needs to know: frames sit under their own id and no parent link dangles. */
  ghost predicate Plain(t: Table) {
    forall x | x in t :: t[x].id == x && (t[x].parent.Some? ==> t[x].parent.value in t)
  }

  lemma {:induction false} NothingUnderLeaf(t: Table, x: FrameId, leaf: FrameId, n: nat)
    requires Climbs(t, x, leaf, n) && forall c | c in t :: t[c].parent != Some(leaf)
    ensures x == leaf
    decreases n
  {
    if n > 0 {
      NothingUnderLeaf(t, t[x].parent.value, leaf, n - 1);
    }
  }

  /** A frame that nothing names as its parent is navigated without discarding any other frame. */
  lemma NavigateLeaf(s: Manager, f: CdpFrame)
    requires f.parentId.Some? && f.id in s.frames && s.frames[f.id].children == {}
    requires forall c | c in s.frames :: s.frames[c].parent != Some(f.id)
    ensures OnFrameNavigated(s, f) == Alive(s.(frames := s.frames[f.id := Renavigated(s.frames[f.id], f)]))
  {
    forall x | Under(s.frames, x, f.id)
      ensures x == f.id
    {
      var n: nat :| Climbs(s.frames, x, f.id, n);
      NothingUnderLeaf(s.frames, x, f.id, n);
    }
    assert s.frames[f.id].(children := {}) == s.frames[f.id];
    assert Bared(s.frames, f.id) == s.frames;
  }

  /** What hanging a subtree below `p` does: it adds exactly the subtree and one child link. */
  ghost predicate Grafted(s: Manager, s': Manager, p: FrameId, added: set<FrameId>, roots: set<FrameId>) {
    && s' == s.(frames := s'.frames)
    && s'.frames.Keys == s.frames.Keys + added
    && p in s.frames && s'.frames[p] == s.frames[p].(children := s.frames[p].children + roots)
    && (forall x | x in s.frames && x != p :: s'.frames[x] == s.frames[x])
  }

  lemma GraftLeaf(s: Manager, f: CdpFrame, p: FrameId)
    requires Plain(s.frames) && p in s.frames && f.parentId == Some(p) && f.id !in s.frames
    ensures var o := OnFrameNavigated(OnFrameAttached(s, f.id, f.parentId), f);
            && o.Alive? && Plain(o.manager.frames)
            && Grafted(s, o.manager, p, {f.id}, {f.id})
            && o.manager.frames[f.id] == Renavigated(NewFrame(f.id, Some(p)), f)
  {
    var s1 := OnFrameAttached(s, f.id, f.parentId);
    NavigateLeaf(s1, f);
  }

  /** A subtree below a new leaf is, seen from above, part of what was hung there. */
  lemma GraftBelowLeaf(s: Manager, s2: Manager, s3: Manager, p: FrameId, id: FrameId,
                       below: set<FrameId>, kids: set<FrameId>)
    requires id !in s.frames && Grafted(s, s2, p, {id}, {id}) && Grafted(s2, s3, id, below, kids)
    ensures Grafted(s, s3, p, {id} + below, {id})
  {
  }

  /** Two lots of children hung below the same frame. */
  lemma GraftBeside(s: Manager, s1: Manager, s2: Manager, p: FrameId,
                    first: set<FrameId>, one: set<FrameId>, second: set<FrameId>, two: set<FrameId>)
    requires Grafted(s, s1, p, first, one) && Grafted(s1, s2, p, second, two)
    ensures Grafted(s, s2, p, first + second, one + two)
  {
    assert s2.frames[p].children == s.frames[p].children + (one + two);
  }

  lemma {:induction false} GraftTree(s: Manager, tree: BrowserFrameTree, p: FrameId)
    requires Plain(s.frames) && p in s.frames && tree.frame.parentId == Some(p)
    requires Proper(tree) && Ids(tree) !! s.frames.Keys
    ensures OnFrameTree(s, tree).Alive?
    ensures var s' := OnFrameTree(s, tree).manager;
            && Plain(s'.frames)
            && Grafted(s, s', p, Ids(tree), {tree.frame.id})
            && Holds(s'.frames, tree)
    decreases tree, 1
  {
    var s1 := OnFrameAttached(s, tree.frame.id, tree.frame.parentId);
    GraftLeaf(s, tree.frame, p);
    var s2 := OnFrameNavigated(s1, tree.frame).manager;
    GraftTrees(s2, tree.children, tree.frame.id);
    var s3 := OnFrameTrees(s2, tree.children).manager;
    GraftBelowLeaf(s, s2, s3, p, tree.frame.id, IdsOfAll(tree.children), Roots(tree.children));
    assert s3.frames[tree.frame.id].children == {} + Roots(tree.children);
  }

  lemma {:induction false} GraftTrees(s: Manager, trees: seq<BrowserFrameTree>, p: FrameId)
    requires Plain(s.frames) && p in s.frames
    requires ProperBelow(trees, p) && IdsOfAll(trees) !! s.frames.Keys
    ensures OnFrameTrees(s, trees).Alive?
    ensures var s' := OnFrameTrees(s, trees).manager;
            && Plain(s'.frames)
            && Grafted(s, s', p, IdsOfAll(trees), Roots(trees))
            && HoldsAll(s'.frames, trees)
    decreases trees, 0
  {
    if trees == [] {
      assert s.frames[p].(children := s.frames[p].children + {}) == s.frames[p];
    } else {
      GraftTree(s, trees[0], p);
      var s1 := OnFrameTree(s, trees[0]).manager;
      GraftTrees(s1, trees[1..], p);
      var s2 := OnFrameTrees(s1, trees[1..]).manager;
      HoldsElsewhere(s1.frames, s2.frames, trees[0]);
      GraftBeside(s, s1, s2, p, Ids(trees[0]), {trees[0].frame.id}, IdsOfAll(trees[1..]), Roots(trees[1..]));
    }
  }

  /** From a well-shaped state whose main frame is not lost, replaying a proper tree leaves exactly that tree. */
  lemma ReplayFrom(s: Manager, tree: BrowserFrameTree)
    requires WellShaped(s) && (s.mainFrame.Some? ==> s.frames != map[])
    requires Proper(tree) && tree.frame.parentId.None?
    ensures OnFrameTree(s, tree).Alive?
    ensures var s' := OnFrameTree(s, tree).manager;
            && s'.mainFrame == Some(tree.frame.id)
            && s'.frames.Keys == Ids(tree)
            && Holds(s'.frames, tree)
            && Tree(s'.frames, tree.frame.id)
  {
    assert OnFrameAttached(s, tree.frame.id, None) == s;
    NavigatedKeepsShape(s, tree.frame);
    var s1 := OnFrameNavigated(s, tree.frame).manager;
    TopNavigatedIsAlone(s, tree.frame);
    GraftTrees(s1, tree.children, tree.frame.id);
    FrameTreeKeepsShape(s, tree);
    hide Tree;
    var s2 := OnFrameTrees(s1, tree.children).manager;
    assert s2.frames[tree.frame.id].children == {} + Roots(tree.children);
  }

  /** From every reachable state whose main frame is not lost, replaying a proper tree leaves exactly that tree. */
  lemma ReplayLeavesExactlyTheTree(trace: seq<Event>, tree: BrowserFrameTree)
    requires Run(trace).Alive? && MonitorRun(trace) != Monitor(Run(trace).manager.mainFrame, true)
    requires Proper(tree) && tree.frame.parentId.None?
    ensures Run(trace + [FrameTreeReceived(tree)]).Alive?
    ensures var s' := Run(trace + [FrameTreeReceived(tree)]).manager;
            && s'.mainFrame == Some(tree.frame.id)
            && s'.frames.Keys == Ids(tree)
            && Holds(s'.frames, tree)
            && Tree(s'.frames, tree.frame.id)
  {
    RunTracks(trace);
    assert (trace + [FrameTreeReceived(tree)])[..|trace|] == trace;
    ReplayFrom(Run(trace).manager, tree);
  }
}
