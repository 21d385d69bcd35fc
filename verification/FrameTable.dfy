/** The table of frames kept by the frame manager (src/handler/frame.rs, src/handler/domworld.rs):
  * frames linked to their parent and to their children, both by id. */
module FrameTable {
  import opened Options
  import opened Http

  /** One JavaScript world of a frame. The two fields are only ever set and taken together. */
  datatype DomWorld = DomWorld(context: Option<int>, uniqueId: Option<string>) {
    function SetContext(context: int, uniqueId: string): DomWorld {
      DomWorld(Some(context), Some(uniqueId))
    }

    function TakeContext(): DomWorld {
      DomWorld(None, None)
    }
  }

  const NO_WORLD := DomWorld(None, None)

  datatype Frame = Frame(
    parent: Option<FrameId>,
    id: FrameId,
    mainWorld: DomWorld,
    secondaryWorld: DomWorld,
    loaderId: Option<string>,
    url: Option<string>,
    httpRequest: Option<HttpRequest>,
    children: set<FrameId>,
    name: Option<string>,
    lifecycle: set<string>)
  {
    predicate IsLoaded() {
      "load" in lifecycle
    }
  }

  /** A frame as the browser describes it. */
  datatype CdpFrame = CdpFrame(id: FrameId, parentId: Option<FrameId>, url: string, urlFragment: Option<string>,
                               name: Option<string>)
  {
    function FullUrl(): string {
      match urlFragment
      case Some(fragment) => url + fragment
      case None => url
    }
  }

  type Table = map<FrameId, Frame>

  function NewFrame(id: FrameId, parent: Option<FrameId>): Frame {
    Frame(parent, id, NO_WORLD, NO_WORLD, None, None, None, {}, None, {})
  }

  // ---------- Climbing parent links ----------

  /** Following exactly `n` parent links through tracked frames leads from `x` to `a`. */
  ghost predicate Climbs(t: Table, x: FrameId, a: FrameId, n: nat)
    decreases n
  {
    x in t && if n == 0 then x == a else t[x].parent.Some? && Climbs(t, t[x].parent.value, a, n - 1)
  }

  /** `x` is `a` or one of its descendants. */
  ghost predicate Under(t: Table, x: FrameId, a: FrameId) {
    exists n: nat :: Climbs(t, x, a, n)
  }

  ghost predicate UnderAny(t: Table, x: FrameId, roots: set<FrameId>) {
    exists r | r in roots :: Under(t, x, r)
  }

  /** Frames sit under their own id, and the links between tracked frames agree both ways. */
  ghost predicate Linked(t: Table) {
    && (forall x | x in t :: t[x].id == x)
    && (forall p, c | p in t && c in t[p].children && c in t :: t[c].parent == Some(p))
    && (forall c | c in t && t[c].parent.Some? && t[c].parent.value in t :: c in t[t[c].parent.value].children)
  }

  ghost predicate Acyclic(t: Table) {
    forall x, n: nat | n > 0 :: !Climbs(t, x, x, n)
  }

  /** Links agree and there is no cycle. A link may name a frame that is no longer tracked, which is how the table
    * looks in the middle of a removal. */
  ghost predicate Forest(t: Table) {
    Linked(t) && Acyclic(t)
  }

  /** No link dangles. */
  ghost predicate Closed(t: Table) {
    && (forall p, c | p in t && c in t[p].children :: c in t)
    && (forall c | c in t && t[c].parent.Some? :: t[c].parent.value in t)
  }

  /** A forest without dangling links in which every frame climbs to `root`, the one frame without a parent. */
  ghost predicate Tree(t: Table, root: FrameId) {
    && Forest(t)
    && Closed(t)
    && root in t && t[root].parent.None?
    && (forall x | x in t :: Under(t, x, root))
  }

  /** The table without the subtrees rooted at `roots`, and without the links to those roots. */
  ghost function Pruned(t: Table, roots: set<FrameId>): Table {
    map x | x in t && !UnderAny(t, x, roots) :: t[x].(children := t[x].children - (roots * t.Keys))
  }

  // ---------- Lemmas about climbing ----------

  ghost predicate SameParents(u: Table, t: Table) {
    forall x | x in u :: x in t && u[x].parent == t[x].parent
  }

  /** No tracked parent of a frame of `u` is missing from `u`. */
  ghost predicate UpClosed(u: Table, t: Table) {
    forall x | x in u && u[x].parent.Some? && u[x].parent.value in t :: u[x].parent.value in u
  }

  lemma {:induction false} ClimbsEnds(t: Table, x: FrameId, a: FrameId, n: nat)
    requires Climbs(t, x, a, n)
    ensures x in t && a in t
    decreases n
  {
    if n > 0 {
      ClimbsEnds(t, t[x].parent.value, a, n - 1);
    }
  }

  lemma {:induction false} ClimbsOn(t: Table, x: FrameId, y: FrameId, a: FrameId, n: nat, m: nat)
    requires Climbs(t, x, y, n) && Climbs(t, y, a, m)
    ensures Climbs(t, x, a, n + m)
    decreases n
  {
    if n > 0 {
      ClimbsOn(t, t[x].parent.value, y, a, n - 1, m);
    }
  }

  lemma {:induction false} ClimbsInLarger(u: Table, t: Table, x: FrameId, a: FrameId, n: nat)
    requires SameParents(u, t) && Climbs(u, x, a, n)
    ensures Climbs(t, x, a, n)
    decreases n
  {
    if n > 0 {
      ClimbsInLarger(u, t, u[x].parent.value, a, n - 1);
    }
  }

  lemma {:induction false} ClimbsInUpClosed(u: Table, t: Table, x: FrameId, a: FrameId, n: nat)
    requires SameParents(u, t) && UpClosed(u, t) && x in u && Climbs(t, x, a, n)
    ensures Climbs(u, x, a, n)
    decreases n
  {
    if n > 0 {
      assert t[x].parent.value in t;
      ClimbsInUpClosed(u, t, u[x].parent.value, a, n - 1);
    }
  }

  lemma UnderInUpClosed(u: Table, t: Table)
    requires SameParents(u, t) && UpClosed(u, t)
    ensures forall x, a | x in u :: Under(u, x, a) <==> Under(t, x, a)
  {
    forall x, a | x in u
      ensures Under(u, x, a) <==> Under(t, x, a)
    {
      if Under(u, x, a) {
        var n: nat :| Climbs(u, x, a, n);
        ClimbsInLarger(u, t, x, a, n);
      }
      if Under(t, x, a) {
        var n: nat :| Climbs(t, x, a, n);
        ClimbsInUpClosed(u, t, x, a, n);
      }
    }
  }

  lemma AcyclicInSmaller(u: Table, t: Table)
    requires SameParents(u, t)
    requires Acyclic(t)
    ensures Acyclic(u)
  {
    forall x, n: nat | n > 0
      ensures !Climbs(u, x, x, n)
    {
      if Climbs(u, x, x, n) {
        ClimbsInLarger(u, t, x, x, n);
      }
    }
  }

  lemma UnderTrans(t: Table, x: FrameId, y: FrameId, a: FrameId)
    requires Under(t, x, y) && Under(t, y, a)
    ensures Under(t, x, a)
  {
    var n: nat :| Climbs(t, x, y, n);
    var m: nat :| Climbs(t, y, a, m);
    ClimbsOn(t, x, y, a, n, m);
  }

  lemma UnderSelf(t: Table, x: FrameId)
    requires x in t
    ensures Under(t, x, x)
  {
    assert Climbs(t, x, x, 0);
  }

  /** A proper descendant's parent is a descendant too. */
  lemma UnderParent(t: Table, x: FrameId, a: FrameId)
    ensures Under(t, x, a) <==> x in t && (x == a || (t[x].parent.Some? && Under(t, t[x].parent.value, a)))
  {
    if Under(t, x, a) {
      var n: nat :| Climbs(t, x, a, n);
      if n > 0 {
        assert Climbs(t, t[x].parent.value, a, n - 1);
      }
    }
    if x in t && x == a {
      UnderSelf(t, x);
    } else if x in t && t[x].parent.Some? && Under(t, t[x].parent.value, a) {
      var n: nat :| Climbs(t, t[x].parent.value, a, n);
      assert Climbs(t, x, a, n + 1);
    }
  }

  /** The last step down: a proper descendant of `a` lies under one of its tracked children. */
  lemma {:induction false} ClimbsThroughChild(t: Table, x: FrameId, a: FrameId, n: nat) returns (c: FrameId)
    requires Forest(t) && n > 0 && Climbs(t, x, a, n)
    ensures c in t && a in t && c in t[a].children && t[c].parent == Some(a) && Climbs(t, x, c, n - 1)
    decreases n
  {
    ClimbsEnds(t, x, a, n);
    if n == 1 {
      c := x;
    } else {
      c := ClimbsThroughChild(t, t[x].parent.value, a, n - 1);
    }
  }

  lemma UnderChild(t: Table, a: FrameId)
    requires Forest(t) && a in t
    ensures forall x :: Under(t, x, a) <==> x == a || exists c | c in t[a].children && c in t :: Under(t, x, c)
  {
    forall x
      ensures Under(t, x, a) <==> x == a || exists c | c in t[a].children && c in t :: Under(t, x, c)
    {
      if Under(t, x, a) && x != a {
        var n: nat :| Climbs(t, x, a, n);
        var c := ClimbsThroughChild(t, x, a, n);
        assert Under(t, x, c);
      }
      if x == a {
        UnderSelf(t, x);
      }
      forall c | c in t[a].children && c in t && Under(t, x, c)
        ensures Under(t, x, a)
      {
        assert Climbs(t, a, a, 0);
        assert Climbs(t, c, a, 1);
        UnderTrans(t, x, c, a);
      }
    }
  }

  lemma NotUnderOwnChild(t: Table, a: FrameId, c: FrameId)
    requires Forest(t) && a in t && c in t[a].children && c in t
    ensures !Under(t, a, c)
  {
    if Under(t, a, c) {
      var n: nat :| Climbs(t, a, c, n);
      assert Climbs(t, a, a, 0);
      assert Climbs(t, c, a, 1);
      ClimbsOn(t, a, c, a, n, 1);
      assert false;
    }
  }

  // ---------- Removing subtrees ----------

  lemma ForestWithout(t: Table, id: FrameId)
    requires Forest(t)
    ensures Forest(t - {id})
  {
    AcyclicInSmaller(t - {id}, t);
  }

  lemma PrunedUpClosed(t: Table, roots: set<FrameId>)
    ensures SameParents(Pruned(t, roots), t) && UpClosed(Pruned(t, roots), t)
  {
    var u := Pruned(t, roots);
    forall x | x in u && u[x].parent.Some? && u[x].parent.value in t
      ensures u[x].parent.value in u
    {
      var p := u[x].parent.value;
      if UnderAny(t, p, roots) {
        var r :| r in roots && Under(t, p, r);
        UnderParent(t, x, r);
        assert UnderAny(t, x, roots);
      }
    }
  }

  lemma ForestPruned(t: Table, roots: set<FrameId>)
    requires Forest(t)
    ensures Forest(Pruned(t, roots))
  {
    var u := Pruned(t, roots);
    PrunedUpClosed(t, roots);
    AcyclicInSmaller(u, t);
    forall c | c in u && u[c].parent.Some? && u[c].parent.value in u
      ensures c in u[u[c].parent.value].children
    {
      if c in roots {
        UnderSelf(t, c);
        assert UnderAny(t, c, roots);
      }
    }
  }

  lemma PrunedNothing(t: Table, roots: set<FrameId>)
    requires roots !! t.Keys
    ensures Pruned(t, roots) == t
  {
    forall x | x in t
      ensures !UnderAny(t, x, roots)
    {
      if UnderAny(t, x, roots) {
        var r :| r in roots && Under(t, x, r);
        var n: nat :| Climbs(t, x, r, n);
        ClimbsEnds(t, x, r, n);
        assert false;
      }
    }
    forall x | x in t
      ensures t[x].(children := t[x].children - (roots * t.Keys)) == t[x]
    {
      assert t[x].children - (roots * t.Keys) == t[x].children;
    }
  }

  /** Pruning one root and then the others is pruning them together, in whichever order they are taken. */
  lemma PrunedInSteps(t: Table, done: set<FrameId>, c: FrameId)
    requires Forest(t)
    ensures Pruned(Pruned(t, done), {c}) == Pruned(t, done + {c})
  {
    var u := Pruned(t, done);
    PrunedUpClosed(t, done);
    UnderInUpClosed(u, t);
    forall x | x in t
      ensures UnderAny(t, x, done + {c}) <==> UnderAny(t, x, done) || Under(t, x, c)
    {
      UnderAnyUnion(t, x, done, c);
    }
    forall x | x in u
      ensures UnderAny(u, x, {c}) <==> Under(t, x, c)
    {
      UnderAnySingle(u, x, c);
    }
    forall x | x in u
      ensures u[x].children - ({c} * u.Keys) == t[x].children - ((done + {c}) * t.Keys)
    {
      if c in t[x].children && c in t && c !in u {
        PrunedChildIsRoot(t, done, x, c);
      }
    }
  }

  lemma UnderAnyUnion(t: Table, x: FrameId, done: set<FrameId>, c: FrameId)
    ensures UnderAny(t, x, done + {c}) <==> UnderAny(t, x, done) || Under(t, x, c)
  {
    if Under(t, x, c) {
      assert c in done + {c};
    }
    if UnderAny(t, x, done) {
      var r :| r in done && Under(t, x, r);
      assert r in done + {c};
    }
  }

  lemma UnderAnySingle(t: Table, x: FrameId, c: FrameId)
    ensures UnderAny(t, x, {c}) <==> Under(t, x, c)
  {
    if Under(t, x, c) {
      assert c in {c};
    }
  }

  /** If a frame stays and its child goes, the child is one of the pruned roots. */
  lemma PrunedChildIsRoot(t: Table, roots: set<FrameId>, p: FrameId, c: FrameId)
    requires Forest(t) && p in Pruned(t, roots) && c in t[p].children && c in t && c !in Pruned(t, roots)
    ensures c in roots
  {
    var r :| r in roots && Under(t, c, r);
    UnderParent(t, c, r);
    if c != r {
      assert UnderAny(t, p, roots);
    }
  }
}
