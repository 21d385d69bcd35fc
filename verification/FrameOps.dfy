/** What the frame events do to the table, and that they keep it a tree (src/handler/frame.rs:359-418, 516-531). */
module FrameOps {
  import opened Options
  import opened Http
  import opened FrameTable

  // ---------- Removing one frame with its descendants ----------

  function Unlink(t: Table, parent: Option<FrameId>, child: FrameId): Table {
    if parent.Some? && parent.value in t
    then t[parent.value := t[parent.value].(children := t[parent.value].children - {child})]
    else t
  }

  /** Taking a frame out, pruning its children and then unlinking it prunes exactly its subtree, although
    * the frame has already left the table when its children are visited. */
  lemma PruneOneFrame(t: Table, id: FrameId)
    requires Forest(t) && id in t
    ensures Unlink(Pruned(t - {id}, t[id].children), t[id].parent, id) == Pruned(t, {id})
  {
    var rest := t - {id};
    var cut := Pruned(rest, t[id].children);
    ForestWithout(t, id);
    forall x | x in t
      ensures x in cut <==> x in Pruned(t, {id})
    {
      UnderWithout(t, id, x);
      UnderAnySingle(t, x, id);
    }
    forall x | x in cut
      ensures cut[x] == t[x]
      ensures Unlink(cut, t[id].parent, id)[x] == Pruned(t, {id})[x]
    {
      assert t[x].children - (t[id].children * rest.Keys) == t[x].children by {
        forall c | c in t[x].children && c in t[id].children && c in t
          ensures false
        {
        }
      }
      if t[id].parent != Some(x) {
        assert id !in t[x].children;
        assert t[x].children - ({id} * t.Keys) == t[x].children;
      } else {
        assert t[x].children - {id} == t[x].children - ({id} * t.Keys);
      }
    }
  }

  /** Outside `id` itself, being under `id` is being under one of its children once `id` is gone. */
  lemma UnderWithout(t: Table, id: FrameId, x: FrameId)
    requires Forest(t) && id in t && x in t
    ensures Under(t, x, id) <==> x == id || UnderAny(t - {id}, x, t[id].children)
  {
    var rest := t - {id};
    UnderChild(t, id);
    if x != id {
      forall c | c in t[id].children && c in t && Under(t, x, c)
        ensures UnderAny(rest, x, t[id].children)
      {
        var n: nat :| Climbs(t, x, c, n);
        NotUnderOwnChild(t, id, c);
        ClimbsAvoiding(t, id, x, c, n);
        assert Under(rest, x, c);
      }
      if UnderAny(rest, x, t[id].children) {
        var c :| c in t[id].children && Under(rest, x, c);
        var n: nat :| Climbs(rest, x, c, n);
        ClimbsInLarger(rest, t, x, c, n);
        ClimbsEnds(rest, x, c, n);
        assert Under(t, x, c);
      }
    }
  }

  lemma {:induction false} ClimbsAvoiding(t: Table, id: FrameId, x: FrameId, c: FrameId, n: nat)
    requires Climbs(t, x, c, n) && !Under(t, id, c)
    ensures Climbs(t - {id}, x, c, n)
    decreases n
  {
    assert x == id ==> Under(t, id, c);
    if n > 0 {
      ClimbsAvoiding(t, id, t[x].parent.value, c, n - 1);
    }
  }

  // ---------- Losing all children ----------

  /** The table after `id` lost every descendant. */
  ghost function Bared(t: Table, id: FrameId): Table
    requires id in t
  {
    map x | x in t && (x == id || !Under(t, x, id)) :: if x == id then t[x].(children := {}) else t[x]
  }

  lemma BareOneFrame(t: Table, id: FrameId)
    requires Forest(t) && id in t
    ensures Pruned(t - {id}, t[id].children)[id := t[id].(children := {})] == Bared(t, id)
  {
    var rest := t - {id};
    var cut := Pruned(rest, t[id].children);
    forall x | x in t
      ensures x != id ==> (x in cut <==> x in Bared(t, id))
    {
      UnderWithout(t, id, x);
    }
    forall x | x in cut
      ensures cut[x] == t[x]
    {
      assert t[x].children - (t[id].children * rest.Keys) == t[x].children by {
        forall c | c in t[x].children && c in t[id].children && c in t
          ensures false
        {
        }
      }
    }
  }

  /** Links only depend on these two fields, so every other field may change freely. */
  ghost predicate SameLinks(u: Table, t: Table) {
    && u.Keys == t.Keys
    && forall x | x in t :: u[x].id == t[x].id && u[x].parent == t[x].parent && u[x].children == t[x].children
  }

  lemma UpdateKeepsLinks(t: Table, id: FrameId, f: Frame)
    requires id in t && f.id == t[id].id && f.parent == t[id].parent && f.children == t[id].children
    ensures SameLinks(t[id := f], t)
  {
  }

  lemma LinksDecide(u: Table, t: Table)
    requires SameLinks(u, t)
    ensures Forest(t) ==> Forest(u)
    ensures forall root :: Tree(t, root) ==> Tree(u, root)
  {
    LinkedDecide(u, t);
    UnderInUpClosed(u, t);
    if Acyclic(t) {
      AcyclicInSmaller(u, t);
    }
  }

  lemma LinkedDecide(u: Table, t: Table)
    requires SameLinks(u, t)
    ensures Linked(t) ==> Linked(u)
    ensures Closed(t) ==> Closed(u)
  {
  }

  lemma BaredIsForest(t: Table, id: FrameId)
    requires Forest(t) && id in t
    ensures Forest(Bared(t, id))
  {
    var u := Bared(t, id);
    AcyclicInSmaller(u, t);
    forall c | c in u && u[c].parent.Some? && u[c].parent.value in u
      ensures c in u[u[c].parent.value].children
    {
      var p := u[c].parent.value;
      if p == id {
        UnderSelf(t, id);
        UnderParent(t, c, id);
        assert Under(t, c, id);
        assert c == id;
        assert Climbs(t, id, id, 0);
        assert Climbs(t, id, id, 1);
      }
    }
  }

  lemma BaredIsTree(t: Table, root: FrameId, id: FrameId)
    requires Tree(t, root) && id in t
    ensures Tree(Bared(t, id), root)
  {
    var u := Bared(t, id);
    BaredIsForest(t, id);
    BaredIsClosed(t, root, id);
    RootNotBelow(t, root, id);
    hide Forest;
    assert SameParents(u, t) && UpClosed(u, t);
    UnderInUpClosed(u, t);
  }

  lemma BaredIsClosed(t: Table, root: FrameId, id: FrameId)
    requires Tree(t, root) && id in t
    ensures Closed(Bared(t, id))
  {
    var u := Bared(t, id);
    forall c | c in u && u[c].parent.Some?
      ensures u[c].parent.value in u
    {
      UnderParent(t, c, id);
      if c == id {
        NotUnderOwnChild(t, u[c].parent.value, id);
      }
    }
    forall p, c | p in u && c in u[p].children
      ensures c in u
    {
      UnderParent(t, c, id);
    }
  }

  lemma RootNotBelow(t: Table, root: FrameId, id: FrameId)
    requires Tree(t, root) && id in t
    ensures root in Bared(t, id)
  {
    UnderParent(t, root, id);
  }

  /** The main frame has everything below it. */
  lemma BaredRootIsAlone(t: Table, root: FrameId)
    requires Tree(t, root)
    ensures Pruned(t - {root}, t[root].children) == map[]
  {
    BareOneFrame(t, root);
    assert Bared(t, root).Keys == {root};
    var cut := Pruned(t - {root}, t[root].children);
    assert root !in cut;
    assert cut.Keys <= Bared(t, root).Keys;
    assert cut.Keys == {};
  }

  lemma LoneRootIsTree(root: FrameId, f: Frame)
    requires f.id == root && f.parent.None? && f.children == {}
    ensures Tree(map[root := f], root)
  {
    var t := map[root := f];
    UnderSelf(t, root);
    forall x, n: nat | n > 0
      ensures !Climbs(t, x, x, n)
    {
    }
  }

  lemma PrunedIsTree(t: Table, root: FrameId, id: FrameId)
    requires Tree(t, root) && id != root
    ensures Tree(Pruned(t, {id}), root)
  {
    var u := Pruned(t, {id});
    ForestPruned(t, {id});
    PrunedUpClosed(t, {id});
    UnderInUpClosed(u, t);
    forall x | x in t
      ensures x in u <==> !Under(t, x, id)
    {
      UnderAnySingle(t, x, id);
    }
    UnderParent(t, root, id);
    forall p, c | p in u && c in u[p].children
      ensures c in u
    {
      if c !in u {
        PrunedChildIsRoot(t, {id}, p, c);
      }
    }
  }

  /** Removing the main frame removes everything. */
  lemma PruneRoot(t: Table, root: FrameId)
    requires Tree(t, root)
    ensures Pruned(t, {root}) == map[]
  {
    forall x | x in t
      ensures UnderAny(t, x, {root})
    {
      UnderAnySingle(t, x, root);
    }
  }

  // ---------- Attaching ----------

  function Attached(t: Table, id: FrameId, parent: Option<FrameId>): Table {
    if id in t || parent.None? || parent.value !in t then t
    else
      var p := t[parent.value];
      t[parent.value := p.(children := p.children + {id})][id := NewFrame(id, Some(p.id))]
  }

  lemma AttachedIsTree(t: Table, root: FrameId, id: FrameId, parent: Option<FrameId>)
    requires Tree(t, root)
    ensures Tree(Attached(t, id, parent), root)
  {
    if id !in t && parent.Some? && parent.value in t {
      var u := Attached(t, id, parent);
      NewLeafReaches(t, u, root, id);
      NewLeafMakesNoCycle(t, u, id);
      NewLeafIsLinked(t, id, parent);
    }
  }

  lemma NewLeafIsLinked(t: Table, id: FrameId, parent: Option<FrameId>)
    requires Linked(t) && Closed(t)
    ensures Linked(Attached(t, id, parent)) && Closed(Attached(t, id, parent))
  {
  }

  lemma NewLeafReaches(t: Table, u: Table, root: FrameId, id: FrameId)
    requires SameParents(t, u) && UpClosed(t, u) && u.Keys == t.Keys + {id} && id !in t
    requires u[id].parent.Some? && u[id].parent.value in t
    requires forall x | x in t :: Under(t, x, root)
    ensures forall x | x in u :: Under(u, x, root)
  {
    UnderInUpClosed(t, u);
    forall x | x in u
      ensures Under(u, x, root)
    {
      UnderParent(u, x, root);
    }
  }

  lemma NewLeafMakesNoCycle(t: Table, u: Table, id: FrameId)
    requires SameParents(t, u) && UpClosed(t, u) && u.Keys == t.Keys + {id} && id !in t
    requires u[id].parent.Some? && u[id].parent.value in t
    requires Acyclic(t)
    ensures Acyclic(u)
  {
    forall x, n: nat | n > 0
      ensures !Climbs(u, x, x, n)
    {
      if Climbs(u, x, x, n) {
        if x in t {
          ClimbsInUpClosed(t, u, x, x, n);
        } else {
          ClimbsInUpClosed(t, u, u[id].parent.value, id, n - 1);
          ClimbsEnds(t, u[id].parent.value, id, n - 1);
        }
      }
    }
  }

  // ---------- The lifecycle check over a subtree ----------

  ghost function Subtree(t: Table, id: FrameId): set<FrameId> {
    set x | x in t && Under(t, x, id)
  }

  lemma SubtreeShrinks(t: Table, id: FrameId, child: FrameId)
    requires Forest(t) && id in t && child in t[id].children && child in t
    ensures Subtree(t, child) < Subtree(t, id)
  {
    UnderChild(t, id);
    NotUnderOwnChild(t, id, child);
    UnderSelf(t, id);
    assert id in Subtree(t, id) && id !in Subtree(t, child);
    forall x | x in Subtree(t, child)
      ensures x in Subtree(t, id)
    {
      assert Under(t, x, child);
    }
  }
}
