/** The frame manager as it runs: one object whose handlers update its fields (src/handler/frame.rs:186-559). */
module FrameManagers {
  import opened Options
  import opened Http
  import opened FrameTable
  import opened FrameOps
  import opened Navigation
  import opened FrameManagerSpec
  import Chains = ChainSpec
  import opened FrameQueue

  class FrameManager {
    var mainFrame: Option<FrameId>
    var frames: Table
    var contextIds: map<string, FrameId>
    var isolatedWorlds: set<string>
    var pendingNavigations: seq<QueuedNavigation>
    var navigation: Option<OngoingNavigation>

    constructor ()
      ensures State() == NEW_MANAGER && Valid()
    {
      mainFrame, frames, contextIds, isolatedWorlds := None, map[], map[], {};
      pendingNavigations, navigation := [], None;
    }

    function State(): Manager
      reads this
    {
      Manager(mainFrame, frames, contextIds, isolatedWorlds, pendingNavigations, navigation)
    }

    ghost predicate Valid()
      reads this
    {
      WellShaped(State())
    }

    // ---------- Recursive removal ----------

    /** The children are visited in no particular order, and after their parent has left the table. */
    method RemoveEach(children: set<FrameId>)
      requires Forest(frames)
      modifies this`frames
      ensures frames == Pruned(old(frames), children)
      decreases |frames|, 1
    {
      var rest := children;
      PrunedNothing(frames, {});
      ghost var before := frames;
      assert children - rest == {};
      while rest != {}
        invariant rest <= children
        invariant frames == Pruned(before, children - rest)
        invariant Forest(frames)
        invariant |frames| <= |before|
        decreases rest
      {
        var child :| child in rest;
        PrunedInSteps(before, children - rest, child);
        ForestPruned(before, children - rest + {child});
        assert children - rest + {child} == children - (rest - {child});
        var _ := RemoveFramesRecursively(child);
        PrunedIsSmaller(before, children - (rest - {child}));
        rest := rest - {child};
      }
      assert children - {} == children;
    }

    method RemoveFramesRecursively(id: FrameId) returns (removed: Option<Frame>)
      requires Forest(frames)
      modifies this`frames
      ensures frames == Pruned(old(frames), {id})
      ensures removed == if id in old(frames) then Some(old(frames)[id].(parent := None)) else None
      decreases |frames|, 0
    {
      if id !in frames {
        PrunedNothing(frames, {id});
        return None;
      }
      var f := frames[id];
      PruneOneFrame(frames, id);
      ForestWithout(frames, id);
      LeavingShrinks(frames, id);
      frames := frames - {id};
      RemoveEach(f.children);
      if f.parent.Some? {
        var parent := f.parent.value;
        if parent in frames {
          frames := frames[parent := frames[parent].(children := frames[parent].children - {f.id})];
        }
      }
      removed := Some(f.(parent := None));
    }

    // ---------- Frame events ----------

    method OnFrameAttached(id: FrameId, parent: Option<FrameId>)
      requires Valid()
      modifies this
      ensures Valid() && State() == FrameManagerSpec.OnFrameAttached(old(State()), id, parent)
    {
      if frames != map[] {
        AttachedIsTree(frames, mainFrame.value, id, parent);
      }
      if id in frames {
        return;
      }
      if parent.Some? && parent.value in frames {
        var p := frames[parent.value];
        frames := frames[parent.value := p.(children := p.children + {id})];
        frames := frames[id := NewFrame(id, Some(p.id))];
      }
    }

    method OnFrameDetached(id: FrameId)
      requires Valid()
      modifies this
      ensures Valid() && State() == FrameManagerSpec.OnFrameDetached(old(State()), id)
    {
      DetachedKeepsShape(State(), id);
      var _ := RemoveFramesRecursively(id);
    }

    method OnFrameNavigated(f: CdpFrame) returns (panicked: bool)
      requires Valid()
      modifies this
      ensures panicked <==> FrameManagerSpec.OnFrameNavigated(old(State()), f).Panicked?
      ensures !panicked ==> Valid() && Alive(State()) == FrameManagerSpec.OnFrameNavigated(old(State()), f)
    {
      NavigatedKeepsShape(State(), f);
      if f.parentId.Some? {
        NavigateChild(f);
        panicked := false;
      } else {
        panicked := NavigateTopLevel(f);
      }
    }

    method NavigateChild(f: CdpFrame)
      requires Forest(frames)
      modifies this`frames
      ensures frames ==
        if f.id in old(frames)
        then Bared(old(frames), f.id)[f.id := Renavigated(old(frames)[f.id].(children := {}), f)]
        else old(frames)
    {
      if f.id in frames {
        var frame := TakeFrame(f.id);
        frame := frame.(children := {});
        assert frames[f.id := frame][f.id := Renavigated(frame, f)] == frames[f.id := Renavigated(frame, f)];
        frame := Renavigated(frame, f);
        frames := frames[f.id := frame];
      }
    }

    /** The main frame is expected to be tracked whenever there is one. */
    method NavigateTopLevel(f: CdpFrame) returns (panicked: bool)
      requires Forest(frames)
      modifies this`mainFrame, this`frames
      ensures panicked <==> old(mainFrame).Some? && old(mainFrame).value !in old(frames)
      ensures !panicked ==> mainFrame == Some(f.id)
      ensures !panicked && old(mainFrame).None? ==>
        frames == old(frames)[f.id := Renavigated(NewFrame(f.id, None), f)]
      ensures !panicked && old(mainFrame).Some? ==>
        var main := old(mainFrame).value;
        frames == Pruned(old(frames) - {main}, old(frames)[main].children)
                    [f.id := Renavigated(old(frames)[main].(children := {}, id := f.id), f)]
    {
      var frame;
      if mainFrame.Some? {
        var main := mainFrame.value;
        mainFrame := None;
        if main !in frames {
          return true;
        }
        frame := TakeFrame(main);
        frame := frame.(children := {});
        frame := frame.(id := f.id);
      } else {
        frame := NewFrame(f.id, None);
      }
      frame := Renavigated(frame, f);
      mainFrame := Some(frame.id);
      frames := frames[frame.id := frame];
      panicked := false;
    }

    /** Takes a frame out of the table and removes everything below it. */
    method TakeFrame(id: FrameId) returns (f: Frame)
      requires Forest(frames) && id in frames
      modifies this`frames
      ensures f == old(frames)[id]
      ensures frames == Pruned(old(frames) - {id}, f.children)
      ensures frames[id := f.(children := {})] == Bared(old(frames), id)
    {
      f := frames[id];
      BareOneFrame(frames, id);
      ForestWithout(frames, id);
      frames := frames - {id};
      RemoveEach(f.children);
    }

    method OnFrameTree(tree: BrowserFrameTree) returns (panicked: bool)
      requires Valid()
      modifies this
      ensures panicked <==> FrameManagerSpec.OnFrameTree(old(State()), tree).Panicked?
      ensures !panicked ==> Valid() && Alive(State()) == FrameManagerSpec.OnFrameTree(old(State()), tree)
      decreases tree
    {
      ghost var start := State();
      OnFrameAttached(tree.frame.id, tree.frame.parentId);
      panicked := OnFrameNavigated(tree.frame);
      if panicked {
        return;
      }
      ghost var navigated := State();
      var i := 0;
      while i < |tree.children|
        invariant 0 <= i <= |tree.children|
        invariant Valid()
        invariant OnFrameTrees(navigated, tree.children) == OnFrameTrees(State(), tree.children[i..])
      {
        assert tree.children[i..][1..] == tree.children[i + 1..];
        panicked := OnFrameTree(tree.children[i]);
        if panicked {
          return;
        }
        i := i + 1;
      }
      panicked := false;
    }

    method OnFrameNavigatedWithinDocument(id: FrameId, url: string)
      requires Valid()
      modifies this
      ensures Valid() && State() == FrameManagerSpec.OnNavigatedWithinDocument(old(State()), id, url)
    {
      if id in frames {
        UpdateKeepsShape(mainFrame, frames, id, frames[id].(url := Some(url)));
        frames := frames[id := frames[id].(url := Some(url))];
      }
      if navigation.Some? {
        var ongoing := navigation.value;
        if ongoing.watcher.frameId == id {
          navigation := Some(ongoing.(watcher := ongoing.watcher.(sameDocument := true)));
        }
      }
    }

    method OnFrameStoppedLoading(id: FrameId)
      requires Valid()
      modifies this
      ensures Valid() && State() == FrameManagerSpec.OnStoppedLoading(old(State()), id)
    {
      if id in frames {
        var f := frames[id];
        f := f.(lifecycle := f.lifecycle + {"DOMContentLoaded"});
        f := f.(lifecycle := f.lifecycle + {"load"});
        assert f == LoadingStopped(frames[id]);
        UpdateKeepsShape(mainFrame, frames, id, f);
        frames := frames[id := f];
      }
    }

    method OnFrameStartedLoading(id: FrameId)
      requires Valid()
      modifies this
      ensures Valid() && State() == FrameManagerSpec.OnStartedLoading(old(State()), id)
    {
      if id in frames {
        UpdateKeepsShape(mainFrame, frames, id, LoadingStarted(frames[id]));
        frames := frames[id := frames[id].(lifecycle := {}, httpRequest := None)];
      }
    }

    method OnPageLifecycleEvent(id: FrameId, name: string, loader: string)
      requires Valid()
      modifies this
      ensures Valid() && State() == FrameManagerSpec.OnLifecycleEvent(old(State()), id, name, loader)
    {
      if id in frames {
        var f := frames[id];
        if name == "init" {
          f := f.(loaderId := Some(loader), lifecycle := {});
        }
        f := f.(lifecycle := f.lifecycle + {name});
        assert f == Progressed(frames[id], name, loader);
        UpdateKeepsShape(mainFrame, frames, id, f);
        frames := frames[id := f];
      }
    }

    method OnHttpRequestFinished(request: HttpRequest)
      requires Valid()
      modifies this
      ensures Valid() && State() == FrameManagerSpec.OnHttpRequestFinished(old(State()), request)
    {
      if request.frame.Some? && request.frame.value in frames {
        var id := request.frame.value;
        UpdateKeepsShape(mainFrame, frames, id, frames[id].(httpRequest := Some(request)));
        frames := frames[id := frames[id].(httpRequest := Some(request))];
      }
    }

    // ---------- Execution contexts ----------

    method OnExecutionContextCreated(ctx: ContextInfo)
      requires Valid()
      modifies this
      ensures Valid() && State() == OnContextCreated(old(State()), ctx)
    {
      if ctx.frame.Some? && ctx.frame.value in frames {
        var f := frames[ctx.frame.value];
        contextIds := contextIds[ctx.uniqueId := f.id];
        if ctx.isDefault {
          f := f.(mainWorld := f.mainWorld.SetContext(ctx.id, ctx.uniqueId));
        } else if ctx.name == UTILITY_WORLD_NAME && f.secondaryWorld.context.None? {
          f := f.(secondaryWorld := f.secondaryWorld.SetContext(ctx.id, ctx.uniqueId));
        }
        UpdateKeepsShape(mainFrame, frames, ctx.frame.value, f);
        frames := frames[ctx.frame.value := f];
      }
      if ctx.isolated {
        isolatedWorlds := isolatedWorlds + {ctx.name};
      }
    }

    method OnExecutionContextDestroyed(uniqueId: string)
      requires Valid()
      modifies this
      ensures Valid() && State() == OnContextDestroyed(old(State()), uniqueId)
    {
      if uniqueId in contextIds {
        var id := contextIds[uniqueId];
        contextIds := contextIds - {uniqueId};
        if id in frames {
          UpdateKeepsShape(mainFrame, frames, id, WithoutContext(frames[id], uniqueId));
          frames := frames[id := WithoutContext(frames[id], uniqueId)];
        }
      }
    }

    method OnExecutionContextsCleared()
      requires Valid()
      modifies this
      ensures Valid() && State() == OnContextsCleared(old(State()))
    {
      hide Shape, ClearedIn;
      ClearedKeepsShape(mainFrame, frames, contextIds.Values);
      ClearIndexed();
      contextIds := map[];
    }

    /** Clears the contexts of every indexed frame that is still tracked, in any order. */
    method ClearIndexed()
      modifies this`frames
      ensures frames == ClearedIn(old(frames), contextIds.Values)
    {
      hide WithoutContexts;
      var rest := contextIds.Values;
      assert frames == ClearedIn(old(frames), contextIds.Values - rest);
      while rest != {}
        invariant rest <= contextIds.Values
        invariant frames == ClearedIn(old(frames), contextIds.Values - rest)
        decreases rest
      {
        var id :| id in rest;
        ClearedOneMore(old(frames), contextIds.Values - rest, id);
        assert contextIds.Values - (rest - {id}) == contextIds.Values - rest + {id};
        if id in frames {
          frames := frames[id := WithoutContexts(frames[id])];
        }
        rest := rest - {id};
      }
      assert contextIds.Values - {} == contextIds.Values;
    }

    /** The commands that set up the world in every tracked frame, unless it was set up before. */
    method EnsureIsolatedWorld(name: string) returns (chain: Option<seq<Chains.Command>>, ghost order: seq<FrameId>)
      requires Valid()
      modifies this
      ensures Valid() && State() == FrameManagerSpec.EnsureIsolatedWorld(old(State()), name)
      ensures chain.None? <==> name in old(isolatedWorlds)
      ensures chain.Some? ==> chain.value == WorldBatch(order) && Enumerates(order, frames.Keys)
    {
      order := [];
      if name in isolatedWorlds {
        assert isolatedWorlds + {name} == isolatedWorlds;
        return None, [];
      }
      isolatedWorlds := isolatedWorlds + {name};
      var cmds := [Chains.AddScriptToEvaluateOnNewDocument];
      var rest := frames.Keys;
      while rest != {}
        invariant rest <= frames.Keys
        invariant cmds == WorldBatch(order)
        invariant multiset(order) + multiset(rest) == multiset(frames.Keys)
        decreases rest
      {
        var id :| id in rest;
        cmds := cmds + [Chains.CreateIsolatedWorld(id)];
        order := order + [id];
        rest := rest - {id};
      }
      chain := Some(cmds);
    }

    // ---------- Navigations ----------

    method NavigateFrame(id: FrameId, req: FrameNavigationRequest)
      requires Valid()
      modifies this
      ensures Valid() && State() == FrameManagerSpec.NavigateFrame(old(State()), id, req)
    {
      var loader := if id in frames then frames[id].loaderId else None;
      var watcher := UntilPageLoad(req.id, id, loader);
      var named := req.SetFrameId(id);
      pendingNavigations := pendingNavigations + [QueuedNavigation(named, watcher)];
    }

    method Goto(req: FrameNavigationRequest)
      requires Valid()
      modifies this
      ensures Valid() && State() == FrameManagerSpec.Goto(old(State()), req)
    {
      if mainFrame.Some? {
        NavigateFrame(mainFrame.value, req);
      }
    }

    method Poll(now: nat, clock: nat) returns (event: Option<FrameEvent>)
      requires Valid()
      modifies this
      ensures Valid() && Polled(State(), event) == FrameManagerSpec.Poll(old(State()), now, clock)
    {
      if navigation.Some? {
        var ongoing := navigation.value;
        navigation := None;
        if now > ongoing.deadline {
          return Some(ResultEvent(Err(Timeout(ongoing.watcher.id, now, ongoing.deadline))));
        }
        if ongoing.watcher.frameId in frames {
          var done := CheckLifecycleComplete(frames, ongoing.watcher, ongoing.watcher.frameId);
          if done.Some? {
            return Some(ResultEvent(Ok(done.value)));
          }
          navigation := Some(ongoing);
        } else {
          return Some(ResultEvent(Err(FrameNotFound(ongoing.watcher.id, ongoing.watcher.frameId))));
        }
      } else if pendingNavigations != [] {
        var next := pendingNavigations[0];
        pendingNavigations := pendingNavigations[1..];
        navigation := Some(OngoingNavigation(next.watcher, clock + next.req.timeout));
        return Some(RequestEvent(next.req.id, next.req.req));
      }
      event := None;
    }
  }

  lemma LeavingShrinks(t: Table, id: FrameId)
    requires id in t
    ensures |t - {id}| < |t|
  {
    assert (t - {id}).Keys == t.Keys - {id};
    assert |t.Keys - {id}| < |t.Keys|;
  }

  lemma {:induction false} SubsetIsSmaller(a: set<FrameId>, b: set<FrameId>)
    requires a <= b
    ensures |a| <= |b|
  {
    if a != {} {
      var x :| x in a;
      SubsetIsSmaller(a - {x}, b - {x});
    }
  }

  lemma PrunedIsSmaller(t: Table, roots: set<FrameId>)
    ensures |Pruned(t, roots)| <= |t|
  {
    SubsetIsSmaller(Pruned(t, roots).Keys, t.Keys);
  }
}
