/** The values a navigation is made of (src/handler/frame.rs:561-676) and the lifecycle check over the frames below
  * a navigated frame (src/handler/frame.rs:260-289). */
module Navigation {
  import opened Options
  import opened Http
  import opened FrameTable
  import opened FrameOps

  datatype NavigationId = NavigationId(raw: nat)

  datatype Params = Object(fields: map<string, string>) | Scalar(raw: string)

  datatype CdpRequest = CdpRequest(command: string, sessionId: Option<string>, params: Params)

  datatype FrameNavigationRequest = FrameNavigationRequest(id: NavigationId, req: CdpRequest, timeout: nat) {
    /** Names the frame in the request, unless the caller already named one. */
    function SetFrameId(frame: FrameId): FrameNavigationRequest {
      if req.params.Object? && "frameId" !in req.params.fields
      then this.(req := req.(params := Object(req.params.fields["frameId" := frame.raw])))
      else this
    }
  }

  datatype NavigationWatcher = NavigationWatcher(
    id: NavigationId,
    expected: set<string>,
    frameId: FrameId,
    loaderId: Option<string>,
    sameDocument: bool)

  function UntilPageLoad(id: NavigationId, frame: FrameId, loader: Option<string>): NavigationWatcher {
    NavigationWatcher(id, {"load"}, frame, loader, false)
  }

  datatype NavigationOk = SameDocumentNavigation(id: NavigationId) | NewDocumentNavigation(id: NavigationId)

  datatype NavigationError =
    | Timeout(id: NavigationId, now: nat, deadline: nat)
    | FrameNotFound(id: NavigationId, frame: FrameId)

  datatype NavigationResult = Ok(ok: NavigationOk) | Err(error: NavigationError) {
    function Id(): NavigationId {
      match this
      case Ok(ok) => ok.id
      case Err(error) => error.id
    }
  }

  datatype FrameEvent =
    | ResultEvent(result: NavigationResult)
    | RequestEvent(id: NavigationId, req: CdpRequest)
  {
    function Id(): NavigationId {
      match this
      case ResultEvent(result) => result.Id()
      case RequestEvent(id, _) => id
    }
  }

  // ---------- The lifecycle check ----------

  predicate FrameReady(watcher: NavigationWatcher, f: Frame) {
    forall ev | ev in watcher.expected :: ev in f.lifecycle || (f.url.None? && "DOMContentLoaded" in f.lifecycle)
  }

  /** The recursion follows child links and removes nothing; it ends because links in a forest have no cycle. */
  predicate CheckLifecycle(t: Table, watcher: NavigationWatcher, id: FrameId)
    requires Forest(t) && id in t
    decreases Subtree(t, id)
  {
    && FrameReady(watcher, t[id])
    && forall c | c in t[id].children && c in t :: (SubtreeShrinks(t, id, c); CheckLifecycle(t, watcher, c))
  }

  function CheckLifecycleComplete(t: Table, watcher: NavigationWatcher, id: FrameId): Option<NavigationOk>
    requires Forest(t) && id in t
  {
    if !CheckLifecycle(t, watcher, id) then None
    else if t[id].loaderId == watcher.loaderId && !watcher.sameDocument then None
    else if watcher.sameDocument then Some(SameDocumentNavigation(watcher.id))
    else if t[id].loaderId != watcher.loaderId then Some(NewDocumentNavigation(watcher.id))
    else None
  }

  /** The check holds exactly when every frame of the whole subtree is ready. */
  lemma {:induction false} LifecycleCoversSubtree(t: Table, watcher: NavigationWatcher, id: FrameId)
    requires Forest(t) && id in t
    ensures CheckLifecycle(t, watcher, id) <==> forall x | x in Subtree(t, id) :: FrameReady(watcher, t[x])
    decreases Subtree(t, id)
  {
    UnderChild(t, id);
    UnderSelf(t, id);
    assert id in Subtree(t, id);
    forall c | c in t[id].children && c in t
      ensures CheckLifecycle(t, watcher, c) <==> forall x | x in Subtree(t, c) :: FrameReady(watcher, t[x])
      ensures Subtree(t, c) < Subtree(t, id)
    {
      SubtreeShrinks(t, id, c);
      LifecycleCoversSubtree(t, watcher, c);
    }
    forall x | x in Subtree(t, id) && x != id
      ensures exists c | c in t[id].children && c in t :: x in Subtree(t, c)
    {
    }
  }

  /** A completed navigation: the subtree is ready, and either the document was kept or its loader is a new one. */
  lemma CompleteExactlyWhen(t: Table, watcher: NavigationWatcher, id: FrameId)
    requires Forest(t) && id in t
    ensures CheckLifecycleComplete(t, watcher, id).Some? <==>
      && (forall x | x in Subtree(t, id) :: FrameReady(watcher, t[x]))
      && (watcher.sameDocument || t[id].loaderId != watcher.loaderId)
    ensures CheckLifecycleComplete(t, watcher, id).Some? ==>
      CheckLifecycleComplete(t, watcher, id).value ==
        if watcher.sameDocument then SameDocumentNavigation(watcher.id) else NewDocumentNavigation(watcher.id)
  {
    LifecycleCoversSubtree(t, watcher, id);
  }
}
