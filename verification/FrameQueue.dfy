/** The queue of navigations over whole runs (src/handler/frame.rs:300-352, src/handler/target.rs:546-557). */
module FrameQueue {
  import opened Options
  import opened Http
  import opened FrameTable
  import opened FrameOps
  import opened Navigation
  import opened FrameManagerSpec
  import opened FrameRuns

  // ---------- What a run accepts and what it puts out ----------

  /** A navigation request is dropped when there is no main frame to navigate. */
  function AcceptedBy(s: Manager, e: Event): seq<NavigationId> {
    match e
    case GotoRequested(req) => if s.mainFrame.Some? then [req.id] else []
    case FrameNavigationRequested(_, req) => [req.id]
    case _ => []
  }

  function OutputOf(s: Manager, e: Event): seq<FrameEvent>
    requires Forest(s.frames)
  {
    match e
    case PollRequested(now, clock) =>
      var event := Poll(s, now, clock).event;
      if event.Some? then [event.value] else []
    case _ => []
  }

  ghost function Accepted(trace: seq<Event>): seq<NavigationId> {
    if trace == [] then []
    else
      var before := trace[..|trace| - 1];
      Accepted(before) + if Run(before).Alive? then AcceptedBy(Run(before).manager, trace[|trace| - 1]) else []
  }

  ghost function Outputs(trace: seq<Event>): seq<FrameEvent> {
    if trace == [] then []
    else
      var before := trace[..|trace| - 1];
      Outputs(before) + if Run(before).Alive? then OutputOf(Run(before).manager, trace[|trace| - 1]) else []
  }

  // ---------- The frames may change, the queue does not ----------

  lemma {:induction false} TreeKeepsQueue(s: Manager, tree: BrowserFrameTree)
    ensures OnFrameTree(s, tree).Alive? ==>
      OnFrameTree(s, tree).manager.pending == s.pending && OnFrameTree(s, tree).manager.navigation == s.navigation
    decreases tree, 1
  {
    var o := OnFrameNavigated(OnFrameAttached(s, tree.frame.id, tree.frame.parentId), tree.frame);
    if o.Alive? {
      TreesKeepQueue(o.manager, tree.children);
    }
  }

  lemma {:induction false} TreesKeepQueue(s: Manager, trees: seq<BrowserFrameTree>)
    ensures OnFrameTrees(s, trees).Alive? ==>
      OnFrameTrees(s, trees).manager.pending == s.pending && OnFrameTrees(s, trees).manager.navigation == s.navigation
    decreases trees, 0
  {
    if trees != [] {
      TreeKeepsQueue(s, trees[0]);
      if OnFrameTree(s, trees[0]).Alive? {
        TreesKeepQueue(OnFrameTree(s, trees[0]).manager, trees[1..]);
      }
    }
  }

  predicate TouchesQueue(e: Event) {
    e.GotoRequested? || e.FrameNavigationRequested? || e.PollRequested? || e.NavigatedWithinDocument?
  }

  lemma OthersKeepQueue(s: Manager, e: Event)
    requires Forest(s.frames) && !TouchesQueue(e)
    ensures Step(s, e).Alive? ==> Step(s, e).manager.pending == s.pending && Step(s, e).manager.navigation == s.navigation
  {
    if e.FrameTreeReceived? {
      TreeKeepsQueue(s, e.tree);
    }
  }

  // ---------- Requests and results alternate, in the order navigations were accepted ----------

  /** The outputs are the first `|outputs|` entries of Request(a0), Result(a0), Request(a1), Result(a1), ... */
  predicate Alternates(outputs: seq<FrameEvent>, accepted: seq<NavigationId>) {
    && |outputs| <= 2 * |accepted|
    && forall i | 0 <= i < |outputs| :: outputs[i].Id() == accepted[i / 2] && (outputs[i].RequestEvent? <==> i % 2 == 0)
  }

  /** What is still queued is what was accepted last. */
  predicate Queues(s: Manager, outputs: seq<FrameEvent>, accepted: seq<NavigationId>) {
    && |s.pending| <= |accepted|
    && var started := |accepted| - |s.pending|;
    && |outputs| == 2 * started - (if s.navigation.Some? then 1 else 0)
    && (forall i | 0 <= i < |s.pending| ::
          s.pending[i].req.id == accepted[started + i] && s.pending[i].watcher.id == accepted[started + i])
    && (s.navigation.Some? ==> started > 0 && s.navigation.value.watcher.id == accepted[started - 1])
  }

  lemma StepQueues(s: Manager, e: Event, outputs: seq<FrameEvent>, accepted: seq<NavigationId>)
    requires Forest(s.frames) && Queues(s, outputs, accepted) && Alternates(outputs, accepted)
    ensures Alternates(outputs + OutputOf(s, e), accepted + AcceptedBy(s, e))
    ensures Step(s, e).Alive? ==> Queues(Step(s, e).manager, outputs + OutputOf(s, e), accepted + AcceptedBy(s, e))
  {
    hide Step, Alternates;
    assert accepted + [] == accepted && outputs + [] == outputs;
    if TouchesQueue(e) {
      QueueStepQueues(s, e, outputs, accepted);
    } else {
      OthersKeepQueue(s, e);
    }
  }

  lemma QueueStepQueues(s: Manager, e: Event, outputs: seq<FrameEvent>, accepted: seq<NavigationId>)
    requires Forest(s.frames) && Queues(s, outputs, accepted) && Alternates(outputs, accepted) && TouchesQueue(e)
    ensures Alternates(outputs + OutputOf(s, e), accepted + AcceptedBy(s, e))
    ensures Step(s, e).Alive? ==> Queues(Step(s, e).manager, outputs + OutputOf(s, e), accepted + AcceptedBy(s, e))
  {
    hide Queues, Alternates, Poll, OnNavigatedWithinDocument, NavigateFrame;
    assert accepted + [] == accepted && outputs + [] == outputs;
    match e
    case PollRequested(now, clock) => PollQueues(s, now, clock, outputs, accepted);
    case GotoRequested(req) => if s.mainFrame.Some? { NavigateQueues(s, s.mainFrame.value, req, outputs, accepted); }
    case FrameNavigationRequested(id, req) => NavigateQueues(s, id, req, outputs, accepted);
    case NavigatedWithinDocument(id, url) => WithinDocumentQueues(s, id, url, outputs, accepted);
  }

  lemma NavigateQueues(s: Manager, id: FrameId, req: FrameNavigationRequest, outputs: seq<FrameEvent>,
                       accepted: seq<NavigationId>)
    requires Queues(s, outputs, accepted) && Alternates(outputs, accepted)
    ensures Queues(NavigateFrame(s, id, req), outputs, accepted + [req.id]) && Alternates(outputs, accepted + [req.id])
  {
  }

  lemma WithinDocumentQueues(s: Manager, id: FrameId, url: string, outputs: seq<FrameEvent>, accepted: seq<NavigationId>)
    requires Queues(s, outputs, accepted)
    ensures Queues(OnNavigatedWithinDocument(s, id, url), outputs, accepted)
  {
    var s' := OnNavigatedWithinDocument(s, id, url);
    assert s'.pending == s.pending && s'.navigation.Some? == s.navigation.Some?;
    assert s.navigation.Some? ==> s'.navigation.value.watcher.id == s.navigation.value.watcher.id;
  }

  lemma PollQueues(s: Manager, now: nat, clock: nat, outputs: seq<FrameEvent>, accepted: seq<NavigationId>)
    requires Forest(s.frames) && Queues(s, outputs, accepted) && Alternates(outputs, accepted)
    ensures var p := Poll(s, now, clock);
            var after := outputs + if p.event.Some? then [p.event.value] else [];
            Alternates(after, accepted) && Queues(p.manager, after, accepted)
  {
    var p := Poll(s, now, clock);
    if p.event.None? {
      assert outputs + [] == outputs;
    } else {
      var started := |accepted| - |s.pending|;
      var i := |outputs|;
      if s.navigation.Some? {
        assert i == 2 * started - 1 && i / 2 == started - 1;
        if now <= s.navigation.value.deadline && s.navigation.value.watcher.frameId in s.frames {
          CompleteExactlyWhen(s.frames, s.navigation.value.watcher, s.navigation.value.watcher.frameId);
        }
      } else {
        assert i == 2 * started && i / 2 == started;
      }
    }
  }

  /** In every run, whatever the events and the clock, results follow their own requests, one navigation at a time, in
    * the order in which the navigations were accepted. */
  lemma {:induction false} OutputsAlternateInEveryRun(trace: seq<Event>)
    ensures Alternates(Outputs(trace), Accepted(trace))
    ensures Run(trace).Alive? ==> Queues(Run(trace).manager, Outputs(trace), Accepted(trace))
  {
    if trace != [] {
      var before := trace[..|trace| - 1];
      OutputsAlternateInEveryRun(before);
      if Run(before).Alive? {
        StepQueues(Run(before).manager, trace[|trace| - 1], Outputs(before), Accepted(before));
      } else {
        assert Outputs(before) + [] == Outputs(before) && Accepted(before) + [] == Accepted(before);
      }
    }
  }

  // ---------- Draining ----------

  /** The measure by which the drain loop of the target ends. */
  function Backlog(s: Manager): nat {
    2 * |s.pending| + if s.navigation.Some? then 1 else 0
  }

  /** A poll that puts something out uses up backlog; one that does not changes nothing, and if navigations are then
    * still queued, the ongoing one is unfinished and within its deadline. */
  lemma PollDrains(s: Manager, now: nat, clock: nat)
    requires Forest(s.frames)
    ensures var p := Poll(s, now, clock);
            if p.event.Some? then Backlog(p.manager) < Backlog(s)
            else p.manager == s && (s.pending != [] ==> s.navigation.Some?)
                 && (s.navigation.Some? ==>
                       && now <= s.navigation.value.deadline
                       && s.navigation.value.watcher.frameId in s.frames
                       && CheckLifecycleComplete(s.frames, s.navigation.value.watcher,
                                                 s.navigation.value.watcher.frameId).None?)
  {
  }

  // ---------- What a success stands for ----------

  /** Event `i` queued the navigation of `w`, recording the loader its frame had at that moment. */
  ghost predicate QueuedAt(trace: seq<Event>, i: nat, w: NavigationWatcher) {
    && i < |trace|
    && Run(trace[..i]).Alive?
    && var s := Run(trace[..i]).manager;
    && w.loaderId == (if w.frameId in s.frames then s.frames[w.frameId].loaderId else None)
    && match trace[i]
       case GotoRequested(req) => req.id == w.id && s.mainFrame == Some(w.frameId)
       case FrameNavigationRequested(id, req) => req.id == w.id && id == w.frameId
       case _ => false
  }

  ghost predicate StayedInDocument(trace: seq<Event>, from: nat, frame: FrameId) {
    exists j | from < j < |trace| :: trace[j].NavigatedWithinDocument? && trace[j].id == frame
  }

  ghost predicate HasOrigin(trace: seq<Event>, w: NavigationWatcher) {
    && w.expected == {"load"}
    && exists i: nat :: QueuedAt(trace, i, w) && (w.sameDocument ==> StayedInDocument(trace, i, w.frameId))
  }

  lemma OriginPersists(trace: seq<Event>, e: Event, w: NavigationWatcher)
    requires HasOrigin(trace, w)
    ensures HasOrigin(trace + [e], w)
    ensures e.NavigatedWithinDocument? && e.id == w.frameId ==> HasOrigin(trace + [e], w.(sameDocument := true))
  {
    var longer := trace + [e];
    var i: nat :| QueuedAt(trace, i, w) && (w.sameDocument ==> StayedInDocument(trace, i, w.frameId));
    assert longer[..i] == trace[..i] && longer[i] == trace[i];
    assert QueuedAt(longer, i, w);
    if w.sameDocument {
      var j :| i < j < |trace| && trace[j].NavigatedWithinDocument? && trace[j].id == w.frameId;
      assert longer[j] == trace[j];
    }
    if e.NavigatedWithinDocument? && e.id == w.frameId {
      assert longer[|trace|] == e;
      assert StayedInDocument(longer, i, w.frameId);
      assert QueuedAt(longer, i, w.(sameDocument := true));
    }
  }

  ghost predicate AllOriginate(trace: seq<Event>, s: Manager) {
    && (forall i | 0 <= i < |s.pending| :: HasOrigin(trace, s.pending[i].watcher))
    && (s.navigation.Some? ==> HasOrigin(trace, s.navigation.value.watcher))
  }

  lemma QueueingOriginates(trace: seq<Event>, s: Manager, id: FrameId, req: FrameNavigationRequest, e: Event)
    requires Run(trace) == Alive(s)
    requires e == FrameNavigationRequested(id, req) || (e == GotoRequested(req) && s.mainFrame == Some(id))
    ensures var q := NavigateFrame(s, id, req).pending;
            HasOrigin(trace + [e], q[|q| - 1].watcher)
  {
    var q := NavigateFrame(s, id, req).pending;
    var w := q[|q| - 1].watcher;
    assert (trace + [e])[..|trace|] == trace;
    assert QueuedAt(trace + [e], |trace|, w);
  }

  lemma {:induction false} WatchersOriginate(trace: seq<Event>)
    requires Run(trace).Alive?
    ensures AllOriginate(trace, Run(trace).manager)
  {
    if trace != [] {
      var before := trace[..|trace| - 1];
      assert trace == before + [trace[|trace| - 1]];
      WatchersOriginate(before);
      StepOriginates(before, Run(before).manager, trace[|trace| - 1]);
    }
  }

  lemma StepOriginates(trace: seq<Event>, s: Manager, e: Event)
    requires Run(trace) == Alive(s) && AllOriginate(trace, s) && Step(s, e).Alive?
    ensures AllOriginate(trace + [e], Step(s, e).manager)
  {
    hide OnFrameAttached, OnFrameDetached, OnFrameNavigated, OnFrameTree, OnContextCreated, OnContextDestroyed,
      OnContextsCleared, OnNavigatedWithinDocument, OnHttpRequestFinished, OnLifecycleEvent, Poll, HasOrigin;
    OriginsPersist(trace, e);
    match e
    case GotoRequested(req) => if s.mainFrame.Some? { QueueingOriginates(trace, s, s.mainFrame.value, req, e); }
    case FrameNavigationRequested(id, req) => QueueingOriginates(trace, s, id, req, e);
    case PollRequested(now, clock) => PollOriginates(trace + [e], s, now, clock);
    case NavigatedWithinDocument(id, url) => WithinDocumentOriginates(trace, s, id, url);
    case _ =>
      hide Step;
      OthersKeepQueue(s, e);
  }

  lemma OriginsPersist(trace: seq<Event>, e: Event)
    ensures forall w | HasOrigin(trace, w) :: HasOrigin(trace + [e], w)
  {
    hide HasOrigin;
    forall w | HasOrigin(trace, w)
      ensures HasOrigin(trace + [e], w)
    {
      OriginPersists(trace, e, w);
    }
  }

  lemma WithinDocumentOriginates(trace: seq<Event>, s: Manager, id: FrameId, url: string)
    requires AllOriginate(trace, s)
    ensures AllOriginate(trace + [NavigatedWithinDocument(id, url)], OnNavigatedWithinDocument(s, id, url))
  {
    var e := NavigatedWithinDocument(id, url);
    forall i | 0 <= i < |s.pending|
      ensures HasOrigin(trace + [e], s.pending[i].watcher)
    {
      OriginPersists(trace, e, s.pending[i].watcher);
    }
    if s.navigation.Some? {
      OriginPersists(trace, e, s.navigation.value.watcher);
    }
  }

  lemma PollOriginates(trace: seq<Event>, s: Manager, now: nat, clock: nat)
    requires Forest(s.frames) && AllOriginate(trace, s)
    ensures AllOriginate(trace, Poll(s, now, clock).manager)
  {
  }

  /** The whole subtree of the watched frame is loaded, and since event `i` queued the navigation, either the document was
    * navigated within or the frame got a loader other than the one recorded then. */
  ghost predicate LoadedSince(s: Manager, trace: seq<Event>, i: nat, w: NavigationWatcher) {
    && w.frameId in s.frames
    && (forall x | x in Subtree(s.frames, w.frameId) ::
          s.frames[x].IsLoaded() || (s.frames[x].url.None? && "DOMContentLoaded" in s.frames[x].lifecycle))
    && (StayedInDocument(trace, i, w.frameId) || s.frames[w.frameId].loaderId != w.loaderId)
  }

  /** A navigation that succeeds is the ongoing one. The whole subtree of its frame is loaded, and since it was queued
    * either the document was navigated within or the frame got a loader other than the one recorded then. */
  lemma SuccessMeansLoaded(trace: seq<Event>, now: nat, clock: nat, ok: NavigationOk)
    requires Run(trace).Alive?
    requires Poll(Run(trace).manager, now, clock).event == Some(ResultEvent(Ok(ok)))
    ensures var s := Run(trace).manager;
      s.navigation.Some? &&
      var w := s.navigation.value.watcher;
      w.id == ok.id && exists i: nat :: QueuedAt(trace, i, w) && LoadedSince(s, trace, i, w)
  {
    var s := Run(trace).manager;
    var w := s.navigation.value.watcher;
    WatchersOriginate(trace);
    CompleteExactlyWhen(s.frames, w, w.frameId);
    var i: nat :| QueuedAt(trace, i, w) && (w.sameDocument ==> StayedInDocument(trace, i, w.frameId));
    forall x | x in Subtree(s.frames, w.frameId)
      ensures s.frames[x].IsLoaded() || (s.frames[x].url.None? && "DOMContentLoaded" in s.frames[x].lifecycle)
    {
      assert FrameReady(w, s.frames[x]);
      assert "load" in w.expected;
    }
  }
}
