/** Which targets the handler knows, and when its expectation on a created one fails (src/handler/mod.rs:196-257,
  * 419-445). */
module HandlerTargets {
  import opened Options
  import opened Identifiers
  import opened Navigation
  import opened HandlerSpec

  // ---------- The targets of a run, from its events ----------

  /** The step makes the target known: it was created, or it is in the list that a waiting fetch asked for. */
  predicate Announces(s: Handler, e: Event, t: TargetId) {
    match e
    case TargetCreated(target) => target == t
    case ResponseArrived(response) =>
      && response.id in s.pending && s.pending[response.id].request.GetTargets?
      && response.payload.TargetList? && t in response.payload.targets
    case _ => false
  }

  /** Step `j` announced the target. */
  predicate AnnouncedAt(trace: seq<Event>, j: nat, t: TargetId)
    requires j < |trace|
  {
    Run(trace[..j]).Alive? && Announces(Run(trace[..j]).handler, trace[j], t)
  }

  /** The target was announced and not destroyed since. */
  predicate IsKnown(trace: seq<Event>, t: TargetId) {
    exists j | 0 <= j < |trace| :: AnnouncedAt(trace, j, t) && forall k | j < k < |trace| :: trace[k] != TargetDestroyed(t)
  }

  lemma KnownOneMore(trace: seq<Event>, e: Event, t: TargetId)
    requires Run(trace).Alive?
    ensures IsKnown(trace + [e], t) <==>
            Announces(Run(trace).handler, e, t) || (IsKnown(trace, t) && e != TargetDestroyed(t))
  {
    hide Run, Announces;
    var longer := trace + [e];
    assert longer[..|trace|] == trace && longer[|trace|] == e;
    if j :| 0 <= j < |trace| && AnnouncedAt(trace, j, t) && forall k | j < k < |trace| :: trace[k] != TargetDestroyed(t) {
      assert longer[..j] == trace[..j];
      assert AnnouncedAt(longer, j, t);
    }
    if j :| 0 <= j < |trace| && AnnouncedAt(longer, j, t) && forall k | j < k < |longer| :: longer[k] != TargetDestroyed(t) {
      assert longer[..j] == trace[..j];
      assert AnnouncedAt(trace, j, t);
      assert forall k | j < k < |trace| :: trace[k] == longer[k];
      assert longer[|trace|] != TargetDestroyed(t);
    }
    if Announces(Run(trace).handler, e, t) {
      assert AnnouncedAt(longer, |trace|, t);
    }
  }

  // ---------- What a step does to the targets ----------

  lemma {:induction false} AnnouncingAdds(s: Handler, ids: seq<TargetId>)
    ensures AnnounceTargets(s, ids).targets.Keys == s.targets.Keys + set t | t in ids
    decreases |ids|
  {
    if ids != [] {
      var s1 := OnTargetCreated(s, ids[0]);
      assert ids == [ids[0]] + ids[1..];
      AnnouncingAdds(s1.(nextCall := Wrap(s1.nextCall)), ids[1..]);
    }
  }

  lemma {:induction false} EvictingKeepsTargets(s: Handler, calls: seq<CallId>)
    ensures Evict(s, calls).targets == s.targets
    decreases |calls|
  {
    if calls != [] {
      EvictingKeepsTargets(s, calls[..|calls| - 1]);
    }
  }

  lemma ResponseTargets(s: Handler, response: Response, t: TargetId)
    requires OnResponse(s, response).Alive?
    ensures t in OnResponse(s, response).handler.targets <==> Announces(s, ResponseArrived(response), t) || t in s.targets
  {
    hide AnnounceTargets, OnNavigationResponse;
    if response.id in s.pending {
      var s1 := s.(pending := s.pending - {response.id});
      match s.pending[response.id].request
      case GetTargets(_) => if response.payload.TargetList? { AnnouncingAdds(s1, response.payload.targets); }
      case Navigate(id) => NavigationKeepsTargets(s1, id, response);
      case _ =>
    }
  }

  lemma NavigationKeepsTargets(s: Handler, id: NavigationId, response: Response)
    ensures OnNavigationResponse(s, id, response).targets == s.targets
  {
  }

  lemma StepTargets(s: Handler, e: Event, t: TargetId)
    requires Step(s, e).Alive?
    ensures t in Step(s, e).handler.targets <==> Announces(s, e, t) || (t in s.targets && e != TargetDestroyed(t))
  {
    hide OnResponse, Evict;
    match e
    case ResponseArrived(response) => ResponseTargets(s, response, t);
    case Evicted(calls, _, _) => EvictingKeepsTargets(s, calls);
    case _ =>
  }

  /** The handler holds exactly the targets that were announced and not destroyed since. */
  lemma {:induction false} TargetsAreKnown(trace: seq<Event>, t: TargetId)
    requires Run(trace).Alive?
    ensures t in Run(trace).handler.targets <==> IsKnown(trace, t)
  {
    if trace != [] {
      var before, e := trace[..|trace| - 1], trace[|trace| - 1];
      assert trace == before + [e];
      hide Step, IsKnown, Announces;
      TargetsAreKnown(before, t);
      KnownOneMore(before, e, t);
      StepTargets(Run(before).handler, e, t);
    }
  }

  // ---------- When the expectation fails ----------

  /** The last step is the response to a waiting create call, for a target that was never announced, or was destroyed
    * since. */
  predicate CreatesUnknown(before: seq<Event>, e: Event) {
    && Run(before).Alive? && e.ResponseArrived?
    && var s := Run(before).handler;
    && e.response.id in s.pending && s.pending[e.response.id].request.CreateTarget?
    && e.response.payload.CreatedTarget? && !IsKnown(before, e.response.payload.target)
  }

  lemma StepPanicsExactlyWhen(before: seq<Event>, e: Event)
    requires Run(before).Alive?
    ensures Step(Run(before).handler, e).Panicked? <==> CreatesUnknown(before, e)
  {
    hide Run, IsKnown, SetInitiator, AnnounceTargets, OnNavigationResponse;
    if e.ResponseArrived? && e.response.payload.CreatedTarget? {
      TargetsAreKnown(before, e.response.payload.target);
    }
  }

  /** In every run, the expectation on a created target fails exactly when a create call is answered with a target that
    * was not announced before, or was destroyed since. */
  lemma {:induction false} PanicsExactlyWhen(trace: seq<Event>)
    ensures Run(trace).Panicked? <==> exists i | 0 <= i < |trace| :: CreatesUnknown(trace[..i], trace[i])
  {
    if trace != [] {
      var last := |trace| - 1;
      var before := trace[..last];
      PanicsExactlyWhen(before);
      forall i | 0 <= i < last
        ensures CreatesUnknown(before[..i], before[i]) == CreatesUnknown(trace[..i], trace[i])
      {
        assert before[..i] == trace[..i];
      }
      hide Step, CreatesUnknown;
      if Run(before).Alive? {
        StepPanicsExactlyWhen(before, trace[last]);
      }
    }
  }

  /** The response to the first call comes before the target was announced. */
  lemma UnannouncedTargetFails(tx: Ticket, now: nat, t: TargetId)
    ensures Run([PageRequested(tx, true, now)] +
                [ResponseArrived(Response(CallId(1), CreatedTarget(t)))]).Panicked?
  {
    var asked, answered := PageRequested(tx, true, now), ResponseArrived(Response(CallId(1), CreatedTarget(t)));
    assert ([asked] + [answered])[..1] == [asked] && [asked][..0] == [];
    assert Run([]) == Alive(NEW_HANDLER);
    assert Run([asked]) == Alive(Track(NEW_HANDLER, CreateTarget(tx), now));
  }
}
