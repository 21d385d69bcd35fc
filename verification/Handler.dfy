/** The handler as it runs (src/handler/mod.rs:55-522, 579-611). */
module Handlers {
  import opened Options
  import opened Identifiers
  import opened Navigation
  import opened HandlerSpec
  import opened Sweep

  class Handler {
    var pendingCommands: map<CallId, PendingCall>
    var navigations: map<NavigationId, NavigationInProgress>
    var targets: map<TargetId, Option<Ticket>>
    var targetIds: seq<TargetId>
    var nextCallId: nat
    var nextNavigationId: nat
    var closing: bool
    const requestTimeout: nat
    // every answer sent, and every sender dropped without one
    ghost var answered: seq<Answer>
    ghost var discarded: seq<Ticket>

    constructor (requestTimeout: nat)
      ensures State() == NEW_HANDLER && this.requestTimeout == requestTimeout
    {
      pendingCommands, navigations, targets, targetIds := map[], map[], map[], [];
      nextCallId, nextNavigationId, closing := 1, 0, false;
      this.requestTimeout := requestTimeout;
      answered, discarded := [], [];
    }

    ghost function State(): HandlerSpec.Handler
      reads this
    {
      HandlerSpec.Handler(pendingCommands, navigations, targets, targetIds, nextCallId, nextNavigationId, closing,
                          answered, discarded)
    }

    method Send(tx: Ticket, reply: Reply)
      modifies this`answered
      ensures State() == old(State()).Answering(tx, reply)
    {
      answered := answered + [Answer(tx, reply)];
    }

    ghost method Drop(tx: Option<Ticket>)
      modifies this`discarded
      ensures State() == old(State()).Discarding(tx)
    {
      if tx.Some? {
        discarded := discarded + [tx.value];
      }
    }

    // ---------- Submitting calls ----------

    method SubmitCommand() returns (id: CallId)
      modifies this`nextCallId
      ensures id == CallId(old(nextCallId)) && nextCallId == Wrap(old(nextCallId))
    {
      id := CallId(nextCallId);
      nextCallId := Wrap(nextCallId);
    }

    /** Submits a call of any kind and remembers what its response is for. */
    method Submit(request: PendingRequest, now: nat)
      modifies this
      ensures State() == Track(old(State()), request, now)
    {
      var id := SubmitCommand();
      Drop(SenderAt(pendingCommands, id));
      pendingCommands := pendingCommands[id := PendingCall(request, now)];
    }

    method CreatePage(tx: Ticket, valid: bool, now: nat)
      modifies this
      ensures State() == HandlerSpec.CreatePage(old(State()), tx, valid, now)
    {
      if valid {
        Submit(CreateTarget(tx), now);
      } else {
        Send(tx, Failed);
      }
    }

    /** A message from a page: a navigation is queued with the target and registered, anything else is submitted. */
    method OnTargetMessage(tx: Ticket, isNavigation: bool, now: nat)
      modifies this
      ensures State() ==
        if isNavigation then AskNavigation(old(State()), tx) else Track(old(State()), ExternalCommand(tx), now)
    {
      if isNavigation {
        var id := NavigationId(nextNavigationId);
        nextNavigationId := Wrap(nextNavigationId);
        Drop(if id in navigations then Some(navigations[id].tx) else None);
        navigations := navigations[id := NavigationInProgress(false, None, tx)];
      } else {
        Submit(ExternalCommand(tx), now);
      }
    }

    // ---------- Navigations ----------

    method OnNavigationResponse(id: NavigationId, response: Response)
      modifies this
      ensures State() == HandlerSpec.OnNavigationResponse(old(State()), id, response)
    {
      if id in navigations {
        var nav := navigations[id];
        navigations := navigations - {id};
        if nav.navigated {
          Send(nav.tx, RespondedWith(response));
        } else {
          nav := nav.(response := Some(response));
          navigations := navigations[id := nav];
        }
      }
    }

    method OnNavigationLifecycleCompleted(result: NavigationResult)
      modifies this
      ensures State() == OnLifecycleCompleted(old(State()), result)
    {
      var id := result.Id();
      match result
      case Ok(_) =>
        if id in navigations {
          var nav := navigations[id];
          navigations := navigations - {id};
          if nav.response.Some? {
            Send(nav.tx, RespondedWith(nav.response.value));
          } else {
            nav := nav.(navigated := true);
            navigations := navigations[id := nav];
          }
        }
      case Err(error) =>
        if id in navigations {
          var nav := navigations[id];
          navigations := navigations - {id};
          Send(nav.tx, NavigationFailed(error));
        }
    }

    // ---------- Targets ----------

    method OnTargetCreated(id: TargetId)
      modifies this
      ensures State() == HandlerSpec.OnTargetCreated(old(State()), id)
    {
      targetIds := targetIds + [id];
      Drop(if id in targets then targets[id] else None);
      targets := targets[id := None];
    }

    method OnTargetDestroyed(id: TargetId)
      modifies this
      ensures State() == HandlerSpec.OnTargetDestroyed(old(State()), id)
    {
      if id in targets {
        Drop(targets[id]);
        targets := targets - {id};
      } else {
        assert targets - {id} == targets;
      }
    }

    /** The target of a page is ready, or failed to become so: whoever asked for the page is told. */
    method OnTargetDone(id: TargetId, ready: bool)
      modifies this
      ensures State() == HandlerSpec.OnTargetDone(old(State()), id, ready)
    {
      if id in targets && targets[id].Some? {
        var tx := targets[id].value;
        targets := targets[id := None];
        if ready {
          Send(tx, Page(id));
        } else {
          Send(tx, TimedOut);
        }
      }
    }

    // ---------- Responses ----------

    method OnResponse(response: Response) returns (panicked: bool)
      modifies this
      ensures panicked <==> HandlerSpec.OnResponse(old(State()), response).Panicked?
      ensures !panicked ==> Alive(State()) == HandlerSpec.OnResponse(old(State()), response)
    {
      hide AnnounceTargets, HandlerSpec.OnNavigationResponse;
      if response.id !in pendingCommands {
        return false;
      }
      var request := pendingCommands[response.id].request;
      pendingCommands := pendingCommands - {response.id};
      match request {
        case CreateTarget(tx) =>
          if response.payload.CreatedTarget? {
            var id := response.payload.target;
            if id !in targets {
              return true;
            }
            Drop(targets[id]);
            targets := targets[id := Some(tx)];
          } else {
            Send(tx, Failed);
          }
        case GetTargets(tx) =>
          if response.payload.TargetList? {
            AnnounceAll(response.payload.targets);
            Send(tx, TargetInfos(response.payload.targets));
          } else {
            Send(tx, Failed);
          }
        case Navigate(id) => OnNavigationResponse(id, response);
        case ExternalCommand(tx) => Send(tx, RespondedWith(response));
        case InternalCommand(_) =>
        case CloseBrowser(tx) =>
          closing := true;
          Send(tx, Closed);
      }
      panicked := false;
    }

    method AnnounceAll(ids: seq<TargetId>)
      modifies this
      ensures State() == AnnounceTargets(old(State()), ids)
    {
      var i := 0;
      while i < |ids|
        invariant 0 <= i <= |ids|
        invariant AnnounceTargets(State(), ids[i..]) == AnnounceTargets(old(State()), ids)
      {
        assert ids[i..][1..] == ids[i + 1..];
        OnTargetCreated(ids[i]);
        var _ := SubmitCommand();
        i := i + 1;
      }
    }

    // ---------- House keeping ----------

    /** The calls that timed out are collected first, in no particular order, and then evicted one by one. */
    method EvictTimedOutCommands(now: nat) returns (calls: seq<CallId>)
      modifies this
      ensures Collects(old(State()), calls, now, requestTimeout)
      ensures State() == Evict(old(State()), calls)
    {
      calls := CollectTimedOut(now);
      var i := 0;
      assert calls[..0] == [];
      while i < |calls|
        invariant 0 <= i <= |calls|
        invariant State() == Evict(old(State()), calls[..i])
      {
        assert calls[..i + 1][..i] == calls[..i];
        EvictCall(calls[i]);
        i := i + 1;
      }
      assert calls[..|calls|] == calls;
    }

    method CollectTimedOut(now: nat) returns (calls: seq<CallId>)
      ensures Collects(State(), calls, now, requestTimeout)
    {
      calls := [];
      var rest := pendingCommands.Keys;
      while rest != {}
        invariant rest <= pendingCommands.Keys
        invariant forall i, j | 0 <= i < j < |calls| :: calls[i] != calls[j]
        invariant forall id | id in calls :: id in pendingCommands && id !in rest
        invariant forall id | id in pendingCommands && id !in rest ::
          IsTimedOut(State(), id, now, requestTimeout) <==> id in calls
        decreases rest
      {
        var id :| id in rest;
        rest := rest - {id};
        if now > pendingCommands[id].since + requestTimeout {
          calls := calls + [id];
        }
      }
    }

    method EvictCall(call: CallId)
      modifies this
      ensures State() == EvictOne(old(State()), call)
    {
      if call in pendingCommands {
        var request := pendingCommands[call].request;
        pendingCommands := pendingCommands - {call};
        match request {
          case Navigate(id) =>
            if id in navigations {
              var nav := navigations[id];
              navigations := navigations - {id};
              Send(nav.tx, TimedOut);
            }
          case InternalCommand(_) =>
          case CreateTarget(tx) => Send(tx, TimedOut);
          case GetTargets(tx) => Send(tx, TimedOut);
          case ExternalCommand(tx) => Send(tx, TimedOut);
          case CloseBrowser(tx) => Send(tx, TimedOut);
        }
      }
    }

    // ---------- Visiting the targets ----------

    /** Visits the registered ids backwards, taking each out and putting it back if its target is still there. Each id is
      * visited once for every time it is registered, and no index is ever out of range. */
    method SweepTargets() returns (visited: seq<TargetId>)
      modifies this`targetIds
      ensures visited == TrackedBackwards(old(targetIds), targets)
      ensures multiset(targetIds) == multiset(visited)
    {
      ghost var start := targetIds;
      visited := [];
      var n := |targetIds|;
      assert start[n..] == [];
      while n > 0
        invariant 0 <= n <= |targetIds| && n <= |start|
        invariant targetIds[..n] == start[..n]
        invariant multiset(targetIds[n..]) == multiset(visited)
        invariant visited == TrackedBackwards(start[n..], targets)
      {
        n := n - 1;
        ghost var before := targetIds;
        var id := targetIds[n];
        SamePrefix(before, start, n);
        targetIds := SwapRemove(targetIds, n);
        TrackedBackwardsStep(start, n, targets);
        if id in targets {
          SweepStep(before, n, [id]);
          targetIds := targetIds + [id];
          visited := visited + [id];
        } else {
          SweepStep(before, n, []);
        }
      }
      assert start[0..] == start && targetIds[0..] == targetIds;
    }
  }

  lemma SamePrefix<T>(s: seq<T>, t: seq<T>, n: nat)
    requires n < |s| && n < |t| && s[..n + 1] == t[..n + 1]
    ensures s[n] == t[n] && s[..n] == t[..n]
  {
    assert s[n] == s[..n + 1][n];
    assert s[..n] == s[..n + 1][..n];
  }

  /** The tracked ids of the list, last one first. */
  function TrackedBackwards(ids: seq<TargetId>, targets: map<TargetId, Option<Ticket>>): seq<TargetId> {
    if ids == [] then []
    else TrackedBackwards(ids[1..], targets) + if ids[0] in targets then [ids[0]] else []
  }

  lemma TrackedBackwardsStep(ids: seq<TargetId>, n: nat, targets: map<TargetId, Option<Ticket>>)
    requires n < |ids|
    ensures TrackedBackwards(ids[n..], targets) ==
            TrackedBackwards(ids[n + 1..], targets) + if ids[n] in targets then [ids[n]] else []
  {
    assert ids[n..][1..] == ids[n + 1..];
  }
}
