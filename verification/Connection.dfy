/** Sending commands over the socket (src/conn.rs:22-128). What the sink answers is up to the environment. */
module ConnectionSpec {
  import opened Options
  import opened Identifiers

  datatype MethodCall = MethodCall(id: nat, body: string)

  /** A command handed to the sink, which may refuse it. */
  datatype Attempt = Attempt(call: MethodCall, accepted: bool)

  datatype Connection = Connection(
    pending: seq<MethodCall>,
    nextId: nat,
    needsFlush: bool,
    pendingFlush: Option<MethodCall>,
    attempts: seq<Attempt>,
    flushed: nat)

  const NEW_CONNECTION := Connection([], 0, false, None, [], 0)

  function Submit(s: Connection, body: string): Connection {
    s.(pending := s.pending + [MethodCall(s.nextId, body)], nextId := Wrap(s.nextId))
  }

  /** Flushes what was written last, if need be, and hands the next command to the sink unless one is in flight. */
  function StartSendNext(s: Connection, flushReady: bool, accepts: bool): Connection {
    var s1 := if s.needsFlush && flushReady then s.(needsFlush := false, flushed := Written(s)) else s;
    if s1.pendingFlush.None? && !s1.needsFlush && s1.pending != [] then
      var call := s1.pending[0];
      s1.(pending := s1.pending[1..], attempts := s1.attempts + [Attempt(call, accepts)],
          pendingFlush := if accepts then Some(call) else None)
    else s1
  }

  /** A command in flight is done once the sink is ready again. Then it has to be flushed. */
  function FinishSend(s: Connection, ready: bool): Connection {
    if s.pendingFlush.Some? && ready then s.(pendingFlush := None, needsFlush := true) else s
  }

  /** The number of commands the sink accepted. */
  function Written(s: Connection): nat {
    |AcceptedCalls(s.attempts)|
  }

  function AcceptedCalls(attempts: seq<Attempt>): seq<MethodCall> {
    if attempts == [] then []
    else AcceptedCalls(attempts[..|attempts| - 1]) +
         if attempts[|attempts| - 1].accepted then [attempts[|attempts| - 1].call] else []
  }

  function AttemptedCalls(attempts: seq<Attempt>): seq<MethodCall> {
    seq(|attempts|, i requires 0 <= i < |attempts| => attempts[i].call)
  }

  // ---------- Runs ----------

  datatype Event = Submitted(body: string) | SendStarted(flushReady: bool, accepts: bool) | SendFinished(ready: bool)

  function Step(s: Connection, e: Event): Connection {
    match e
    case Submitted(body) => Submit(s, body)
    case SendStarted(flushReady, accepts) => StartSendNext(s, flushReady, accepts)
    case SendFinished(ready) => FinishSend(s, ready)
  }

  function Run(trace: seq<Event>): Connection {
    if trace == [] then NEW_CONNECTION else Step(Run(trace[..|trace| - 1]), trace[|trace| - 1])
  }

  /** All commands ever submitted, with the ids they were given. */
  function SubmittedCalls(trace: seq<Event>): seq<MethodCall> {
    if trace == [] then []
    else SubmittedCalls(trace[..|trace| - 1]) +
         if trace[|trace| - 1].Submitted?
         then [MethodCall(Run(trace[..|trace| - 1]).nextId, trace[|trace| - 1].body)] else []
  }

  /** In every run: commands are handed to the sink in the order of submission, each once, and what was not handed over
    * yet is still queued. Ids count up from zero, wrapping at the width of a machine word. */
  lemma {:induction false} CommandsGoOutInOrder(trace: seq<Event>)
    ensures AttemptedCalls(Run(trace).attempts) + Run(trace).pending == SubmittedCalls(trace)
    ensures Run(trace).nextId == |SubmittedCalls(trace)| % USIZE
    ensures forall i | 0 <= i < |SubmittedCalls(trace)| :: SubmittedCalls(trace)[i].id == i % USIZE
  {
    if trace != [] {
      var before, e := trace[..|trace| - 1], trace[|trace| - 1];
      CommandsGoOutInOrder(before);
      StepKeepsOrder(Run(before), e);
      if e.Submitted? {
        WrapCounts(|SubmittedCalls(before)|);
      }
      hide Step, AttemptedCalls, Wrap;
    }
  }

  /** A step hands the oldest queued command to the sink, or queues a new one last. */
  lemma StepKeepsOrder(s: Connection, e: Event)
    ensures var s' := Step(s, e);
            && AttemptedCalls(s'.attempts) + s'.pending ==
                 AttemptedCalls(s.attempts) + s.pending + (if e.Submitted? then [MethodCall(s.nextId, e.body)] else [])
            && s'.nextId == if e.Submitted? then Wrap(s.nextId) else s.nextId
  {
    hide Wrap, AcceptedCalls;
    var s' := Step(s, e);
    if s'.attempts != s.attempts {
      assert AttemptedCalls(s'.attempts) == AttemptedCalls(s.attempts) + [s.pending[0]];
      assert s.pending == [s.pending[0]] + s.pending[1..];
    }
  }

  lemma IdsAreDistinct(trace: seq<Event>, i: nat, j: nat)
    requires i < j < |SubmittedCalls(trace)| <= USIZE
    ensures SubmittedCalls(trace)[i].id != SubmittedCalls(trace)[j].id
  {
    CommandsGoOutInOrder(trace);
  }

  lemma {:induction false} AcceptedExactlyWhen(attempts: seq<Attempt>)
    ensures |AcceptedCalls(attempts)| <= |attempts|
    ensures AcceptedCalls(attempts) == AttemptedCalls(attempts) <==> forall i | 0 <= i < |attempts| :: attempts[i].accepted
    ensures |AcceptedCalls(attempts)| == |attempts| <==> forall i | 0 <= i < |attempts| :: attempts[i].accepted
  {
    if attempts != [] {
      var shorter := attempts[..|attempts| - 1];
      AcceptedExactlyWhen(shorter);
      assert AttemptedCalls(attempts) == AttemptedCalls(shorter) + [attempts[|attempts| - 1].call];
      assert forall i | 0 <= i < |shorter| :: shorter[i] == attempts[i];
      assert (forall i | 0 <= i < |attempts| :: attempts[i].accepted) <==>
             (forall i | 0 <= i < |shorter| :: shorter[i].accepted) && attempts[|attempts| - 1].accepted;
    }
  }

  /** What the sink accepted, followed by what is queued, is everything submitted exactly when the sink refused nothing. */
  lemma NothingIsLostExactlyWhen(trace: seq<Event>)
    ensures AcceptedCalls(Run(trace).attempts) + Run(trace).pending == SubmittedCalls(trace) <==>
            forall i | 0 <= i < |Run(trace).attempts| :: Run(trace).attempts[i].accepted
  {
    var s := Run(trace);
    CommandsGoOutInOrder(trace);
    AcceptedExactlyWhen(s.attempts);
    assert |AttemptedCalls(s.attempts)| == |s.attempts|;
    assert AcceptedCalls(s.attempts) + s.pending == AttemptedCalls(s.attempts) + s.pending ==>
      |AcceptedCalls(s.attempts)| == |s.attempts|;
  }

  // ---------- The wire, from the events alone ----------

  /** Nothing is on its way, or one command is not yet taken by the socket, or what was taken waits to be flushed. */
  datatype Wire = Idle | InFlight(call: MethodCall) | Unflushed

  /** The wire, what the sink was given so far and what it said, and how many commands were flushed. */
  datatype Progress = Progress(wire: Wire, given: seq<Attempt>, flushes: nat)

  /** A flush happens only when the socket is ready for it. A command is given to the sink when nothing is on its way. */
  function ProgressOf(trace: seq<Event>): Progress {
    if trace == [] then Progress(Idle, [], 0)
    else
      var before := trace[..|trace| - 1];
      var p := ProgressOf(before);
      match trace[|trace| - 1]
      case Submitted(_) => p
      case SendFinished(ready) => if p.wire.InFlight? && ready then p.(wire := Unflushed) else p
      case SendStarted(flushReady, accepts) =>
        var q := if p.wire.Unflushed? && flushReady then p.(wire := Idle, flushes := p.flushes + 1) else p;
        var calls := SubmittedCalls(before);
        if !q.wire.Idle? || |q.given| >= |calls| then q
        else
          var call := calls[|q.given|];
          q.(wire := if accepts then InFlight(call) else Idle, given := q.given + [Attempt(call, accepts)])
  }

  predicate OnWire(s: Connection, p: Progress) {
    && s.attempts == p.given && s.flushed == p.flushes
    && s.needsFlush == p.wire.Unflushed?
    && s.pendingFlush == if p.wire.InFlight? then Some(p.wire.call) else None
  }

  /** In every run the connection is as far as its events alone say. */
  lemma {:induction false} ProgressInEveryRun(trace: seq<Event>)
    ensures OnWire(Run(trace), ProgressOf(trace))
  {
    if trace != [] {
      var before, e := trace[..|trace| - 1], trace[|trace| - 1];
      ProgressInEveryRun(before);
      CommandsGoOutInOrder(before);
      OneUnflushedInEveryRun(before);
      NextIsFirst(Run(before), SubmittedCalls(before));
      hide AcceptedCalls, AttemptedCalls, SubmittedCalls;
    }
  }

  /** The next command submitted is the first one queued. */
  lemma NextIsFirst(s: Connection, calls: seq<MethodCall>)
    requires AttemptedCalls(s.attempts) + s.pending == calls
    ensures |s.attempts| < |calls| <==> s.pending != []
    ensures s.pending != [] ==> calls[|s.attempts|] == s.pending[0]
  {
    assert |AttemptedCalls(s.attempts)| == |s.attempts|;
  }

  /** A command that the sink refuses is gone: it was not accepted, and it is not queued any more. */
  lemma RefusedCommandIsLost(body: string, flushReady: bool)
    ensures var trace := [Submitted(body)] + [SendStarted(flushReady, false)];
            && SubmittedCalls(trace) == [MethodCall(0, body)]
            && AcceptedCalls(Run(trace).attempts) == [] && Run(trace).pending == []
  {
    var submitted, started := Submitted(body), SendStarted(flushReady, false);
    var call := MethodCall(0, body);
    assert ([submitted] + [started])[..1] == [submitted] && [submitted][..0] == [];
    assert Run([]) == NEW_CONNECTION;
    var s := Run([submitted]);
    assert s == Submit(NEW_CONNECTION, body) && s.pending == [call] && s.attempts == [];
    var t := Run([submitted] + [started]);
    assert t.pending == [] && t.attempts == [Attempt(call, false)];
    assert t.attempts[..0] == [];
    assert SubmittedCalls([submitted]) == [call] && SubmittedCalls([submitted] + [started]) == [call];
  }

  /** The last command is in flight, or waits for its flush, or everything written was flushed. */
  predicate OneUnflushed(s: Connection) {
    && !(s.pendingFlush.Some? && s.needsFlush)
    && Written(s) == s.flushed + (if s.pendingFlush.Some? || s.needsFlush then 1 else 0)
  }

  lemma {:induction false} OneUnflushedInEveryRun(trace: seq<Event>)
    ensures OneUnflushed(Run(trace))
  {
    if trace != [] {
      var s := Run(trace[..|trace| - 1]);
      OneUnflushedInEveryRun(trace[..|trace| - 1]);
      var s' := Run(trace);
      if s'.attempts != s.attempts {
        assert s'.attempts[..|s'.attempts| - 1] == s.attempts;
      }
    }
  }

  /** No command is written while an earlier one is not flushed. */
  lemma WritesOnlyAfterFlush(trace: seq<Event>, flushReady: bool, accepts: bool)
    ensures var s := Run(trace);
            var s' := StartSendNext(s, flushReady, accepts);
            Written(s') > Written(s) ==> s'.flushed == Written(s)
  {
    OneUnflushedInEveryRun(trace);
    var s := Run(trace);
    var s' := StartSendNext(s, flushReady, accepts);
    if s'.attempts != s.attempts {
      assert s'.attempts[..|s'.attempts| - 1] == s.attempts;
    }
  }
}

module Connections {
  import opened Options
  import opened Identifiers
  import opened ConnectionSpec

  class Connection {
    var pendingCommands: seq<MethodCall>
    var nextId: nat
    var needsFlush: bool
    var pendingFlush: Option<MethodCall>
    // what was handed to the sink, and how much of it was flushed
    ghost var attempts: seq<Attempt>
    ghost var flushed: nat

    constructor ()
      ensures State() == NEW_CONNECTION
    {
      pendingCommands, nextId, needsFlush, pendingFlush := [], 0, false, None;
      attempts, flushed := [], 0;
    }

    ghost function State(): ConnectionSpec.Connection
      reads this
    {
      ConnectionSpec.Connection(pendingCommands, nextId, needsFlush, pendingFlush, attempts, flushed)
    }

    method NextCallId() returns (id: nat)
      modifies this`nextId
      ensures id == old(nextId) && nextId == Wrap(old(nextId))
    {
      id := nextId;
      nextId := Wrap(nextId);
    }

    method SubmitCommand(body: string) returns (id: nat)
      modifies this
      ensures State() == Submit(old(State()), body) && id == old(nextId)
    {
      id := NextCallId();
      pendingCommands := pendingCommands + [MethodCall(id, body)];
    }

    method StartSendNext(flushReady: bool, accepts: bool) returns (failed: bool)
      modifies this
      ensures State() == ConnectionSpec.StartSendNext(old(State()), flushReady, accepts)
      ensures failed <==> attempts != old(attempts) && !accepts
    {
      if needsFlush {
        if flushReady {
          needsFlush := false;
          flushed := Written(State());
        }
      }
      if pendingFlush.None? && !needsFlush {
        if pendingCommands != [] {
          var call := pendingCommands[0];
          pendingCommands := pendingCommands[1..];
          attempts := attempts + [Attempt(call, accepts)];
          if !accepts {
            return true;
          }
          pendingFlush := Some(call);
        }
      }
      failed := false;
    }

    /** The send loop of a poll. The environment answers each question to the sink as it likes; the loop ends because
      * every further round has taken a command from the queue or out of flight. */
    method SendPending() returns (failed: bool, ghost steps: seq<Event>)
      modifies this
      ensures State() == Replay(old(State()), steps)
      ensures forall i | 0 <= i < |steps| :: !steps[i].Submitted?
    {
      steps := [];
      ReplayNothing(State());
      hide Replay;
      while true
        invariant State() == Replay(old(State()), steps)
        invariant forall i | 0 <= i < |steps| :: !steps[i].Submitted?
        invariant steps != [] ==> pendingFlush.None?
        decreases |pendingCommands| + if pendingFlush.Some? then 1 else 0, steps == []
      {
        var flushReady: bool := *;
        var accepts: bool := *;
        failed := StartSendNext(flushReady, accepts);
        ReplayOneMore(old(State()), steps, SendStarted(flushReady, accepts));
        steps := steps + [SendStarted(flushReady, accepts)];
        if failed {
          return;
        }
        if pendingFlush.None? {
          return;
        }
        var ready: bool := *;
        ReplayOneMore(old(State()), steps, SendFinished(ready));
        steps := steps + [SendFinished(ready)];
        if !ready {
          return;
        }
        pendingFlush := None;
        needsFlush := true;
      }
    }
  }

  function Replay(s: ConnectionSpec.Connection, steps: seq<Event>): ConnectionSpec.Connection {
    if steps == [] then s else Step(Replay(s, steps[..|steps| - 1]), steps[|steps| - 1])
  }

  lemma ReplayNothing(s: ConnectionSpec.Connection)
    ensures Replay(s, []) == s
  {
  }

  lemma ReplayOneMore(s: ConnectionSpec.Connection, steps: seq<Event>, e: Event)
    ensures Replay(s, steps + [e]) == Step(Replay(s, steps), e)
  {
    assert (steps + [e])[..|steps|] == steps;
  }
}
