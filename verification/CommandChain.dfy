/** Chains of commands that are issued one at a time (src/cmd.rs:93-167). */
module ChainSpec {
  import opened Options
  import opened Http

  /** The commands that initialise a target. */
  datatype Command =
    | AttachToTarget
    | PageEnable
    | GetFrameTree
    | SetLifecycleEventsEnabled
    | RuntimeEnable
    | AddScriptToEvaluateOnNewDocument
    | CreateIsolatedWorld(frame: FrameId)
    | NetworkEnable
    | SetIgnoreCertificateErrors
    | SetAutoAttach
    | PerformanceEnable
    | LogEnable
    | SetDeviceMetricsOverride
    | SetTouchEmulationEnabled
    | CloseTarget
  {
    /** The method name, by which a response is recognised. It does not tell apart two isolated worlds. */
    function Identifier(): string {
      match this
      case AttachToTarget => "Target.attachToTarget"
      case PageEnable => "Page.enable"
      case GetFrameTree => "Page.getFrameTree"
      case SetLifecycleEventsEnabled => "Page.setLifecycleEventsEnabled"
      case RuntimeEnable => "Runtime.enable"
      case AddScriptToEvaluateOnNewDocument => "Page.addScriptToEvaluateOnNewDocument"
      case CreateIsolatedWorld(_) => "Page.createIsolatedWorld"
      case NetworkEnable => "Network.enable"
      case SetIgnoreCertificateErrors => "Security.setIgnoreCertificateErrors"
      case SetAutoAttach => "Target.setAutoAttach"
      case PerformanceEnable => "Performance.enable"
      case LogEnable => "Log.enable"
      case SetDeviceMetricsOverride => "Emulation.setDeviceMetricsOverride"
      case SetTouchEmulationEnabled => "Emulation.setTouchEmulationEnabled"
      case CloseTarget => "Target.closeTarget"
    }
  }

  /** A method name tells the commands apart, except for the worlds of different frames. */
  lemma IdentifiersTellApart(a: Command, b: Command)
    requires a.Identifier() == b.Identifier()
    ensures a == b || (a.CreateIsolatedWorld? && b.CreateIsolatedWorld?)
  {
  }

  /** The name of the last command issued, which is to be answered until `deadline`. */
  datatype Waiting = Waiting(identifier: string, deadline: nat)

  datatype Chain = Chain(cmds: seq<Command>, waiting: Option<Waiting>, timeout: nat)

  function NewChain(cmds: seq<Command>, timeout: nat): Chain {
    Chain(cmds, None, timeout)
  }

  datatype NextCommand = Pending | Issue(cmd: Command) | Exceeded(now: nat, deadline: nat) | Exhausted

  datatype Polled = Polled(chain: Chain, next: NextCommand)

  function PushBack(c: Chain, cmd: Command): Chain {
    c.(cmds := c.cmds + [cmd])
  }

  predicate Answers(c: Chain, identifier: string) {
    c.waiting.Some? && c.waiting.value.identifier == identifier
  }

  function ReceivedResponse(c: Chain, identifier: string): Chain {
    if Answers(c, identifier) then c.(waiting := None) else c
  }

  function Poll(c: Chain, now: nat): Polled {
    match c.waiting
    case Some(Waiting(_, deadline)) =>
      if now > deadline then Polled(c, Exceeded(now, deadline)) else Polled(c, Pending)
    case None =>
      if c.cmds == [] then Polled(c, Exhausted)
      else
        var next := c.cmds[0];
        Polled(c.(cmds := c.cmds[1..], waiting := Some(Waiting(next.Identifier(), now + c.timeout))), Issue(next))
  }

  // ---------- Taking turns ----------

  datatype Turn = Issued(cmd: Command, at: nat) | Answered(identifier: string)

  /** Commands and the responses to them alternate, each response to the command right before it. */
  predicate InTurn(log: seq<Turn>) {
    forall i | 0 <= i < |log| :: Fits(log[..i], log[i])
  }

  /** What may come next: a command if all before were answered, else the response to the last one. */
  predicate Fits(log: seq<Turn>, turn: Turn) {
    if |log| % 2 == 0 then turn.Issued?
    else log[|log| - 1].Issued? && turn == Answered(log[|log| - 1].cmd.Identifier())
  }

  function IssuedIn(log: seq<Turn>): seq<Command> {
    if log == [] then []
    else IssuedIn(log[..|log| - 1]) + if log[|log| - 1].Issued? then [log[|log| - 1].cmd] else []
  }

  /** What the log says of the chain: it waits exactly when the last command was not answered yet. */
  predicate Awaits(c: Chain, log: seq<Turn>) {
    && InTurn(log)
    && match c.waiting
       case None => |log| % 2 == 0
       case Some(w) =>
         && |log| % 2 == 1 && log[|log| - 1].Issued?
         && log[|log| - 1].cmd.Identifier() == w.identifier && w.deadline == log[|log| - 1].at + c.timeout
  }

  datatype Event = PushedBack(cmd: Command) | ResponseReceived(identifier: string) | PollRequested(now: nat)

  function Step(c: Chain, e: Event): Chain {
    match e
    case PushedBack(cmd) => PushBack(c, cmd)
    case ResponseReceived(identifier) => ReceivedResponse(c, identifier)
    case PollRequested(now) => Poll(c, now).chain
  }

  function Logs(c: Chain, e: Event): seq<Turn> {
    match e
    case PushedBack(_) => []
    case ResponseReceived(identifier) => if Answers(c, identifier) then [Answered(identifier)] else []
    case PollRequested(now) => if Poll(c, now).next.Issue? then [Issued(Poll(c, now).next.cmd, now)] else []
  }

  function Run(c: Chain, trace: seq<Event>): Chain {
    if trace == [] then c else Step(Run(c, trace[..|trace| - 1]), trace[|trace| - 1])
  }

  function Log(c: Chain, trace: seq<Event>): seq<Turn> {
    if trace == [] then []
    else Log(c, trace[..|trace| - 1]) + Logs(Run(c, trace[..|trace| - 1]), trace[|trace| - 1])
  }

  function Pushed(trace: seq<Event>): seq<Command> {
    if trace == [] then []
    else Pushed(trace[..|trace| - 1]) + if trace[|trace| - 1].PushedBack? then [trace[|trace| - 1].cmd] else []
  }

  lemma IssuedOneMore(log: seq<Turn>, turn: Turn)
    ensures IssuedIn(log + [turn]) == IssuedIn(log) + if turn.Issued? then [turn.cmd] else []
  {
    assert (log + [turn])[..|log|] == log;
  }

  lemma TurnOneMore(log: seq<Turn>, turn: Turn)
    requires InTurn(log) && Fits(log, turn)
    ensures InTurn(log + [turn])
  {
    hide Fits;
    var longer := log + [turn];
    forall i | 0 <= i < |longer|
      ensures Fits(longer[..i], longer[i])
    {
      if i < |log| {
        assert longer[..i] == log[..i] && longer[i] == log[i];
      } else {
        assert longer[..i] == log && longer[i] == turn;
      }
    }
  }

  /** One step of the chain keeps the log in turn. */
  lemma StepAwaits(c: Chain, e: Event, log: seq<Turn>)
    requires Awaits(c, log)
    ensures Awaits(Step(c, e), log + Logs(c, e))
    ensures IssuedIn(log + Logs(c, e)) + Step(c, e).cmds ==
            IssuedIn(log) + c.cmds + if e.PushedBack? then [e.cmd] else []
    ensures Step(c, e).timeout == c.timeout
  {
    hide InTurn, IssuedIn, Command.Identifier;
    if Logs(c, e) == [] {
      assert log + [] == log;
      if e.PushedBack? {
        assert IssuedIn(log) + (c.cmds + [e.cmd]) == IssuedIn(log) + c.cmds + [e.cmd];
      } else {
        assert IssuedIn(log) + c.cmds + [] == IssuedIn(log) + c.cmds;
      }
    } else {
      var turn := Logs(c, e)[0];
      assert Logs(c, e) == [turn] && !e.PushedBack?;
      TurnOneMore(log, turn);
      IssuedOneMore(log, turn);
      if turn.Issued? {
        assert [c.cmds[0]] + c.cmds[1..] == c.cmds;
        assert IssuedIn(log) + [c.cmds[0]] + c.cmds[1..] == IssuedIn(log) + ([c.cmds[0]] + c.cmds[1..]);
      }
      assert IssuedIn(log) + c.cmds + [] == IssuedIn(log) + c.cmds;
    }
  }

  /** In every run of a chain, a command is issued only after the one before it was answered by its own name, and the
    * commands issued, followed by those left, are those it was given, in order. */
  lemma {:induction false} CommandsTakeTurns(cmds: seq<Command>, timeout: nat, trace: seq<Event>)
    ensures var c0 := NewChain(cmds, timeout);
            && Awaits(Run(c0, trace), Log(c0, trace))
            && IssuedIn(Log(c0, trace)) + Run(c0, trace).cmds == cmds + Pushed(trace)
            && Run(c0, trace).timeout == timeout
  {
    var c0 := NewChain(cmds, timeout);
    if trace == [] {
      assert cmds + [] == cmds == [] + cmds;
    } else {
      hide Step, Logs, Awaits, IssuedIn;
      var before, e := trace[..|trace| - 1], trace[|trace| - 1];
      CommandsTakeTurns(cmds, timeout, before);
      StepAwaits(Run(c0, before), e, Log(c0, before));
      assert Pushed(trace) == Pushed(before) + if e.PushedBack? then [e.cmd] else [];
      assert cmds + Pushed(before) + (if e.PushedBack? then [e.cmd] else []) == cmds + Pushed(trace);
    }
  }

  /** A poll tells that the chain is done exactly when all its commands were issued and answered, and fails exactly when
    * the last one was issued more than the timeout ago and is still not answered. */
  lemma PollTells(cmds: seq<Command>, timeout: nat, trace: seq<Event>, now: nat)
    ensures var c0 := NewChain(cmds, timeout);
            var log, next := Log(c0, trace), Poll(Run(c0, trace), now).next;
            && (next.Exhausted? <==> IssuedIn(log) == cmds + Pushed(trace) && |log| % 2 == 0)
            && (next.Exceeded? <==> |log| % 2 == 1 && log[|log| - 1].Issued? && now > log[|log| - 1].at + timeout)
  {
    var c0 := NewChain(cmds, timeout);
    CommandsTakeTurns(cmds, timeout, trace);
    var log, c := Log(c0, trace), Run(c0, trace);
    assert IssuedIn(log) == cmds + Pushed(trace) <==> c.cmds == [] by {
      assert c.cmds == [] ==> IssuedIn(log) + c.cmds == IssuedIn(log);
      assert |IssuedIn(log) + c.cmds| == |IssuedIn(log)| + |c.cmds|;
    }
  }
}

module CommandChains {
  import opened Options
  import opened ChainSpec

  class CommandChain {
    var cmds: seq<Command>
    var waiting: Option<Waiting>
    const timeout: nat

    constructor (cmds: seq<Command>, timeout: nat)
      ensures State() == NewChain(cmds, timeout)
    {
      this.cmds, this.waiting, this.timeout := cmds, None, timeout;
    }

    function State(): Chain
      reads this
    {
      Chain(cmds, waiting, timeout)
    }

    method PushBack(cmd: Command)
      modifies this
      ensures State() == ChainSpec.PushBack(old(State()), cmd)
    {
      cmds := cmds + [cmd];
    }

    method ReceivedResponse(identifier: string) returns (matched: bool)
      modifies this
      ensures State() == ChainSpec.ReceivedResponse(old(State()), identifier)
      ensures matched <==> Answers(old(State()), identifier)
    {
      if waiting.Some? && waiting.value.identifier == identifier {
        waiting := None;
        return true;
      }
      matched := false;
    }

    method Poll(now: nat) returns (next: NextCommand)
      modifies this
      ensures Polled(State(), next) == ChainSpec.Poll(old(State()), now)
    {
      if waiting.Some? {
        var deadline := waiting.value.deadline;
        if now > deadline {
          return Exceeded(now, deadline);
        }
        return Pending;
      }
      if cmds == [] {
        return Exhausted;
      }
      var cmd := cmds[0];
      cmds := cmds[1..];
      waiting := Some(Waiting(cmd.Identifier(), now + timeout));
      next := Issue(cmd);
    }
  }
}
