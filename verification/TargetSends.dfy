/** The commands of the initialisation that the polls of a target give (src/handler/target.rs:288-402, 420-450): those
  * that the program has reached, each for the session of the target. */
module TargetSends {
  import opened Options
  import opened Sequences
  import opened ChainSpec
  import opened TargetSpec
  import F = FrameManagerSpec
  import N = NetworkSpec
  import R = TargetRuns
  import H = TargetHistory

  type Event = TargetSpec.Event

  /** The command of the initialisation that a poll gives, with the session that it is for. */
  ghost function Sends(s: Target, e: Event): seq<(Command, Option<string>)>
    requires F.WellShaped(s.frames)
  {
    match e
    case PollRequested(now, order, msgs, clocks) =>
      (match TargetSpec.Poll(s, now, order, msgs, clocks).event
       case Some(InitRequest(cmd, session)) => [(cmd, session)]
       case _ => [])
    case _ => []
  }

  ghost function SentBy(isPage: bool, config: Config, trace: seq<Event>): seq<(Command, Option<string>)> {
    if trace == [] then []
    else
      var before := Front(trace);
      SentBy(isPage, config, before) +
      if R.Run(isPage, config, before).Alive? then Sends(R.Run(isPage, config, before).target, Last(trace)) else []
  }

  /** The commands that the program has reached, each for the session at the time; attaching is for none. */
  ghost function Reached(isPage: bool, config: Config, trace: seq<Event>): seq<(Command, Option<string>)> {
    if trace == [] then []
    else
      var before := Front(trace);
      Reached(isPage, config, before) +
      With(R.EmittedBy(R.Run(isPage, config, before), Last(trace)), H.SessionIn(before))
  }

  predicate NoInit(events: seq<TargetEvent>) {
    forall i | 0 <= i < |events| :: !events[i].InitRequest?
  }

  lemma {:induction false} PagesQueueNoInit(msgs: seq<PageMessage>)
    ensures NoInit(H.PageCommands(msgs))
  {
    if msgs != [] {
      PagesQueueNoInit(Front(msgs));
    }
  }

  lemma {:induction false} RequestsAreNoInit(queue: seq<N.NetworkEvent>, session: Option<string>)
    ensures NoInit(H.RequestsFor(queue, session))
  {
    if queue != [] {
      RequestsAreNoInit(Front(queue), session);
    }
  }

  lemma QueuesNoInit(s: Target, e: Event)
    requires F.WellShaped(s.frames)
    ensures NoInit(H.Queues(s, e))
  {
    hide F.WellShaped, Advance, H.FrameOutputs, H.FramesAfter, H.Ended, H.NetworkInRound, H.RequestsFor, H.PageCommands;
    if e.PollRequested? {
      H.AdvanceKeeps(s, e.now, e.order);
      if H.HasRound(s, e) {
        var a := Advance(s, e.now, e.order).target;
        PagesQueueNoInit(e.msgs);
        RequestsAreNoInit(H.NetworkInRound(a, e.msgs).queue, a.session);
      }
    }
  }

  lemma {:induction false} NothingInitQueued(isPage: bool, config: Config, trace: seq<Event>)
    ensures NoInit(H.Queued(isPage, config, trace))
  {
    if trace != [] {
      var before := Front(trace);
      NothingInitQueued(isPage, config, before);
      if R.Run(isPage, config, before).Alive? {
        QueuesNoInit(R.Run(isPage, config, before).target, Last(trace));
      }
      hide R.Run, H.Queues, F.WellShaped;
    }
  }

  /** A poll gives the command that the initialisation has reached, or passes on something else. */
  lemma PollSends(s: Target, e: Event)
    requires F.WellShaped(s.frames) && e.PollRequested? && NoInit(H.Passes(s, e))
    ensures var cmds := R.CommandOf(Advance(s, e.now, e.order).move);
            Sends(s, e) ==
              if cmds == [] then [] else [(cmds[0], if Advance(s, e.now, e.order).move.Attach? then None else s.session)]
  {
    hide F.WellShaped, Advance, Drain;
    AdvanceKeepsFrames(s, e.now, e.order);
    if Advance(s, e.now, e.order).move.Proceed? {
      var event := TargetSpec.Poll(s, e.now, e.order, e.msgs, e.clocks).event;
      assert event.Some? ==> H.Passes(s, e)[0] == event.value;
    }
  }

  /** Attaching is no command of a chain. */
  predicate NeverAttaches(cmds: seq<Command>) {
    AttachToTarget !in cmds
  }

  lemma NoChainAttaches(isPage: bool, config: Config, trace: seq<Event>)
    requires R.Run(isPage, config, trace).Alive?
    ensures var s := R.Run(isPage, config, trace).target;
            s.init.HasChain() ==> NeverAttaches(s.init.chain.cmds)
  {
    R.InitialisationFollowsProgram(isPage, config, trace);
    var s, batches := R.Run(isPage, config, trace).target, R.Batches(isPage, config, trace);
    hide R.Run, R.Emitted, R.Batches, R.Turns;
    if s.init.HasChain() {
      var emitted := R.Emitted(isPage, config, trace);
      var upto := R.Upto(s.init, config, batches);
      assert emitted + s.init.chain.cmds == upto;
      hide R.Upto;
      AttachesOnce(s.init, config, batches);
      forall i | 0 <= i < |s.init.chain.cmds|
        ensures s.init.chain.cmds[i] != AttachToTarget
      {
        assert s.init.chain.cmds[i] == upto[|emitted| + i];
        assert |emitted| > 0 by { SomethingEmitted(s, emitted, batches, R.Turns(isPage, config, trace)); }
      }
    }
  }

  lemma SomethingEmitted(s: Target, emitted: seq<Command>, batches: seq<R.Order>, turns: seq<Turn>)
    requires R.OnProgram(s, emitted, batches, turns) && s.init.HasChain()
    ensures |emitted| > 0
  {
  }

  lemma {:induction false} BatchesAttachNothing(batches: seq<R.Order>)
    ensures NeverAttaches(R.BatchCommands(batches))
  {
    if batches != [] {
      BatchesAttachNothing(batches[..|batches| - 1]);
    }
  }

  lemma AttachesOnce(init: TargetInit, config: Config, batches: seq<R.Order>)
    requires init.HasChain()
    ensures forall i | 0 < i < |R.Upto(init, config, batches)| :: R.Upto(init, config, batches)[i] != AttachToTarget
  {
    BatchesAttachNothing(batches);
    hide R.BatchCommands;
  }

  /** No later stage attaches either. */
  lemma {:induction false} AdvanceNeverAttaches(s: Target, now: nat, order: R.Order)
    requires s.init.HasChain() ==> NeverAttaches(s.init.chain.cmds)
    ensures var move := Advance(s, now, order).move; move.Send? ==> move.cmd != AttachToTarget
    decreases Rank(s.init), WorldMissing(s)
  {
    if s.init.HasChain() {
      NextNeverAttaches(s, order);
      R.NextStageDescends(s, order);
      hide NextStage, NeverAttaches, OnInitializationFailed;
      AdvanceNeverAttaches(NextStage(s, order), now, order);
      SentIsFirst(s.init.chain, now);
    }
  }

  lemma SentIsFirst(c: Chain, now: nat)
    requires NeverAttaches(c.cmds)
    ensures var next := ChainSpec.Poll(c, now).next; next.Issue? ==> next.cmd != AttachToTarget
  {
  }

  lemma NextNeverAttaches(s: Target, order: R.Order)
    requires s.init.HasChain()
    ensures var init := NextStage(s, order).init; init.HasChain() ==> NeverAttaches(init.chain.cmds)
  {
  }

  /** In every run, the commands that polls give for the initialisation are those that the program has reached, in its
    * order and one a poll. Attaching belongs to no session, and each other command to the session given last. */
  lemma {:induction false} SentInEveryRun(isPage: bool, config: Config, trace: seq<Event>)
    ensures SentBy(isPage, config, trace) == Reached(isPage, config, trace)
    ensures Commands(Reached(isPage, config, trace)) == R.Emitted(isPage, config, trace)
  {
    if trace != [] {
      var before, e := Front(trace), Last(trace);
      SentInEveryRun(isPage, config, before);
      if R.Run(isPage, config, before).Alive? && e.PollRequested? {
        SentNow(isPage, config, trace);
      }
      CommandsOnce(Reached(isPage, config, before), R.EmittedBy(R.Run(isPage, config, before), e), H.SessionIn(before));
    }
  }

  function Commands(sent: seq<(Command, Option<string>)>): seq<Command> {
    seq(|sent|, i requires 0 <= i < |sent| => sent[i].0)
  }

  lemma CommandsOnce(before: seq<(Command, Option<string>)>, cmds: seq<Command>, session: Option<string>)
    requires |cmds| <= 1
    ensures Commands(before + With(cmds, session)) == Commands(before) + cmds
  {
  }

  /** A command with the session that it is for. */
  function With(cmds: seq<Command>, session: Option<string>): seq<(Command, Option<string>)> {
    if cmds == [] then [] else [(cmds[0], if cmds[0] == AttachToTarget then None else session)]
  }

  lemma SentNow(isPage: bool, config: Config, trace: seq<Event>)
    requires trace != [] && Last(trace).PollRequested? && R.Run(isPage, config, Front(trace)).Alive?
    ensures var s := R.Run(isPage, config, Front(trace)).target;
            Sends(s, Last(trace)) ==
              With(R.EmittedBy(R.Run(isPage, config, Front(trace)), Last(trace)), H.SessionIn(Front(trace)))
  {
    var before, e := Front(trace), Last(trace);
    var s := R.Run(isPage, config, before).target;
    NoInitPassed(isPage, config, trace);
    PollSends(s, e);
    NoChainAttaches(isPage, config, before);
    AdvanceNeverAttaches(s, e.now, e.order);
    H.SessionInEveryRun(isPage, config, before);
    hide R.Run, Advance, Sends, NeverAttaches, F.WellShaped, H.SessionIn;
  }

  lemma NoInitPassed(isPage: bool, config: Config, trace: seq<Event>)
    requires trace != [] && Last(trace).PollRequested? && R.Run(isPage, config, Front(trace)).Alive?
    ensures NoInit(H.Passes(R.Run(isPage, config, Front(trace)).target, Last(trace)))
  {
    var before, e := Front(trace), Last(trace);
    var s := R.Run(isPage, config, before).target;
    assert R.Run(isPage, config, trace).Alive? by { hide TargetSpec.Poll, F.WellShaped; }
    H.FirstInFirstOut(isPage, config, trace);
    NothingInitQueued(isPage, config, trace);
    hide R.Run, H.Passes, H.Queued, F.WellShaped;
    var passes, passed := H.Passes(s, e), H.Passed(isPage, config, before);
    assert H.Passed(isPage, config, trace) == passed + passes;
    forall i | 0 <= i < |passes| ensures !passes[i].InitRequest? {
      assert H.Queued(isPage, config, trace)[|passed| + i] == passes[i];
    }
  }

  /** A command of the current chain is not answered yet, and not late. */
  predicate Awaiting(s: Target, now: nat) {
    s.init.HasChain() && s.init.chain.waiting.Some? && now <= s.init.chain.waiting.value.deadline
  }

  /** A poll gives nothing and changes nothing exactly when the target is no page, was closed, has no session in its first
    * stage with a chain, or waits for an answer. */
  lemma {:induction false} WaitsExactlyWhen(s: Target, now: nat, order: R.Order)
    ensures var a := Advance(s, now, order);
            && (a.move.Wait? <==>
                  !s.isPage || s.init.Closing? || (s.init.InitializingFrame? && s.session.None?) || Awaiting(s, now))
            && (a.move.Wait? ==> a.target == s)
    decreases Rank(s.init), WorldMissing(s)
  {
    if s.init.HasChain() {
      NextGoesOn(s, order);
      R.NextStageDescends(s, order);
      hide NextStage, OnInitializationFailed;
      WaitsExactlyWhen(NextStage(s, order), now, order);
    }
  }

  lemma NextGoesOn(s: Target, order: R.Order)
    requires s.init.HasChain()
    ensures var t := NextStage(s, order);
            && t.isPage == s.isPage && t.session == s.session && !t.init.Closing?
            && (t.init.InitializingFrame? ==> s.init.InitializingFrame?)
            && (t.init.HasChain() ==> t.init.chain.waiting.None?)
  {
  }
}
