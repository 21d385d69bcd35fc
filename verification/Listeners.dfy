/** Event subscriptions (src/listeners.rs:16-164). What a channel answers is up to the environment. */
module ListenersSpec {
  import opened Options
  import opened Sweep

  type MethodId = nat
  type Event = nat
  type Json = nat
  type Converter = Json -> Option<Event>

  datatype EventKind = BuiltIn | Custom(convert: Converter)

  /** `number` tells registrations apart; `delivered` and `rejected` log what became of the events taken from the queue. */
  datatype EventListener = EventListener(
    number: nat,
    kind: EventKind,
    queued: seq<Event>,
    delivered: seq<Event>,
    rejected: nat)

  datatype SendError = Disconnected | Full

  /** What a channel says in one round of a poll: a ready one may still refuse the event. */
  datatype Answer = Ready(refusal: Option<SendError>) | NotReady | Broken(err: SendError)

  datatype PollResult = Pending | Done | Failed(err: SendError)

  datatype Polled = Polled(sub: EventListener, result: PollResult)

  type Channel = nat -> Answer

  datatype Listeners = Listeners(subs: map<MethodId, seq<EventListener>>, registered: nat)

  const NO_LISTENERS := Listeners(map[], 0)

  // ---------- One subscription ----------

  function StartSend(sub: EventListener, event: Event): EventListener {
    sub.(queued := sub.queued + [event])
  }

  /** Hands over queued events from round `k` on, until the queue is empty or the channel stops taking them. */
  function Drain(sub: EventListener, channel: Channel, k: nat): Polled
    decreases |sub.queued|
  {
    match channel(k)
    case NotReady => Polled(sub, Pending)
    case Broken(err) => Polled(sub, Failed(err))
    case Ready(refusal) =>
      if |sub.queued| == 0 then Polled(sub, Done)
      else if refusal.Some? then
        Polled(sub.(queued := sub.queued[1..], rejected := sub.rejected + 1), Failed(refusal.value))
      else
        Drain(sub.(queued := sub.queued[1..], delivered := sub.delivered + [sub.queued[0]]), channel, k + 1)
  }

  predicate Kept(p: Polled) {
    p.result != Failed(Disconnected)
  }

  /** Draining hands over a prefix of the queue in order, and loses an event only by a refusal: the only event lost is
    * the one refused, and success means an empty queue. */
  lemma {:induction false} DrainKeepsOrder(sub: EventListener, channel: Channel, k: nat)
    ensures var p := Drain(sub, channel, k);
            && p.sub.number == sub.number && p.sub.kind == sub.kind
            && sub.rejected <= p.sub.rejected <= sub.rejected + 1
            && (p.sub.rejected == sub.rejected ==> p.sub.delivered + p.sub.queued == sub.delivered + sub.queued)
            && (p.sub.rejected > sub.rejected ==>
                  && p.result.Failed?
                  && exists e :: p.sub.delivered + [e] + p.sub.queued == sub.delivered + sub.queued)
            && (p.result.Done? ==> p.sub.queued == [] && p.sub.delivered == sub.delivered + sub.queued)
    decreases |sub.queued|
  {
    if channel(k).Ready? && sub.queued != [] {
      var e, rest := sub.queued[0], sub.queued[1..];
      assert sub.queued == [e] + rest;
      if channel(k).refusal.Some? {
        assert sub.delivered + [e] + rest == sub.delivered + sub.queued;
      } else {
        DrainKeepsOrder(sub.(queued := rest, delivered := sub.delivered + [e]), channel, k + 1);
        assert sub.delivered + [e] + rest == sub.delivered + sub.queued;
      }
    } else {
      assert sub.delivered + [] == sub.delivered;
    }
  }

  /** An unbounded channel refuses an event only because its receiver is gone. */
  ghost predicate Unbounded(channel: Channel) {
    forall k: nat :: channel(k).Ready? && channel(k).refusal.Some? ==> channel(k).refusal.value.Disconnected?
  }

  lemma {:induction false} UnboundedNeverRejects(sub: EventListener, channel: Channel, k: nat)
    requires Unbounded(channel) && Kept(Drain(sub, channel, k))
    ensures Drain(sub, channel, k).sub.rejected == sub.rejected
    decreases |sub.queued|
  {
    if channel(k).Ready? && sub.queued != [] && channel(k).refusal.None? {
      UnboundedNeverRejects(
        sub.(queued := sub.queued[1..], delivered := sub.delivered + [sub.queued[0]]), channel, k + 1);
    }
  }

  // ---------- All subscriptions ----------

  function AddListener(s: Listeners, methodId: MethodId, kind: EventKind): Listeners {
    var subs := if methodId in s.subs then s.subs[methodId] else [];
    Listeners(s.subs[methodId := subs + [EventListener(s.registered, kind, [], [], 0)]], s.registered + 1)
  }

  function SendToAll(subs: seq<EventListener>, event: Event): (r: seq<EventListener>)
    ensures |r| == |subs|
  {
    seq(|subs|, i requires 0 <= i < |subs| => StartSend(subs[i], event))
  }

  function SendToCustom(subs: seq<EventListener>, event: Event): (r: seq<EventListener>)
    ensures |r| == |subs|
  {
    seq(|subs|, i requires 0 <= i < |subs| => if subs[i].kind.Custom? then StartSend(subs[i], event) else subs[i])
  }

  function Dispatch(s: Listeners, methodId: MethodId, event: Event): Listeners {
    if methodId in s.subs then s.(subs := s.subs[methodId := SendToAll(s.subs[methodId], event)]) else s
  }

  /** The converter of the first custom subscription, if there is one. */
  function FirstConverter(subs: seq<EventListener>): (c: Option<Converter>)
    ensures c.None? <==> forall i | 0 <= i < |subs| :: subs[i].kind.BuiltIn?
  {
    if |subs| == 0 then None
    else if subs[0].kind.Custom? then Some(subs[0].kind.convert)
    else FirstConverter(subs[1..])
  }

  /** It is that of the first custom subscription. */
  lemma {:induction false} FirstConverterIsFirst(subs: seq<EventListener>, i: nat)
    requires i < |subs| && subs[i].kind.Custom? && forall j | 0 <= j < i :: subs[j].kind.BuiltIn?
    ensures FirstConverter(subs) == Some(subs[i].kind.convert)
  {
    if i > 0 {
      FirstConverterIsFirst(subs[1..], i - 1);
    }
  }

  /** The event a custom value becomes: it is converted once, for all. */
  function Converted(s: Listeners, methodId: MethodId, val: Json): Option<Event> {
    if methodId !in s.subs then None
    else match FirstConverter(s.subs[methodId]) case None => None case Some(convert) => convert(val)
  }

  /** A value becomes what the converter of the first custom subscription of its method makes of it, if anything. */
  lemma ConvertedExactlyWhen(s: Listeners, methodId: MethodId, val: Json, event: Event)
    ensures Converted(s, methodId, val) == Some(event) <==>
              && methodId in s.subs
              && var subs := s.subs[methodId];
                 exists i | 0 <= i < |subs| && subs[i].kind.Custom? ::
                   (forall j | 0 <= j < i :: subs[j].kind.BuiltIn?) && subs[i].kind.convert(val) == Some(event)
  {
    if methodId in s.subs {
      var subs := s.subs[methodId];
      if FirstConverter(subs).Some? {
        var i := FirstCustom(subs);
        FirstConverterIsFirst(subs, i);
      }
      forall i | 0 <= i < |subs| && subs[i].kind.Custom? && forall j | 0 <= j < i :: subs[j].kind.BuiltIn?
        ensures FirstConverter(subs) == Some(subs[i].kind.convert)
      {
        FirstConverterIsFirst(subs, i);
      }
    }
  }

  lemma {:induction false} FirstCustom(subs: seq<EventListener>) returns (i: nat)
    requires FirstConverter(subs).Some?
    ensures i < |subs| && subs[i].kind.Custom? && forall j | 0 <= j < i :: subs[j].kind.BuiltIn?
  {
    if subs[0].kind.Custom? {
      i := 0;
    } else {
      var k := FirstCustom(subs[1..]);
      i := k + 1;
      assert forall j | 0 < j < i :: subs[j] == subs[1..][j - 1];
    }
  }

  function DispatchCustom(s: Listeners, methodId: MethodId, val: Json): Listeners {
    match Converted(s, methodId, val)
    case None => s
    case Some(event) => s.(subs := s.subs[methodId := SendToCustom(s.subs[methodId], event)])
  }

  /** What a poll leaves behind of a subscription: nothing, if its receiver is gone. */
  function Remains(sub: EventListener, channels: nat -> Channel): (r: seq<EventListener>) {
    var p := Drain(sub, channels(sub.number), 0);
    if Kept(p) then [p.sub] else []
  }

  function Swept(subs: seq<EventListener>, channels: nat -> Channel): seq<EventListener> {
    SweepDown(subs, |subs|, sub => Remains(sub, channels))
  }

  function Poll(s: Listeners, channels: nat -> Channel): Listeners {
    s.(subs := map m | m in s.subs :: Swept(s.subs[m], channels))
  }

  lemma {:induction false} LeftBehindMember(s: seq<EventListener>, channels: nat -> Channel, x: EventListener)
    ensures x in LeftBehind(s, sub => Remains(sub, channels)) <==> exists i | 0 <= i < |s| :: x in Remains(s[i], channels)
  {
    if s != [] {
      LeftBehindMember(s[1..], channels, x);
      assert forall i | 0 <= i < |s[1..]| :: s[1..][i] == s[i + 1];
      if i :| 0 <= i < |s| && x in Remains(s[i], channels) {
        assert i > 0 ==> s[1..][i - 1] == s[i];
      }
    }
  }

  /** A poll visits every subscription once. It keeps exactly those whose receivers are not gone, each with its queue
    * drained as far as its own channel allowed. */
  lemma PollKeepsExactly(s: Listeners, channels: nat -> Channel, m: MethodId)
    requires m in s.subs
    ensures multiset(Poll(s, channels).subs[m]) == multiset(LeftBehind(s.subs[m], sub => Remains(sub, channels)))
    ensures forall x :: x in Poll(s, channels).subs[m] <==>
              exists i | 0 <= i < |s.subs[m]| ::
                x == Drain(s.subs[m][i], channels(s.subs[m][i].number), 0).sub &&
                Kept(Drain(s.subs[m][i], channels(s.subs[m][i].number), 0))
  {
    hide Drain, Kept, SweepDown, LeftBehind;
    var subs := s.subs[m];
    var back := sub => Remains(sub, channels);
    SweepVisitsEachOnce(subs, |subs|, back);
    assert subs[..|subs|] == subs && subs[|subs|..] == [];
    forall x
      ensures x in Poll(s, channels).subs[m] <==>
              exists i | 0 <= i < |subs| ::
                x == Drain(subs[i], channels(subs[i].number), 0).sub && Kept(Drain(subs[i], channels(subs[i].number), 0))
    {
      LeftBehindMember(subs, channels, x);
      assert x in Poll(s, channels).subs[m] <==> x in multiset(Poll(s, channels).subs[m]);
      assert x in LeftBehind(subs, back) <==> x in multiset(LeftBehind(subs, back));
    }
  }
}

/** Subscriptions over whole runs. */
module ListenerRuns {
  import opened Options
  import opened ListenersSpec
  import opened Sweep

  datatype Happening =
    | Added(methodId: MethodId, kind: EventKind)
    | Dispatched(methodId: MethodId, event: Event)
    | CustomDispatched(methodId: MethodId, val: Json)
    | PolledAll(channels: nat -> Channel)

  function Step(s: Listeners, h: Happening): Listeners {
    match h
    case Added(m, kind) => AddListener(s, m, kind)
    case Dispatched(m, event) => Dispatch(s, m, event)
    case CustomDispatched(m, val) => DispatchCustom(s, m, val)
    case PolledAll(channels) => Poll(s, channels)
  }

  function Run(trace: seq<Happening>): Listeners {
    if |trace| == 0 then NO_LISTENERS else Step(Run(trace[..|trace| - 1]), trace[|trace| - 1])
  }

  /** What was registered in a run, in order. */
  function Requests(trace: seq<Happening>): seq<(MethodId, EventKind)> {
    if |trace| == 0 then []
    else Requests(trace[..|trace| - 1]) +
         match trace[|trace| - 1] case Added(m, kind) => [(m, kind)] case _ => []
  }

  /** The event that concerns registration `r`, if it was made before. */
  function Concerning(requests: seq<(MethodId, EventKind)>, s: Listeners, h: Happening, r: nat): seq<Event> {
    if r >= |requests| then []
    else match h
      case Dispatched(m, event) => if requests[r].0 == m then [event] else []
      case CustomDispatched(m, val) =>
        if requests[r].0 == m && requests[r].1.Custom? && Converted(s, m, val).Some?
        then [Converted(s, m, val).value]
        else []
      case _ => []
  }

  /** All events dispatched to registration `r` since it was made. */
  function Sent(trace: seq<Happening>, r: nat): seq<Event> {
    if |trace| == 0 then []
    else
      var before := trace[..|trace| - 1];
      Sent(before, r) + Concerning(Requests(before), Run(before), trace[|trace| - 1], r)
  }

  /** All of `a` is in `b`, in this order. */
  predicate IsSubsequence(a: seq<Event>, b: seq<Event>)
    decreases |b|
  {
    if |a| == 0 then true
    else if |b| == 0 then false
    else
      var front := b[..|b| - 1];
      || (a[|a| - 1] == b[|b| - 1] && IsSubsequence(a[..|a| - 1], front))
      || IsSubsequence(a, front)
  }

  lemma {:induction false} LessIsSubsequence(a: seq<Event>, e: Event, c: seq<Event>, b: seq<Event>)
    requires IsSubsequence(a + [e] + c, b)
    ensures IsSubsequence(a + c, b)
    decreases |b|, |c|
  {
    var all, front := a + [e] + c, b[..|b| - 1];
    if IsSubsequence(all, front) {
      LessIsSubsequence(a, e, c, front);
    } else if |c| == 0 {
      assert all[..|all| - 1] == a && a + c == a;
    } else {
      var shorter := c[..|c| - 1];
      assert all[..|all| - 1] == a + [e] + shorter;
      LessIsSubsequence(a, e, shorter, front);
      assert (a + c)[..|a + c| - 1] == a + shorter;
    }
  }

  /** The events delivered and those queued, in this order, are events dispatched, in their order; the others were
    * refused. */
  predicate Explained(sub: EventListener, sent: seq<Event>) {
    && IsSubsequence(sub.delivered + sub.queued, sent)
    && |sub.delivered| + |sub.queued| + sub.rejected == |sent|
    && (sub.rejected == 0 <==> sub.delivered + sub.queued == sent)
  }

  ghost predicate AllExplained(trace: seq<Happening>) {
    var s := Run(trace);
    && s.registered == |Requests(trace)|
    && forall m, i | m in s.subs && 0 <= i < |s.subs[m]| ::
         && s.subs[m][i].number < |Requests(trace)|
         && Requests(trace)[s.subs[m][i].number] == (m, s.subs[m][i].kind)
         && Explained(s.subs[m][i], Sent(trace, s.subs[m][i].number))
  }

  lemma {:induction false} NothingSentBefore(trace: seq<Happening>, r: nat)
    requires r >= |Requests(trace)|
    ensures Sent(trace, r) == []
  {
    if |trace| > 0 {
      NothingSentBefore(trace[..|trace| - 1], r);
    }
  }

  lemma OneMoreExplained(sub: EventListener, sent: seq<Event>, e: Event)
    requires Explained(sub, sent)
    ensures Explained(StartSend(sub, e), sent + [e])
  {
    assert sub.delivered + (sub.queued + [e]) == sub.delivered + sub.queued + [e];
    assert (sent + [e])[..|sent|] == sent;
    assert (sub.delivered + sub.queued + [e])[..|sub.delivered + sub.queued|] == sub.delivered + sub.queued;
  }

  lemma DrainedExplained(sub: EventListener, sent: seq<Event>, channel: Channel)
    requires Explained(sub, sent)
    ensures Explained(Drain(sub, channel, 0).sub, sent)
  {
    DrainKeepsOrder(sub, channel, 0);
    var p := Drain(sub, channel, 0).sub;
    if p.rejected > sub.rejected {
      var e :| p.delivered + [e] + p.queued == sub.delivered + sub.queued;
      assert |p.delivered + [e] + p.queued| == |p.delivered| + 1 + |p.queued|;
      LessIsSubsequence(p.delivered, e, p.queued, sent);
      assert |p.delivered + p.queued| < |sent|;
    } else {
      assert |p.delivered| + |p.queued| == |p.delivered + p.queued|;
    }
  }

  lemma NothingToExplain(sub: EventListener)
    requires sub.delivered == [] && sub.queued == [] && sub.rejected == 0
    ensures Explained(sub, [])
  {
  }

  lemma AddedExplained(trace: seq<Happening>, before: seq<Happening>)
    requires |trace| > 0 && before == trace[..|trace| - 1] && trace[|trace| - 1].Added? && AllExplained(before)
    ensures AllExplained(trace)
  {
    hide IsSubsequence;
    var s := Run(before);
    var h := trace[|trace| - 1];
    forall m, i | m in Run(trace).subs && 0 <= i < |Run(trace).subs[m]|
      ensures var sub := Run(trace).subs[m][i];
              && sub.number < |Requests(trace)| && Requests(trace)[sub.number] == (m, sub.kind)
              && Explained(sub, Sent(trace, sub.number))
    {
      var sub := Run(trace).subs[m][i];
      assert Sent(trace, sub.number) == Sent(before, sub.number);
      if m in s.subs && i < |s.subs[m]| {
        assert sub == s.subs[m][i];
      } else {
        NothingSentBefore(before, s.registered);
        NothingToExplain(sub);
      }
    }
  }

  lemma DispatchedExplained(trace: seq<Happening>, before: seq<Happening>)
    requires |trace| > 0 && before == trace[..|trace| - 1] && AllExplained(before)
    requires trace[|trace| - 1].Dispatched? || trace[|trace| - 1].CustomDispatched?
    ensures AllExplained(trace)
  {
    hide Explained, Poll;
    var s := Run(before);
    var h := trace[|trace| - 1];
    forall m, i | m in Run(trace).subs && 0 <= i < |Run(trace).subs[m]|
      ensures var sub := Run(trace).subs[m][i];
              && sub.number < |Requests(trace)| && Requests(trace)[sub.number] == (m, sub.kind)
              && Explained(sub, Sent(trace, sub.number))
    {
      var sub, was := Run(trace).subs[m][i], s.subs[m][i];
      assert sub.number == was.number && sub.kind == was.kind;
      var event := Concerning(Requests(before), s, h, sub.number);
      assert Sent(trace, sub.number) == Sent(before, sub.number) + event;
      if event == [] {
        assert Sent(before, sub.number) + [] == Sent(before, sub.number);
        assert sub == was;
      } else {
        assert sub == StartSend(was, event[0]);
        OneMoreExplained(was, Sent(before, was.number), event[0]);
      }
    }
  }

  lemma PolledExplained(trace: seq<Happening>, before: seq<Happening>)
    requires |trace| > 0 && before == trace[..|trace| - 1] && trace[|trace| - 1].PolledAll? && AllExplained(before)
    ensures AllExplained(trace)
  {
    var s := Run(before);
    var channels := trace[|trace| - 1].channels;
    assert Run(trace) == Poll(s, channels) && Poll(s, channels).subs.Keys == s.subs.Keys;
    assert Requests(trace) == Requests(before) + [] == Requests(before);
    assert Poll(s, channels).registered == s.registered;
    hide Explained, Poll, Run, Requests;
    forall m, i | m in Run(trace).subs && 0 <= i < |Run(trace).subs[m]|
      ensures var sub := Run(trace).subs[m][i];
              && sub.number < |Requests(trace)| && Requests(trace)[sub.number] == (m, sub.kind)
              && Explained(sub, Sent(trace, sub.number))
    {
      var sub := Run(trace).subs[m][i];
      var was := PolledFrom(s, channels, m, sub);
      DrainedExplained(was, Sent(before, was.number), channels(was.number));
      assert Sent(trace, sub.number) == Sent(before, sub.number) + [] == Sent(before, sub.number);
    }
  }

  /** What a poll keeps is a subscription that was there, drained. */
  lemma PolledFrom(s: Listeners, channels: nat -> Channel, m: MethodId, sub: EventListener) returns (was: EventListener)
    requires m in s.subs && sub in Poll(s, channels).subs[m]
    ensures was in s.subs[m] && sub == Drain(was, channels(was.number), 0).sub
    ensures sub.number == was.number && sub.kind == was.kind
  {
    hide Poll, Drain;
    PollKeepsExactly(s, channels, m);
    var j :| 0 <= j < |s.subs[m]| && sub == Drain(s.subs[m][j], channels(s.subs[m][j].number), 0).sub;
    was := s.subs[m][j];
    DrainKeepsOrder(was, channels(was.number), 0);
  }

  /** In every run, every subscription still held accounts for all events dispatched to it since it was made: those
    * delivered followed by those queued are among those dispatched, in their order; the number of the others is that of
    * the refusals, so they are all of those dispatched precisely when none was refused. */
  lemma {:induction false} EveryEventAccountedFor(trace: seq<Happening>)
    ensures AllExplained(trace)
  {
    if |trace| > 0 {
      var before := trace[..|trace| - 1];
      EveryEventAccountedFor(before);
      match trace[|trace| - 1]
      case Added(m, kind) => AddedExplained(trace, before);
      case Dispatched(m, event) => DispatchedExplained(trace, before);
      case CustomDispatched(m, val) => DispatchedExplained(trace, before);
      case PolledAll(channels) => PolledExplained(trace, before);
    }
  }

  /** Every channel polled in the run is unbounded, as those of the program are. */
  ghost predicate AllUnbounded(trace: seq<Happening>) {
    forall i, r: nat | 0 <= i < |trace| && trace[i].PolledAll? :: Unbounded(trace[i].channels(r))
  }

  lemma {:induction false} NothingIsRefused(trace: seq<Happening>, m: MethodId, i: nat)
    requires AllUnbounded(trace) && m in Run(trace).subs && i < |Run(trace).subs[m]|
    ensures Run(trace).subs[m][i].rejected == 0
    decreases |trace|
  {
    if |trace| > 0 {
      var before := trace[..|trace| - 1];
      var s := Run(before);
      assert AllUnbounded(before) by {
        assert forall j | 0 <= j < |before| :: before[j] == trace[j];
      }
      match trace[|trace| - 1]
      case PolledAll(channels) =>
        PollKeepsExactly(s, channels, m);
        assert Run(trace).subs[m][i] in Poll(s, channels).subs[m];
        var j :| 0 <= j < |s.subs[m]| &&
          Run(trace).subs[m][i] == Drain(s.subs[m][j], channels(s.subs[m][j].number), 0).sub &&
          Kept(Drain(s.subs[m][j], channels(s.subs[m][j].number), 0));
        UnboundedNeverRejects(s.subs[m][j], channels(s.subs[m][j].number), 0);
        NothingIsRefused(before, m, j);
      case _ =>
        if m in s.subs && i < |s.subs[m]| {
          NothingIsRefused(before, m, i);
        }
    }
  }

  /** With unbounded channels no event is lost to a subscription that is still held. */
  lemma DeliveredThenQueuedIsSent(trace: seq<Happening>, m: MethodId, i: nat)
    requires AllUnbounded(trace) && m in Run(trace).subs && i < |Run(trace).subs[m]|
    ensures var sub := Run(trace).subs[m][i]; sub.delivered + sub.queued == Sent(trace, sub.number)
  {
    EveryEventAccountedFor(trace);
    NothingIsRefused(trace, m, i);
  }

  // ---------- When a registration is still held ----------

  /** The registration still has a subscription. */
  predicate Held(s: Listeners, r: nat) {
    exists m, i | m in s.subs && 0 <= i < |s.subs[m]| :: s.subs[m][i].number == r
  }

  /** In its round `k + j` the channel says that its receiver is gone, after it took all events offered before: at once, or
    * by refusing one more event. */
  predicate SaysGone(channel: Channel, n: nat, k: nat, j: nat) {
    && (forall i | k <= i < k + j :: channel(i) == Ready(None))
    && (channel(k + j) == Broken(Disconnected) || (j < n && channel(k + j) == Ready(Some(Disconnected))))
  }

  /** While a poll offers `n` events to the channel, the channel says that its receiver is gone. */
  predicate Disconnects(channel: Channel, n: nat, k: nat) {
    exists j: nat | j <= n :: SaysGone(channel, n, k, j)
  }

  lemma GoneOneMore(channel: Channel, n: nat, k: nat)
    requires n > 0 && channel(k) == Ready(None)
    ensures Disconnects(channel, n, k) <==> Disconnects(channel, n - 1, k + 1)
  {
    if j: nat :| j <= n && SaysGone(channel, n, k, j) {
      assert SaysGone(channel, n - 1, k + 1, j - 1);
    }
    var less, next := n - 1, k + 1;
    if j: nat :| j <= less && SaysGone(channel, less, next, j) {
      assert SaysGone(channel, n, k, j + 1);
    }
  }

  lemma GoneAtOnce(channel: Channel, n: nat, k: nat)
    requires n == 0 || channel(k) != Ready(None)
    ensures Disconnects(channel, n, k) <==> SaysGone(channel, n, k, 0)
  {
    if j: nat :| j <= n && SaysGone(channel, n, k, j) {
      assert j > 0 ==> channel(k) == Ready(None);
    }
  }

  /** How many events a poll that offers `n` of them takes from the queue. */
  function TakenFrom(channel: Channel, n: nat, k: nat): (t: nat)
    ensures t <= n
    decreases n
  {
    match channel(k)
    case Ready(refusal) => if n == 0 then 0 else if refusal.Some? then 1 else 1 + TakenFrom(channel, n - 1, k + 1)
    case _ => 0
  }

  lemma {:induction false} DroppedExactlyWhen(sub: EventListener, channel: Channel, k: nat)
    ensures Kept(Drain(sub, channel, k)) <==> !Disconnects(channel, |sub.queued|, k)
    ensures |Drain(sub, channel, k).sub.queued| == |sub.queued| - TakenFrom(channel, |sub.queued|, k)
    decreases |sub.queued|
  {
    if sub.queued != [] && channel(k) == Ready(None) {
      GoneOneMore(channel, |sub.queued|, k);
      DroppedExactlyWhen(sub.(queued := sub.queued[1..], delivered := sub.delivered + [sub.queued[0]]), channel, k + 1);
    } else {
      GoneAtOnce(channel, |sub.queued|, k);
    }
  }

  /** How many events wait for registration `r`, from what was dispatched to it and what its channel took. */
  function Backlog(trace: seq<Happening>, r: nat): nat {
    if |trace| == 0 then 0
    else
      var before, h := trace[..|trace| - 1], trace[|trace| - 1];
      var n := Backlog(before, r);
      if h.PolledAll? then n - TakenFrom(h.channels(r), n, 0) else n + |Concerning(Requests(before), Run(before), h, r)|
  }

  /** The happening is a poll in which the channel of registration `r` says that its receiver is gone. */
  predicate DropsAt(trace: seq<Happening>, i: nat, r: nat)
    requires i < |trace|
  {
    trace[i].PolledAll? && r < |Requests(trace[..i])| && Disconnects(trace[i].channels(r), Backlog(trace[..i], r), 0)
  }

  predicate NeverDropped(trace: seq<Happening>, r: nat) {
    forall i | 0 <= i < |trace| :: !DropsAt(trace, i, r)
  }

  /** Exactly the registrations that were never dropped are held, each with its backlog queued. */
  ghost predicate HoldsRight(trace: seq<Happening>, s: Listeners, r: nat) {
    && (Held(s, r) <==> r < |Requests(trace)| && NeverDropped(trace, r))
    && (r >= |Requests(trace)| ==> Backlog(trace, r) == 0)
    && forall m, i | m in s.subs && 0 <= i < |s.subs[m]| && s.subs[m][i].number == r ::
         |s.subs[m][i].queued| == Backlog(trace, r)
  }

  lemma DroppedOneMore(trace: seq<Happening>, r: nat)
    requires |trace| > 0
    ensures NeverDropped(trace, r) <==>
            NeverDropped(trace[..|trace| - 1], r) && !DropsAt(trace, |trace| - 1, r)
  {
    hide Disconnects, Requests, Backlog;
    var last := |trace| - 1;
    var before := trace[..last];
    forall i | 0 <= i < last
      ensures DropsAt(trace, i, r) <==> DropsAt(before, i, r)
    {
      assert before[..i] == trace[..i] && before[i] == trace[i];
    }
  }

  lemma NothingHeldBefore(trace: seq<Happening>, r: nat)
    requires r >= |Requests(trace)|
    ensures NeverDropped(trace, r)
  {
    forall i | 0 <= i < |trace|
      ensures !DropsAt(trace, i, r)
    {
      RequestsGrow(trace, i);
    }
  }

  lemma {:induction false} RequestsGrow(trace: seq<Happening>, i: nat)
    requires i <= |trace|
    ensures |Requests(trace[..i])| <= |Requests(trace)|
    decreases |trace|
  {
    if i == |trace| {
      assert trace[..i] == trace;
    } else {
      var before := trace[..|trace| - 1];
      RequestsGrow(before, i);
      assert before[..i] == trace[..i];
    }
  }

  lemma AddedHoldsRight(trace: seq<Happening>, before: seq<Happening>, r: nat)
    requires |trace| > 0 && before == trace[..|trace| - 1] && trace[|trace| - 1].Added?
    requires HoldsRight(before, Run(before), r) && Run(before).registered == |Requests(before)|
    ensures HoldsRight(trace, Run(trace), r)
  {
    var s, s', h := Run(before), Run(trace), trace[|trace| - 1];
    DroppedOneMore(trace, r);
    assert Requests(trace) == Requests(before) + [(h.methodId, h.kind)];
    assert Backlog(trace, r) == Backlog(before, r);
    if r >= |Requests(before)| {
      NothingHeldBefore(before, r);
    }
    hide NeverDropped, DropsAt, Requests, Backlog, Run;
    var m, old' := h.methodId, if h.methodId in s.subs then s.subs[h.methodId] else [];
    assert s'.subs == s.subs[m := old' + [EventListener(s.registered, h.kind, [], [], 0)]];
    if x, i :| x in s.subs && 0 <= i < |s.subs[x]| && s.subs[x][i].number == r {
      assert s'.subs[x][i] == s.subs[x][i];
    }
    if r == s.registered {
      assert s'.subs[m][|old'|].number == r;
    }
    forall x, i | x in s'.subs && 0 <= i < |s'.subs[x]| && s'.subs[x][i].number == r
      ensures |s'.subs[x][i].queued| == Backlog(trace, r)
      ensures Held(s, r) || r == s.registered
    {
      if x in s.subs && i < |s.subs[x]| {
        assert s'.subs[x][i] == s.subs[x][i];
      }
    }
  }

  lemma DispatchedHoldsRight(trace: seq<Happening>, before: seq<Happening>, r: nat)
    requires |trace| > 0 && before == trace[..|trace| - 1] && AllExplained(before)
    requires trace[|trace| - 1].Dispatched? || trace[|trace| - 1].CustomDispatched?
    requires HoldsRight(before, Run(before), r)
    ensures HoldsRight(trace, Run(trace), r)
  {
    var s, h := Run(before), trace[|trace| - 1];
    DroppedOneMore(trace, r);
    assert Requests(trace) == Requests(before) + [] == Requests(before);
    assert Backlog(trace, r) == Backlog(before, r) + |Concerning(Requests(before), s, h, r)|;
    assert Run(trace) == Step(s, h);
    hide NeverDropped, DropsAt, Backlog, Explained, Run, Requests;
    DispatchQueues(Requests(before), s, h, r);
    hide Step, Concerning;
  }

  /** A dispatch queues, with the subscriptions of every registration, the event that concerns it. */
  lemma DispatchQueues(requests: seq<(MethodId, EventKind)>, s: Listeners, h: Happening, r: nat)
    requires h.Dispatched? || h.CustomDispatched?
    requires forall m, i | m in s.subs && 0 <= i < |s.subs[m]| ::
               s.subs[m][i].number < |requests| && requests[s.subs[m][i].number] == (m, s.subs[m][i].kind)
    ensures var s' := Step(s, h);
            && s'.subs.Keys == s.subs.Keys && (forall m | m in s.subs :: |s'.subs[m]| == |s.subs[m]|)
            && (Held(s', r) <==> Held(s, r))
            && forall m, i | m in s.subs && 0 <= i < |s.subs[m]| ::
                 && s'.subs[m][i].number == s.subs[m][i].number
                 && (s.subs[m][i].number == r ==>
                       |s'.subs[m][i].queued| == |s.subs[m][i].queued| + |Concerning(requests, s, h, r)|)
  {
    var s' := Step(s, h);
    assert s'.subs.Keys == s.subs.Keys && forall m | m in s.subs :: |s'.subs[m]| == |s.subs[m]|;
    hide Converted;
    forall m, i | m in s.subs && 0 <= i < |s.subs[m]|
      ensures s'.subs[m][i].number == s.subs[m][i].number
      ensures s.subs[m][i].number == r ==>
                |s'.subs[m][i].queued| == |s.subs[m][i].queued| + |Concerning(requests, s, h, r)|
    {
      assert requests[s.subs[m][i].number] == (m, s.subs[m][i].kind);
    }
    SameNumbersHeld(s, s', r);
  }

  lemma SameNumbersHeld(s: Listeners, s': Listeners, r: nat)
    requires s'.subs.Keys == s.subs.Keys && forall m | m in s.subs :: |s'.subs[m]| == |s.subs[m]|
    requires forall m, i | m in s.subs && 0 <= i < |s.subs[m]| :: s'.subs[m][i].number == s.subs[m][i].number
    ensures Held(s', r) <==> Held(s, r)
  {
    if m, i :| m in s.subs && 0 <= i < |s.subs[m]| && s.subs[m][i].number == r {
      assert s'.subs[m][i].number == r;
    }
    if m, i :| m in s'.subs && 0 <= i < |s'.subs[m]| && s'.subs[m][i].number == r {
      assert s.subs[m][i].number == r;
    }
  }

  /** A poll keeps a subscription of the registration exactly if it had one whose channel does not say that its receiver
    * is gone. */
  lemma PolledHeld(s: Listeners, channels: nat -> Channel, r: nat, n: nat)
    requires forall m, i | m in s.subs && 0 <= i < |s.subs[m]| && s.subs[m][i].number == r :: |s.subs[m][i].queued| == n
    ensures Held(Poll(s, channels), r) <==> Held(s, r) && !Disconnects(channels(r), n, 0)
    ensures var s' := Poll(s, channels);
            forall m, i | m in s'.subs && 0 <= i < |s'.subs[m]| && s'.subs[m][i].number == r ::
              |s'.subs[m][i].queued| == n - TakenFrom(channels(r), n, 0)
  {
    var s' := Poll(s, channels);
    assert s'.subs.Keys == s.subs.Keys;
    hide Poll, Drain, Kept, Disconnects, TakenFrom;
    forall m, i | m in s'.subs && 0 <= i < |s'.subs[m]| && s'.subs[m][i].number == r
      ensures Held(s, r) && !Disconnects(channels(r), n, 0)
      ensures |s'.subs[m][i].queued| == n - TakenFrom(channels(r), n, 0)
    {
      PollKeepsExactly(s, channels, m);
      assert s'.subs[m][i] in s'.subs[m];
      var j :| 0 <= j < |s.subs[m]| && s'.subs[m][i] == Drain(s.subs[m][j], channels(s.subs[m][j].number), 0).sub
                                    && Kept(Drain(s.subs[m][j], channels(s.subs[m][j].number), 0));
      DrainKeepsOrder(s.subs[m][j], channels(s.subs[m][j].number), 0);
      assert s.subs[m][j].number == r;
      DroppedExactlyWhen(s.subs[m][j], channels(r), 0);
    }
    if Held(s, r) && !Disconnects(channels(r), n, 0) {
      var m, j :| m in s.subs && 0 <= j < |s.subs[m]| && s.subs[m][j].number == r;
      PollKeepsExactly(s, channels, m);
      DroppedExactlyWhen(s.subs[m][j], channels(r), 0);
      DrainKeepsOrder(s.subs[m][j], channels(r), 0);
      var sub := Drain(s.subs[m][j], channels(r), 0).sub;
      assert sub in s'.subs[m];
      var i :| 0 <= i < |s'.subs[m]| && s'.subs[m][i] == sub;
      assert s'.subs[m][i].number == r;
    }
  }

  lemma PolledHoldsRight(trace: seq<Happening>, before: seq<Happening>, r: nat)
    requires |trace| > 0 && before == trace[..|trace| - 1] && trace[|trace| - 1].PolledAll?
    requires HoldsRight(before, Run(before), r)
    ensures HoldsRight(trace, Run(trace), r)
  {
    var s, channels := Run(before), trace[|trace| - 1].channels;
    DroppedOneMore(trace, r);
    assert Requests(trace) == Requests(before) + [] == Requests(before);
    assert Run(trace) == Poll(s, channels);
    assert Backlog(trace, r) == Backlog(before, r) - TakenFrom(channels(r), Backlog(before, r), 0);
    PolledHeld(s, channels, r, Backlog(before, r));
    assert trace[..|trace| - 1] == before;
    hide NeverDropped, Disconnects, Requests, Backlog, Run, Poll, Held;
  }

  /** In every run, whatever the channels answer, a registration is still held exactly when its channel never said, while
    * it was polled, that the receiver is gone. */
  lemma {:induction false} HeldExactlyWhen(trace: seq<Happening>, r: nat)
    ensures HoldsRight(trace, Run(trace), r)
  {
    if |trace| > 0 {
      var before := trace[..|trace| - 1];
      HeldExactlyWhen(before, r);
      EveryEventAccountedFor(before);
      hide HoldsRight, Run;
      match trace[|trace| - 1]
      case Added(m, kind) => AddedHoldsRight(trace, before, r);
      case Dispatched(m, event) => DispatchedHoldsRight(trace, before, r);
      case CustomDispatched(m, val) => DispatchedHoldsRight(trace, before, r);
      case PolledAll(channels) => PolledHoldsRight(trace, before, r);
    }
  }

  /** The registration is held, and all events dispatched to it were delivered or are queued. */
  predicate ReceivesAll(trace: seq<Happening>, r: nat) {
    var s := Run(trace);
    exists m, i | m in s.subs && 0 <= i < |s.subs[m]| ::
      s.subs[m][i].number == r && s.subs[m][i].delivered + s.subs[m][i].queued == Sent(trace, r)
  }

  /** With unbounded channels, no event dispatched to a registration is lost exactly when its channel never said, while
    * it was polled, that the receiver is gone. */
  lemma NothingIsLostExactlyWhen(trace: seq<Happening>, r: nat)
    requires AllUnbounded(trace) && r < |Requests(trace)|
    ensures ReceivesAll(trace, r) <==> NeverDropped(trace, r)
  {
    HeldExactlyWhen(trace, r);
    hide NeverDropped, Requests, Sent, Run;
    var s := Run(trace);
    if m, i :| m in s.subs && 0 <= i < |s.subs[m]| && s.subs[m][i].number == r {
      DeliveredThenQueuedIsSent(trace, m, i);
    }
  }

  /** When the receiver is gone, its subscription goes with the events that still wait in it. */
  lemma GoneReceiverLosesAnEvent()
    ensures var trace := [Added(0, BuiltIn), Dispatched(0, 7), PolledAll(r => k => Broken(Disconnected))];
            && AllUnbounded(trace) && Run(trace).subs == map[0 := []] && Sent(trace, 0) == [7]
  {
    var a, d, p := Added(0, BuiltIn), Dispatched(0, 7), PolledAll(r => k => Broken(Disconnected));
    BrokenIsUnbounded(a, d, p);
    hide AllUnbounded;
    assert [a, d, p][..2] == [a, d];
    OneEventQueued(a, d);
    var sub := EventListener(0, BuiltIn, [7], [], 0);
    assert Remains(sub, p.channels) == [];
    assert SwapRemove([sub], 0) + [] == [];
    assert Swept([sub], p.channels) == [];
    assert Run([a, d, p]).subs == map[0 := []];
    assert Sent([a, d, p], 0) == [7];
  }

  lemma BrokenIsUnbounded(a: Happening, d: Happening, p: Happening)
    requires a.Added? && d.Dispatched? && p.PolledAll? && forall r, k: nat :: p.channels(r)(k) == Broken(Disconnected)
    ensures AllUnbounded([a, d, p])
  {
    forall r: nat
      ensures Unbounded(p.channels(r))
    {
    }
    hide Unbounded;
  }

  lemma OneEventQueued(a: Happening, d: Happening)
    requires a == Added(0, BuiltIn) && d == Dispatched(0, 7)
    ensures Run([a, d]) == Listeners(map[0 := [EventListener(0, BuiltIn, [7], [], 0)]], 1)
    ensures Requests([a, d]) == [(0, BuiltIn)] && Sent([a, d], 0) == [7]
  {
    assert [a, d][..1] == [a] && [a][..0] == [];
    var sub := EventListener(0, BuiltIn, [], [], 0);
    assert Run([]) == NO_LISTENERS;
    assert [] + [sub] == [sub];
    assert Run([a]) == Listeners(map[0 := [sub]], 1);
    assert Run([a, d]) == Listeners(map[0 := SendToAll([sub], 7)], 1);
    assert SendToAll([sub], 7) == [StartSend(sub, 7)] && [] + [7] == [7];
    assert Requests([]) == [] && Requests([a]) == [(0, BuiltIn)];
    assert Sent([], 0) == [] && Sent([a], 0) == [];
  }

  /** A channel that refuses an event without being closed would make the subscription lose it, yet stay. The program has
    * no such channel; so the theorem on unbounded channels does not hold of all. */
  lemma FullChannelWouldLoseAnEvent()
    ensures var trace := [Added(0, BuiltIn), Dispatched(0, 7), PolledAll(r => k => Ready(Some(Full)))];
            && Run(trace).subs == map[0 := [EventListener(0, BuiltIn, [], [], 1)]]
            && Sent(trace, 0) == [7]
  {
    var a, d, p := Added(0, BuiltIn), Dispatched(0, 7), PolledAll(r => k => Ready(Some(Full)));
    assert [a, d, p][..2] == [a, d];
    OneEventQueued(a, d);
    var sub := EventListener(0, BuiltIn, [7], [], 0);
    var out := Drain(sub, p.channels(0), 0).sub;
    assert out == EventListener(0, BuiltIn, [], [], 1);
    assert Remains(sub, p.channels) == [out];
    assert SwapRemove([sub], 0) + [out] == [out];
    assert Swept([sub], p.channels) == [out];
    assert Run([a, d, p]).subs == map[0 := [out]];
    assert Sent([a, d, p], 0) == [7];
  }
}

module EventListenerTables {
  import opened Options
  import opened Sweep
  import L = ListenersSpec

  class EventListeners {
    var listeners: map<L.MethodId, seq<L.EventListener>>
    var registered: nat

    constructor ()
      ensures State() == L.NO_LISTENERS
    {
      listeners, registered := map[], 0;
    }

    function State(): L.Listeners
      reads this
    {
      L.Listeners(listeners, registered)
    }

    method AddListener(methodId: L.MethodId, kind: L.EventKind)
      modifies this
      ensures State() == L.AddListener(old(State()), methodId, kind)
    {
      var subs := if methodId in listeners then listeners[methodId] else [];
      listeners := listeners[methodId := subs + [L.EventListener(registered, kind, [], [], 0)]];
      registered := registered + 1;
    }

    method StartSend(methodId: L.MethodId, event: L.Event)
      modifies this
      ensures State() == L.Dispatch(old(State()), methodId, event)
    {
      if methodId in listeners {
        var subs := listeners[methodId];
        for i := 0 to |subs|
          invariant |subs| == |old(listeners)[methodId]|
          invariant forall j | 0 <= j < |subs| ::
            subs[j] == if j < i then L.StartSend(old(listeners)[methodId][j], event) else old(listeners)[methodId][j]
        {
          subs := subs[i := L.StartSend(subs[i], event)];
        }
        assert subs == L.SendToAll(old(listeners)[methodId], event);
        listeners := listeners[methodId := subs];
      }
    }

    /** Fails when the value is not what the first custom subscription expects. */
    method TrySendCustom(methodId: L.MethodId, val: L.Json) returns (ok: bool)
      modifies this
      ensures State() == L.DispatchCustom(old(State()), methodId, val)
      ensures !ok <==> methodId in old(listeners) && L.FirstConverter(old(listeners)[methodId]).Some? &&
                       L.Converted(old(State()), methodId, val).None?
    {
      ok := true;
      if methodId in listeners {
        var subs := listeners[methodId];
        var convert := L.FirstConverter(subs);
        if convert.Some? {
          var converted := convert.value(val);
          if converted.None? {
            return false;
          }
          for i := 0 to |subs|
            invariant |subs| == |old(listeners)[methodId]|
            invariant forall j | 0 <= j < |subs| ::
              subs[j] == if j < i && old(listeners)[methodId][j].kind.Custom?
                         then L.StartSend(old(listeners)[methodId][j], converted.value) else old(listeners)[methodId][j]
          {
            if subs[i].kind.Custom? {
              subs := subs[i := L.StartSend(subs[i], converted.value)];
            }
          }
          assert subs == L.SendToCustom(old(listeners)[methodId], converted.value);
          listeners := listeners[methodId := subs];
        }
      }
    }

    /** One subscription's share of a poll. */
    static method PollListener(listener: L.EventListener, channel: L.Channel) returns (p: L.Polled)
      ensures p == L.Drain(listener, channel, 0)
    {
      var sub := listener;
      var k := 0;
      while true
        invariant L.Drain(sub, channel, k) == L.Drain(listener, channel, 0)
        decreases |sub.queued|
      {
        match channel(k)
        case NotReady => return L.Polled(sub, L.Pending);
        case Broken(err) => return L.Polled(sub, L.Failed(err));
        case Ready(refusal) =>
          if |sub.queued| == 0 {
            return L.Polled(sub, L.Done);
          }
          var event := sub.queued[0];
          sub := sub.(queued := sub.queued[1..]);
          if refusal.Some? {
            return L.Polled(sub.(rejected := sub.rejected + 1), L.Failed(refusal.value));
          }
          sub := sub.(delivered := sub.delivered + [event]);
          k := k + 1;
      }
    }

    /** The swap-remove sweep over the subscriptions to one method, last one first. */
    static method SweepSubscriptions(subs: seq<L.EventListener>, channels: nat -> L.Channel)
      returns (r: seq<L.EventListener>)
      ensures r == L.Swept(subs, channels)
    {
      ghost var back := (sub: L.EventListener) => L.Remains(sub, channels);
      r := subs;
      var n: nat := |subs|;
      while n > 0
        invariant n <= |r|
        invariant SweepDown(r, n, back) == SweepDown(subs, |subs|, back)
      {
        n := n - 1;
        var sub := r[n];
        SweepStep(r, n, back(sub));
        r := SwapRemove(r, n);
        var p := PollListener(sub, channels(sub.number));
        match p.result
        case Failed(err) =>
          if !err.Disconnected? {
            r := r + [p.sub];
          } else {
            assert r + [] == r;
          }
        case _ => r := r + [p.sub];
      }
    }

    /** Sweeps the subscriptions of every method, in any order of methods. */
    method Poll(channels: nat -> L.Channel)
      modifies this`listeners
      ensures State() == L.Poll(old(State()), channels)
    {
      var todo := listeners.Keys;
      while todo != {}
        invariant todo <= listeners.Keys == old(listeners).Keys
        invariant forall m | m in listeners ::
          listeners[m] == if m in todo then old(listeners)[m] else L.Swept(old(listeners)[m], channels)
        decreases |todo|
      {
        var m :| m in todo;
        var subs := SweepSubscriptions(listeners[m], channels);
        listeners := listeners[m := subs];
        todo := todo - {m};
      }
    }
  }
}
