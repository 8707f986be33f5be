/**
  One WebSocket connection: the goroutine that pumps messages from the Redis subscription into a channel
  of 16 slots, the handler that writes them out, the goroutine that reads from the socket, and the
  context they share. Every step is one communication, one call or one deferred call, so all schedules
  of the three are runs.
 */
module Connection {
  import opened Domain
  import opened Broadcasting

  const SLOTS := 16

  /** What goes through Redis: a post of this service, or something that is no message. */
  datatype Broadcast = Posted(post: Post) | Noise(channel: string)

  /** Messages are known by their position among everything broadcast. */
  datatype Pump = Outer | Sending(m: nat) | Closing | Unsubscribing | Exited
  datatype Handler = Looping | Writing(m: nat) | Pinging | Leaving | Disconnecting | Returned
  datatype Reader = Reading | Cancelling | Gone

  datatype State = State(
    citizen: Bytes,
    broadcasts: seq<Broadcast>,
    since: nat,                // how many there were when the subscription began
    inbox: seq<nat>,           // received from Redis, not yet taken by the pump
    dropped: bool,             // the subscription has ended: nothing will be received any more
    pump: Pump,
    buffer: seq<nat>,          // the channel from pump to handler
    closed: bool,
    closes: nat,               // how often the channel has been closed
    handler: Handler,
    reader: Reader,
    cancelled: bool,
    open: bool,                // the socket
    written: seq<nat>)

  datatype Action =
    | Announce(post: Post, received: bool)
    | MakeNoise(channel: string, received: bool)
    | DropSubscription
    | CancelRequest
    | PumpTake
    | PumpSend
    | PumpStop
    | PumpEnd
    | PumpClose
    | PumpUnsubscribe
    | HandlerReceive
    | HandlerWrite(ok: bool)
    | HandlerEnd
    | HandlerStop
    | HandlerTick
    | HandlerPing(ok: bool)
    | HandlerCancel
    | HandlerDisconnect
    | ReaderFail
    | ReaderCancel

  function Start(citizen: Bytes, broadcasts: seq<Broadcast>): State {
    State(citizen, broadcasts, |broadcasts|, [], false, Outer, [], false, 0, Looping, Reading, false, true, [])
  }

  function ChannelOf(b: Broadcast): string {
    match b
    case Posted(post) => post.channel
    case Noise(channel) => channel
  }

  /** Redis carries the broadcast to the subscribers of its channel; what is received queues up. */
  function Carry(s: State, b: Broadcast, received: bool): State {
    var t := s.(broadcasts := s.broadcasts + [b]);
    if received && !s.dropped && ChannelOf(b) == ChannelFor(s.citizen)
    then t.(inbox := s.inbox + [|s.broadcasts|]) else t
  }

  /** A select with several ready cases may take any of them. */
  predicate Enabled(s: State, a: Action) {
    match a
    case Announce(_, _) => true
    case MakeNoise(_, _) => true
    case DropSubscription => true
    case CancelRequest => true
    case PumpTake => s.pump.Outer? && s.inbox != [] && s.inbox[0] < |s.broadcasts|
    case PumpSend => s.pump.Sending? && |s.buffer| < SLOTS
    case PumpStop => (s.pump.Outer? || s.pump.Sending?) && s.cancelled
    case PumpEnd => s.pump.Outer? && s.dropped && s.inbox == []
    case PumpClose => s.pump.Closing?
    case PumpUnsubscribe => s.pump.Unsubscribing?
    case HandlerReceive => s.handler.Looping? && s.buffer != []
    case HandlerWrite(_) => s.handler.Writing?
    case HandlerEnd => s.handler.Looping? && s.closed && s.buffer == []
    case HandlerStop => s.handler.Looping? && s.cancelled
    case HandlerTick => s.handler.Looping?
    case HandlerPing(_) => s.handler.Pinging?
    case HandlerCancel => s.handler.Leaving?
    case HandlerDisconnect => s.handler.Disconnecting?
    case ReaderFail => s.reader.Reading?
    case ReaderCancel => s.reader.Cancelling?
  }

  function Apply(s: State, a: Action): State
    requires Enabled(s, a)
  {
    match a
    case Announce(post, received) => Carry(s, Posted(post), received)
    case MakeNoise(channel, received) => Carry(s, Noise(channel), received)
    case DropSubscription => s.(dropped := true)
    case CancelRequest => s.(cancelled := true)
    case PumpTake =>
      var m := s.inbox[0];
      s.(inbox := s.inbox[1..], pump := if s.broadcasts[m].Posted? then Sending(m) else Outer)
    case PumpSend => s.(buffer := s.buffer + [s.pump.m], pump := Outer)
    case PumpStop => s.(pump := Closing)
    case PumpEnd => s.(pump := Closing)
    case PumpClose => s.(pump := Unsubscribing, closed := true, closes := s.closes + 1)
    case PumpUnsubscribe => s.(pump := Exited, dropped := true)
    case HandlerReceive => s.(handler := Writing(s.buffer[0]), buffer := s.buffer[1..])
    case HandlerWrite(ok) =>
      if ok then s.(handler := Looping, written := s.written + [s.handler.m]) else s.(handler := Leaving)
    case HandlerEnd => s.(handler := Leaving)
    case HandlerStop => s.(handler := Leaving)
    case HandlerTick => s.(handler := Pinging)
    case HandlerPing(ok) => s.(handler := if ok then Looping else Leaving)
    case HandlerCancel => s.(handler := Disconnecting, cancelled := true)
    case HandlerDisconnect => s.(handler := Returned, open := false)
    case ReaderFail => s.(reader := Cancelling)
    case ReaderCancel => s.(reader := Gone, cancelled := true)
  }

  function Run(s: State, actions: seq<Action>): Option<State> {
    if actions == [] then Some(s)
    else
      var before := Run(s, actions[..|actions| - 1]);
      var a := actions[|actions| - 1];
      if before.Some? && Enabled(before.value, a) then Some(Apply(before.value, a)) else None
  }

  ghost predicate Reachable(s: State) {
    exists actions, citizen, broadcasts :: Run(Start(citizen, broadcasts), actions) == Some(s)
  }

  // ---- Order, isolation, and the channel's discipline ----

  function InPump(p: Pump): seq<nat> {
    if p.Sending? then [p.m] else []
  }

  function InHandler(h: Handler): seq<nat> {
    if h.Writing? then [h.m] else []
  }

  /** Everything received, from the oldest written to the newest not yet taken. */
  function Pipeline(s: State): seq<nat> {
    Sendable(s) + s.inbox
  }

  /** The part of it that has passed the pump's decoding. */
  function Sendable(s: State): seq<nat> {
    s.written + InHandler(s.handler) + s.buffer + InPump(s.pump)
  }

  predicate Increasing(ms: seq<nat>) {
    forall i, j :: 0 <= i < j < |ms| ==> ms[i] < ms[j]
  }

  /** Position `m` holds something broadcast on the citizen's own channel after the subscription began. */
  predicate OwnSince(s: State, m: nat) {
    s.since <= m < |s.broadcasts| && ChannelOf(s.broadcasts[m]) == ChannelFor(s.citizen)
  }

  ghost predicate FlowInv(s: State) {
    && s.since <= |s.broadcasts|
    && Fine(s, Pipeline(s))
    && Decoded(s, Sendable(s))
  }

  predicate Fine(s: State, ms: seq<nat>) {
    Increasing(ms) && forall m :: m in ms ==> OwnSince(s, m)
  }

  predicate Decoded(s: State, ms: seq<nat>) {
    forall m :: m in ms ==> m < |s.broadcasts| && s.broadcasts[m].Posted?
  }

  ghost predicate ChannelInv(s: State) {
    && |s.buffer| <= SLOTS
    && s.closes == (if s.closed then 1 else 0)
    && (s.closed <==> s.pump.Unsubscribing? || s.pump.Exited?)
    && (s.handler.Disconnecting? || s.handler.Returned? || s.reader.Gone? ==> s.cancelled)
    && (s.handler.Returned? <==> !s.open)
  }

  function Without(ms: seq<nat>, k: nat): seq<nat>
    requires k < |ms|
  {
    ms[..k] + ms[k + 1..]
  }

  lemma WithoutStaysFine(s: State, ms: seq<nat>, k: nat)
    requires k < |ms|
    ensures Fine(s, ms) ==> Fine(s, Without(ms, k))
    ensures Decoded(s, ms) ==> Decoded(s, Without(ms, k))
  {
    forall m | m in Without(ms, k)
      ensures m in ms
    {
    }
  }

  lemma LongerStaysFine(s: State, t: State, ms: seq<nat>)
    requires t.citizen == s.citizen && t.since == s.since && s.broadcasts <= t.broadcasts
    ensures Fine(s, ms) ==> Fine(t, ms)
    ensures Decoded(s, ms) ==> Decoded(t, ms)
  {
    if Fine(s, ms) {
      forall m | m in ms
        ensures OwnSince(t, m)
      {
        assert OwnSince(s, m);
      }
    }
  }

  lemma CarryKeepsFlow(s: State, b: Broadcast, received: bool)
    requires FlowInv(s)
    ensures FlowInv(Carry(s, b, received))
  {
    var t, n := Carry(s, b, received), |s.broadcasts|;
    LongerStaysFine(s, t, Pipeline(s));
    LongerStaysFine(s, t, Sendable(s));
    assert Sendable(t) == Sendable(s);
    if t.inbox != s.inbox {
      assert OwnSince(t, n);
      NewestStaysFine(t, Pipeline(s), n);
      assert Pipeline(t) == Pipeline(s) + [n];
    }
    assert forall m :: m in Pipeline(s) ==> OwnSince(s, m);
  }

  lemma NewestStaysFine(s: State, ms: seq<nat>, n: nat)
    requires Fine(s, ms) && OwnSince(s, n) && n + 1 == |s.broadcasts|
    requires n !in ms
    ensures Fine(s, ms + [n])
  {
    forall i | 0 <= i < |ms|
      ensures ms[i] < n
    {
      assert ms[i] in ms;
    }
  }

  /** What the pump takes joins what it can send, or is skipped. */
  lemma TakeMoves(s: State)
    requires Enabled(s, PumpTake)
    ensures var t, m := Apply(s, PumpTake), s.inbox[0];
      && Sendable(t) == (if t.pump.Sending? then Sendable(s) + [m] else Sendable(s))
      && Pipeline(t) == (if t.pump.Sending? then Pipeline(s) else Without(Pipeline(s), |Sendable(s)|))
      && t.inbox == s.inbox[1..] && (t.pump.Sending? ==> s.broadcasts[m].Posted?)
  {
    var t, front := Apply(s, PumpTake), Sendable(s);
    assert s.inbox == [s.inbox[0]] + s.inbox[1..];
    assert front == s.written + InHandler(s.handler) + s.buffer;
    assert Sendable(t) == front + InPump(t.pump);
  }

  lemma TakeKeepsFlow(s: State)
    requires FlowInv(s) && Enabled(s, PumpTake)
    ensures FlowInv(Apply(s, PumpTake))
  {
    var t := Apply(s, PumpTake);
    assert Fine(t, Pipeline(t)) by {
      TakeMoves(s);
      if !t.pump.Sending? {
        WithoutStaysFine(s, Pipeline(s), |Sendable(s)|);
      }
      LongerStaysFine(s, t, Pipeline(t));
    }
    TakeStaysDecoded(s);
  }

  lemma TakeStaysDecoded(s: State)
    requires Decoded(s, Sendable(s)) && Enabled(s, PumpTake)
    ensures Decoded(Apply(s, PumpTake), Sendable(Apply(s, PumpTake)))
  {
    var t := Apply(s, PumpTake);
    TakeMoves(s);
    assert forall m :: m in Sendable(t) ==> m in Sendable(s) || (t.pump.Sending? && m == s.inbox[0]);
  }

  /** A step that moves messages along, or loses the one in hand, changes the pipeline no further. */
  lemma MoveKeepsFlow(s: State, t: State, k: int)
    requires FlowInv(s) && t.citizen == s.citizen && t.broadcasts == s.broadcasts && t.since == s.since
    requires t.inbox == s.inbox
    requires Sendable(t) == if 0 <= k < |Sendable(s)| then Without(Sendable(s), k) else Sendable(s)
    ensures FlowInv(t)
  {
    if 0 <= k < |Sendable(s)| {
      WithoutStaysFine(s, Sendable(s), k);
      WithoutStaysFine(s, Pipeline(s), k);
      WithoutInFront(Sendable(s), s.inbox, k);
    }
    assert Fine(t, Pipeline(t)) by {
      LongerStaysFine(s, t, Pipeline(t));
    }
  }

  lemma WithoutInFront(ms: seq<nat>, rest: seq<nat>, k: nat)
    requires k < |ms|
    ensures Without(ms + rest, k) == Without(ms, k) + rest
  {
  }

  lemma SendMoves(s: State)
    requires Enabled(s, PumpSend)
    ensures Sendable(Apply(s, PumpSend)) == Sendable(s)
  {
    var front := s.written + InHandler(s.handler);
    assert Sendable(s) == front + s.buffer + [s.pump.m];
    assert Sendable(Apply(s, PumpSend)) == front + (s.buffer + [s.pump.m]) + [];
  }

  lemma StopMoves(s: State)
    requires Enabled(s, PumpStop)
    ensures var n := |Sendable(s)| - |InPump(s.pump)|;
      && Sendable(Apply(s, PumpStop)) == Sendable(s)[..n]
      && (s.pump.Sending? ==> n >= 0 && Sendable(s)[n] == s.pump.m)
  {
    var front := s.written + InHandler(s.handler) + s.buffer;
    assert Sendable(s) == front + InPump(s.pump);
    assert Sendable(Apply(s, PumpStop)) == front + [];
  }

  lemma ReceiveMoves(s: State)
    requires Enabled(s, HandlerReceive)
    ensures Sendable(Apply(s, HandlerReceive)) == Sendable(s)
  {
    assert s.buffer == [s.buffer[0]] + s.buffer[1..];
    assert Sendable(s) == s.written + [] + ([s.buffer[0]] + s.buffer[1..]) + InPump(s.pump);
    assert Sendable(Apply(s, HandlerReceive)) == s.written + [s.buffer[0]] + s.buffer[1..] + InPump(s.pump);
  }

  lemma WriteMoves(s: State)
    requires Enabled(s, HandlerWrite(true))
    ensures Sendable(Apply(s, HandlerWrite(true))) == Sendable(s)
  {
    assert Sendable(s) == s.written + [s.handler.m] + s.buffer + InPump(s.pump);
    assert Sendable(Apply(s, HandlerWrite(true))) == (s.written + [s.handler.m]) + [] + s.buffer + InPump(s.pump);
  }

  lemma WithoutMiddle(front: seq<nat>, m: nat, rest: seq<nat>)
    ensures var all := front + [m] + rest;
      all[|front|] == m && Without(all, |front|) == front + [] + rest
  {
  }

  lemma FailedWriteMoves(s: State)
    requires Enabled(s, HandlerWrite(false))
    ensures var n := |s.written|;
      && n < |Sendable(s)| && Sendable(s)[n] == s.handler.m
      && Sendable(Apply(s, HandlerWrite(false))) == Without(Sendable(s), n)
  {
    var rest := s.buffer + InPump(s.pump);
    WithoutMiddle(s.written, s.handler.m, rest);
    assert Sendable(s) == s.written + [s.handler.m] + rest;
    assert Sendable(Apply(s, HandlerWrite(false))) == s.written + [] + rest;
  }

  lemma PumpStops(s: State)
    requires FlowInv(s) && Enabled(s, PumpStop)
    ensures FlowInv(Apply(s, PumpStop))
  {
    StopMoves(s);
    MoveKeepsFlow(s, Apply(s, PumpStop), if s.pump.Sending? then |Sendable(s)| - 1 else -1);
  }

  lemma HandlerFailsToWrite(s: State)
    requires FlowInv(s) && Enabled(s, HandlerWrite(false))
    ensures FlowInv(Apply(s, HandlerWrite(false)))
  {
    FailedWriteMoves(s);
    MoveKeepsFlow(s, Apply(s, HandlerWrite(false)), |s.written|);
  }

  /** A message moves one place on. */
  predicate IsMove(a: Action) {
    a == PumpSend || a == HandlerReceive || a == HandlerWrite(true)
  }

  lemma MoveOn(s: State, a: Action)
    requires Enabled(s, a) && IsMove(a)
    ensures Sendable(Apply(s, a)) == Sendable(s) && Apply(s, a).inbox == s.inbox
  {
    match a {
      case PumpSend => SendMoves(s);
      case HandlerReceive => ReceiveMoves(s);
      case HandlerWrite(_) => WriteMoves(s);
    }
  }

  /** Nothing in the pipeline is touched. */
  predicate IsAside(a: Action) {
    !a.Announce? && !a.MakeNoise? && !a.PumpTake? && !a.PumpStop? && !IsMove(a) && a != HandlerWrite(false)
  }

  lemma OthersStandAside(s: State, a: Action)
    requires Enabled(s, a) && IsAside(a)
    ensures Sendable(Apply(s, a)) == Sendable(s) && Apply(s, a).inbox == s.inbox
  {
    var t := Apply(s, a);
    assert t.written == s.written && t.buffer == s.buffer;
    assert InHandler(t.handler) == InHandler(s.handler) && InPump(t.pump) == InPump(s.pump);
  }

  lemma RestKeepsPipeline(s: State, a: Action)
    requires Enabled(s, a) && (IsMove(a) || IsAside(a))
    ensures Sendable(Apply(s, a)) == Sendable(s) && Apply(s, a).inbox == s.inbox
    ensures Pipeline(Apply(s, a)) == Pipeline(s)
  {
    if IsMove(a) {
      MoveOn(s, a);
    } else {
      OthersStandAside(s, a);
    }
  }

  lemma RestLeavesFlow(s: State, a: Action)
    requires FlowInv(s) && Enabled(s, a) && (IsMove(a) || IsAside(a))
    ensures FlowInv(Apply(s, a))
  {
    RestKeepsPipeline(s, a);
    MoveKeepsFlow(s, Apply(s, a), -1);
  }

  lemma FlowStep(s: State, a: Action)
    requires FlowInv(s) && Enabled(s, a)
    ensures FlowInv(Apply(s, a))
  {
    match a {
      case Announce(post, received) => CarryKeepsFlow(s, Posted(post), received);
      case MakeNoise(channel, received) => CarryKeepsFlow(s, Noise(channel), received);
      case PumpTake => TakeKeepsFlow(s);
      case PumpStop => PumpStops(s);
      case HandlerWrite(ok) =>
        if ok {
          RestLeavesFlow(s, a);
        } else {
          HandlerFailsToWrite(s);
        }
      case _ => RestLeavesFlow(s, a);
    }
  }

  lemma ChannelStep(s: State, a: Action)
    requires ChannelInv(s) && Enabled(s, a)
    ensures ChannelInv(Apply(s, a))
  {
  }

  lemma {:induction false} RunInv(s: State, actions: seq<Action>)
    requires FlowInv(s) && ChannelInv(s) && Run(s, actions).Some?
    ensures FlowInv(Run(s, actions).value) && ChannelInv(Run(s, actions).value)
  {
    if actions == [] {
    } else {
      RunInv(s, actions[..|actions| - 1]);
      FlowStep(Run(s, actions[..|actions| - 1]).value, actions[|actions| - 1]);
      ChannelStep(Run(s, actions[..|actions| - 1]).value, actions[|actions| - 1]);
    }
  }

  lemma ReachableInv(s: State)
    requires Reachable(s)
    ensures FlowInv(s) && ChannelInv(s)
  {
    var actions, citizen, broadcasts :| Run(Start(citizen, broadcasts), actions) == Some(s);
    RunInv(Start(citizen, broadcasts), actions);
  }

  /** Under every schedule, what a connection has written is a subsequence, in order and without
      repetition, of what was posted after it subscribed; and each message is of a notification of
      its own citizen. */
  lemma DeliveryOrderAndIsolation(s: State)
    requires Reachable(s)
    ensures Increasing(s.written)
    ensures forall m :: m in s.written ==>
      s.since <= m < |s.broadcasts| && s.broadcasts[m].Posted?
      && ChannelOf(s.broadcasts[m]) == ChannelFor(s.citizen)
    ensures forall m, n :: m in s.written && s.broadcasts[m] == Posted(PostOf(n)) ==> n.citizenRef == s.citizen
  {
    ReachableInv(s);
    assert Pipeline(s)[..|s.written|] == s.written;
    forall m | m in s.written
      ensures s.since <= m < |s.broadcasts| && s.broadcasts[m].Posted?
      ensures ChannelOf(s.broadcasts[m]) == ChannelFor(s.citizen)
    {
      assert m in Sendable(s) && m in Pipeline(s);
    }
    forall m, n | m in s.written && s.broadcasts[m] == Posted(PostOf(n))
      ensures n.citizenRef == s.citizen
    {
      ChannelsAreSeparate(n.citizenRef, s.citizen);
    }
  }

  // ---- What becomes of a message ----

  /** The step that loses message `m`: the pump stops with it in hand, or the write of it fails. */
  predicate Loses(s: State, a: Action, m: nat) {
    (a == PumpStop && s.pump == Sending(m)) || (a == HandlerWrite(false) && s.handler == Writing(m))
  }

  lemma WithoutMembers(ms: seq<nat>, k: nat, m: nat)
    requires Increasing(ms) && k < |ms|
    ensures m in Without(ms, k) <==> m in ms && m != ms[k]
  {
    if m in ms && m != ms[k] {
      var i :| 0 <= i < |ms| && ms[i] == m;
      assert Without(ms, k)[if i < k then i else i - 1] == m;
    }
  }

  lemma CarryKeepsMembers(s: State, b: Broadcast, received: bool, m: nat)
    requires m < |s.broadcasts|
    ensures m in Pipeline(Carry(s, b, received)) <==> m in Pipeline(s)
  {
  }

  lemma TakeKeepsMembers(s: State, m: nat)
    requires FlowInv(s) && Enabled(s, PumpTake) && m < |s.broadcasts| && s.broadcasts[m].Posted?
    ensures m in Pipeline(Apply(s, PumpTake)) <==> m in Pipeline(s)
  {
    TakeMoves(s);
    WithoutMembers(Pipeline(s), |Sendable(s)|, m);
    assert Pipeline(s)[|Sendable(s)|] == s.inbox[0];
  }

  lemma StopLosesOne(s: State, m: nat)
    requires FlowInv(s) && Enabled(s, PumpStop)
    ensures m in Pipeline(Apply(s, PumpStop)) <==> m in Pipeline(s) && s.pump != Sending(m)
  {
    var n := |Sendable(s)| - 1;
    StopMoves(s);
    if s.pump.Sending? {
      WithoutInFront(Sendable(s), s.inbox, n);
      WithoutMembers(Pipeline(s), n, m);
    }
  }

  lemma FailedWriteLosesOne(s: State, m: nat)
    requires FlowInv(s) && Enabled(s, HandlerWrite(false))
    ensures m in Pipeline(Apply(s, HandlerWrite(false))) <==> m in Pipeline(s) && s.handler != Writing(m)
  {
    FailedWriteMoves(s);
    WithoutInFront(Sendable(s), s.inbox, |s.written|);
    WithoutMembers(Pipeline(s), |s.written|, m);
  }

  lemma StepKeepsUnlessLost(s: State, a: Action, m: nat)
    requires FlowInv(s) && Enabled(s, a) && m < |s.broadcasts| && s.broadcasts[m].Posted?
    ensures m in Pipeline(Apply(s, a)) <==> m in Pipeline(s) && !Loses(s, a, m)
  {
    match a {
      case Announce(post, received) => CarryKeepsMembers(s, Posted(post), received, m);
      case MakeNoise(channel, received) => CarryKeepsMembers(s, Noise(channel), received, m);
      case PumpTake => TakeKeepsMembers(s, m);
      case PumpStop => StopLosesOne(s, m);
      case HandlerWrite(ok) =>
        if ok {
          RestKeepsPipeline(s, a);
        } else {
          FailedWriteLosesOne(s, m);
        }
      case _ => RestKeepsPipeline(s, a);
    }
  }

  lemma BroadcastsStay(s: State, a: Action)
    requires Enabled(s, a)
    ensures s.broadcasts <= Apply(s, a).broadcasts
  {
    match a {
      case Announce(post, received) => assert s.broadcasts <= Carry(s, Posted(post), received).broadcasts;
      case MakeNoise(channel, received) => assert s.broadcasts <= Carry(s, Noise(channel), received).broadcasts;
      case _ =>
    }
  }

  /** Step `k` of the run from `s` loses message `m`. */
  ghost predicate LosesAt(s: State, actions: seq<Action>, k: nat, m: nat) {
    k < |actions| && Run(s, actions[..k]).Some? && Loses(Run(s, actions[..k]).value, actions[k], m)
  }

  lemma LosesAtSnoc(s: State, init: seq<Action>, a: Action, actions: seq<Action>, m: nat)
    requires actions == init + [a] && Run(s, init).Some?
    ensures (exists k :: LosesAt(s, actions, k, m)) <==>
      (exists k :: LosesAt(s, init, k, m)) || Loses(Run(s, init).value, a, m)
  {
    assert actions[..|init|] == init;
    assert Loses(Run(s, init).value, a, m) ==> LosesAt(s, actions, |init|, m);
    forall k: nat | k < |init|
      ensures LosesAt(s, actions, k, m) <==> LosesAt(s, init, k, m)
    {
      assert init[..k] == actions[..k];
    }
  }

  lemma {:induction false} KeptUnlessLost(s: State, actions: seq<Action>, m: nat)
    requires FlowInv(s) && ChannelInv(s) && Run(s, actions).Some?
    requires m < |s.broadcasts| && s.broadcasts[m].Posted?
    ensures s.broadcasts <= Run(s, actions).value.broadcasts
    ensures m in Pipeline(Run(s, actions).value) <==>
      m in Pipeline(s) && !exists k :: LosesAt(s, actions, k, m)
  {
    if actions == [] {
    } else {
      var init, a := actions[..|actions| - 1], actions[|actions| - 1];
      var before := Run(s, init).value;
      KeptUnlessLost(s, init, m);
      RunInv(s, init);
      BroadcastsStay(before, a);
      StepKeepsUnlessLost(before, a, m);
      LosesAtSnoc(s, init, a, actions, m);
    }
  }

  lemma CarryAdds(s: State, b: Broadcast, received: bool)
    requires FlowInv(s)
    ensures |s.broadcasts| in Pipeline(Carry(s, b, received)) <==>
      received && !s.dropped && ChannelOf(b) == ChannelFor(s.citizen)
  {
    var n, t := |s.broadcasts|, Carry(s, b, received);
    assert n !in Pipeline(s);
    assert Sendable(t) == Sendable(s);
    if t.inbox != s.inbox {
      assert t.inbox[|s.inbox|] == n;
    }
  }

  /** What becomes of a post, whatever happens after it: it is on its way to the socket, or written, ever after,
      exactly if Redis carried it to the subscription while that was alive, it was on the citizen's own channel,
      and the pump did not stop with it in hand, nor the write of it fail. */
  lemma FateOfAPost(s: State, post: Post, received: bool, actions: seq<Action>)
    requires Reachable(s) && Run(Apply(s, Announce(post, received)), actions).Some?
    ensures var first := Apply(s, Announce(post, received));
      var t, m := Run(first, actions).value, |s.broadcasts|;
      && m < |t.broadcasts| && t.broadcasts[m] == Posted(post)
      && (m in Pipeline(t) <==>
            && received && !s.dropped && post.channel == ChannelFor(s.citizen)
            && !exists k :: LosesAt(first, actions, k, m))
  {
    var first, m := Apply(s, Announce(post, received)), |s.broadcasts|;
    ReachableInv(s);
    CarryKeepsFlow(s, Posted(post), received);
    CarryAdds(s, Posted(post), received);
    KeptUnlessLost(first, actions, m);
  }

  // ---- The channel ----

  /** Under every schedule, whoever is about to send finds the channel open, whoever is about to close it
      closes it for the first time, and it never holds more than its slots. */
  lemma ChannelDiscipline(s: State)
    requires Reachable(s)
    ensures s.pump.Sending? || s.pump.Closing? ==> !s.closed && s.closes == 0
    ensures s.closes <= 1 && (s.pump.Exited? ==> s.closes == 1)
    ensures |s.buffer| <= 16
    ensures s.handler.Returned? ==> s.cancelled
  {
    ReachableInv(s);
  }

  // ---- Coming to an end ----

  predicate IsPump(a: Action) {
    a.PumpTake? || a.PumpSend? || a.PumpStop? || a.PumpEnd? || a.PumpClose? || a.PumpUnsubscribe?
  }

  /** A bound on the pump's remaining steps, if nothing more is received and it is to end. */
  function PumpWork(s: State): nat {
    match s.pump
    case Outer => 2 * |s.inbox| + 3
    case Sending(_) => 2 * |s.inbox| + 4
    case Closing => 2
    case Unsubscribing => 1
    case Exited => 0
  }

  function PumpSteps(actions: seq<Action>): nat {
    if actions == [] then 0
    else PumpSteps(actions[..|actions| - 1]) + if IsPump(actions[|actions| - 1]) then 1 else 0
  }

  lemma PumpStepsSnoc(actions: seq<Action>, a: Action)
    ensures PumpSteps(actions + [a]) == PumpSteps(actions) + if IsPump(a) then 1 else 0
  {
    assert (actions + [a])[..|actions|] == actions;
  }

  /** How many messages a run receives from Redis. */
  function Receptions(s: State, actions: seq<Action>): nat
    requires Run(s, actions).Some?
  {
    if actions == [] then 0
    else
      var init := actions[..|actions| - 1];
      Receptions(s, init) + if |Run(s, actions).value.inbox| > |Run(s, init).value.inbox| then 1 else 0
  }

  /** Once the context is cancelled the pump is never stuck, even with every slot full and nobody
      reading. */
  lemma PumpNeverStuck(s: State)
    requires Reachable(s) && s.cancelled && !s.pump.Exited?
    ensures exists a :: IsPump(a) && Enabled(s, a)
  {
    match s.pump {
      case Outer => assert IsPump(PumpStop) && Enabled(s, PumpStop);
      case Sending(_) => assert IsPump(PumpStop) && Enabled(s, PumpStop);
      case Closing => assert IsPump(PumpClose) && Enabled(s, PumpClose);
      case Unsubscribing => assert IsPump(PumpUnsubscribe) && Enabled(s, PumpUnsubscribe);
    }
  }

  /** The pump has nothing to do, or it has to wait for others. */
  predicate PumpIdle(s: State) {
    match s.pump
    case Outer => s.inbox == [] && !s.dropped && !s.cancelled
    case Sending(_) => |s.buffer| == SLOTS && !s.cancelled
    case Closing => false
    case Unsubscribing => false
    case Exited => true
  }

  /** That is, there is no step that it could take. */
  lemma PumpIdleIff(s: State)
    requires Reachable(s)
    ensures PumpIdle(s) <==> forall a :: IsPump(a) ==> !Enabled(s, a)
  {
    ReachableInv(s);
    if s.pump.Outer? && s.inbox != [] {
      assert s.inbox[0] in Pipeline(s);
      assert IsPump(PumpTake) && Enabled(s, PumpTake);
    } else if s.pump.Outer? && s.dropped {
      assert IsPump(PumpEnd) && Enabled(s, PumpEnd);
    } else if s.pump.Sending? && |s.buffer| < SLOTS {
      assert IsPump(PumpSend) && Enabled(s, PumpSend);
    } else if s.cancelled && !s.pump.Exited? {
      PumpNeverStuck(s);
    } else if s.pump.Closing? {
      assert IsPump(PumpClose) && Enabled(s, PumpClose);
    } else if s.pump.Unsubscribing? {
      assert IsPump(PumpUnsubscribe) && Enabled(s, PumpUnsubscribe);
    }
  }

  lemma PumpUsesWork(s: State, a: Action)
    requires Enabled(s, a) && IsPump(a)
    ensures PumpWork(Apply(s, a)) + 1 <= PumpWork(s) && |Apply(s, a).inbox| <= |s.inbox|
  {
  }

  lemma StepUsesPumpWork(s: State, a: Action)
    requires Enabled(s, a)
    ensures PumpWork(Apply(s, a)) + (if IsPump(a) then 1 else 0)
         <= PumpWork(s) + (if |Apply(s, a).inbox| > |s.inbox| then 2 else 0)
  {
    if IsPump(a) {
      PumpUsesWork(s, a);
    } else {
      assert Apply(s, a).pump == s.pump && |Apply(s, a).inbox| <= |s.inbox| + 1;
    }
  }

  /** And under any schedule it takes only so many steps, plus two for each message still received, whatever
      else is broadcast; having no step left then means that it has exited. */
  lemma {:induction false} PumpStepsBounded(s: State, actions: seq<Action>)
    requires Run(s, actions).Some?
    ensures PumpSteps(actions) + PumpWork(Run(s, actions).value) <= PumpWork(s) + 2 * Receptions(s, actions)
  {
    if actions == [] {
    } else {
      var init := actions[..|actions| - 1];
      PumpStepsBounded(s, init);
      StepUsesPumpWork(Run(s, init).value, actions[|actions| - 1]);
    }
  }

  /** What each goroutine has to do to end, once the context is cancelled. */
  function PumpExit(p: Pump): seq<Action> {
    match p
    case Outer => [PumpStop, PumpClose, PumpUnsubscribe]
    case Sending(_) => [PumpStop, PumpClose, PumpUnsubscribe]
    case Closing => [PumpClose, PumpUnsubscribe]
    case Unsubscribing => [PumpUnsubscribe]
    case Exited => []
  }

  function SelectExit(h: Handler): seq<Action> {
    match h
    case Looping => [HandlerStop, HandlerCancel, HandlerDisconnect]
    case Leaving => [HandlerCancel, HandlerDisconnect]
    case Disconnecting => [HandlerDisconnect]
    case _ => []
  }

  /** The write or ping under way ends as it will. */
  function HandlerExit(h: Handler, ok: bool): seq<Action> {
    match h
    case Writing(_) => [HandlerWrite(ok)] + SelectExit(if ok then Looping else Leaving)
    case Pinging => [HandlerPing(ok)] + SelectExit(if ok then Looping else Leaving)
    case _ => SelectExit(h)
  }

  function ReaderExit(r: Reader): seq<Action> {
    match r
    case Reading => [ReaderFail, ReaderCancel]
    case Cancelling => [ReaderCancel]
    case Gone => []
  }

  lemma {:induction false} RunAppend(s: State, first: seq<Action>, second: seq<Action>)
    requires Run(s, first).Some?
    ensures Run(s, first + second) == Run(Run(s, first).value, second)
    decreases |second|
  {
    if second == [] {
      assert first + second == first;
    } else {
      var init := second[..|second| - 1];
      RunAppend(s, first, init);
      assert (first + second)[..|first + second| - 1] == first + init;
    }
  }

  lemma Snoc(s: State, actions: seq<Action>, a: Action, all: seq<Action>)
    requires Run(s, actions).Some? && Enabled(Run(s, actions).value, a) && all == actions + [a]
    ensures Run(s, all) == Some(Apply(Run(s, actions).value, a))
  {
    assert all[..|all| - 1] == actions;
  }

  lemma One(s: State, a: Action)
    requires Enabled(s, a)
    ensures Run(s, [a]) == Some(Apply(s, a))
  {
    Snoc(s, [], a, [a]);
  }

  lemma Two(s: State, a: Action, b: Action)
    requires Enabled(s, a) && Enabled(Apply(s, a), b)
    ensures Run(s, [a, b]) == Some(Apply(Apply(s, a), b))
  {
    One(s, a);
    Snoc(s, [a], b, [a, b]);
  }

  lemma Three(s: State, a: Action, b: Action, c: Action)
    requires Enabled(s, a) && Enabled(Apply(s, a), b) && Enabled(Apply(Apply(s, a), b), c)
    ensures Run(s, [a, b, c]) == Some(Apply(Apply(Apply(s, a), b), c))
  {
    Two(s, a, b);
    Snoc(s, [a, b], c, [a, b, c]);
  }

  lemma PumpExits(s: State)
    requires s.cancelled
    ensures var t := Run(s, PumpExit(s.pump));
      t.Some? && t.value.pump.Exited? && t.value.cancelled && t.value.handler == s.handler && t.value.reader == s.reader
  {
    match s.pump {
      case Outer => Three(s, PumpStop, PumpClose, PumpUnsubscribe);
      case Sending(_) => Three(s, PumpStop, PumpClose, PumpUnsubscribe);
      case Closing => Two(s, PumpClose, PumpUnsubscribe);
      case Unsubscribing => One(s, PumpUnsubscribe);
      case Exited =>
    }
  }

  lemma HandlerLeaves(s: State)
    requires s.cancelled && !s.handler.Writing? && !s.handler.Pinging?
    ensures var t := Run(s, SelectExit(s.handler));
      t.Some? && t.value.handler.Returned? && t.value.cancelled && t.value.pump == s.pump && t.value.reader == s.reader
  {
    match s.handler {
      case Looping => Three(s, HandlerStop, HandlerCancel, HandlerDisconnect);
      case Leaving => Two(s, HandlerCancel, HandlerDisconnect);
      case Disconnecting => One(s, HandlerDisconnect);
      case Returned =>
    }
  }

  lemma HandlerExits(s: State, ok: bool)
    requires s.cancelled
    ensures var t := Run(s, HandlerExit(s.handler, ok));
      t.Some? && t.value.handler.Returned? && t.value.cancelled && t.value.pump == s.pump && t.value.reader == s.reader
  {
    if s.handler.Writing? || s.handler.Pinging? {
      var a := if s.handler.Writing? then HandlerWrite(ok) else HandlerPing(ok);
      One(s, a);
      var t := Apply(s, a);
      HandlerLeaves(t);
      RunAppend(s, [a], SelectExit(t.handler));
    } else {
      HandlerLeaves(s);
    }
  }

  lemma ReaderExits(s: State)
    ensures var t := Run(s, ReaderExit(s.reader));
      t.Some? && t.value.reader.Gone? && t.value.pump == s.pump && t.value.handler == s.handler
      && (s.cancelled ==> t.value.cancelled)
  {
    match s.reader {
      case Reading => Two(s, ReaderFail, ReaderCancel);
      case Cancelling => One(s, ReaderCancel);
      case Gone =>
    }
  }

  /** From any state in which the context is cancelled, which is so in particular once the handler has
      returned, all three goroutines can end within nine steps of their own, whether the write or ping under way
      succeeds or fails. */
  lemma NoGoroutineIsLeft(s: State, ok: bool) returns (actions: seq<Action>)
    requires Reachable(s) && (s.cancelled || s.handler.Returned?)
    ensures |actions| <= 9 && Run(s, actions).Some?
    ensures s.handler.Writing? ==> HandlerWrite(ok) in actions
    ensures s.handler.Pinging? ==> HandlerPing(ok) in actions
    ensures var t := Run(s, actions).value;
      t.pump.Exited? && t.handler.Returned? && t.reader.Gone? && t.closes == 1
  {
    ReachableInv(s);
    PumpExits(s);
    var t1 := Run(s, PumpExit(s.pump)).value;
    HandlerExits(t1, ok);
    var t2 := Run(t1, HandlerExit(t1.handler, ok)).value;
    ReaderExits(t2);
    var way := HandlerExit(t1.handler, ok);
    assert s.handler.Writing? || s.handler.Pinging? ==> way[0] in way;
    actions := PumpExit(s.pump) + way + ReaderExit(t2.reader);
    RunAppend(s, PumpExit(s.pump), way);
    RunAppend(s, PumpExit(s.pump) + way, ReaderExit(t2.reader));
    RunInv(s, actions);
  }

  /** A request that ends, or a client that goes away, in whatever state, lets all three goroutines end. */
  lemma EitherEndEndsAll(s: State, ok: bool, gone: bool) returns (actions: seq<Action>)
    requires Reachable(s) && (gone ==> s.reader.Reading?)
    ensures |actions| <= 11 && Run(s, actions).Some?
    ensures actions != [] && actions[0] == if gone then ReaderFail else CancelRequest
    ensures var t := Run(s, actions).value;
      t.pump.Exited? && t.handler.Returned? && t.reader.Gone? && t.closes == 1
  {
    var ends := if gone then [ReaderFail, ReaderCancel] else [CancelRequest];
    if gone {
      Two(s, ReaderFail, ReaderCancel);
    } else {
      One(s, CancelRequest);
    }
    var t := Run(s, ends).value;
    StillReachable(s, ends);
    var rest := NoGoroutineIsLeft(t, ok);
    RunAppend(s, ends, rest);
    actions := ends + rest;
  }

  lemma StillReachable(s: State, more: seq<Action>)
    requires Reachable(s) && Run(s, more).Some?
    ensures Reachable(Run(s, more).value)
  {
    var actions, citizen, broadcasts :| Run(Start(citizen, broadcasts), actions) == Some(s);
    RunAppend(Start(citizen, broadcasts), actions, more);
  }

  // ---- What is received can be written ----

  /** The posts among the broadcasts at these positions: what survives the decoding. */
  function Decodable(broadcasts: seq<Broadcast>, taken: seq<nat>): seq<nat> {
    if taken == [] then []
    else
      var m := taken[|taken| - 1];
      Decodable(broadcasts, taken[..|taken| - 1])
      + if m < |broadcasts| && broadcasts[m].Posted? then [m] else []
  }

  lemma DecodableSnoc(broadcasts: seq<Broadcast>, taken: seq<nat>, m: nat)
    requires m < |broadcasts|
    ensures Decodable(broadcasts, taken + [m])
         == Decodable(broadcasts, taken) + if broadcasts[m].Posted? then [m] else []
  {
    assert (taken + [m])[..|taken|] == taken;
  }

  lemma {:induction false} DecodableOfConcat(broadcasts: seq<Broadcast>, xs: seq<nat>, ys: seq<nat>)
    ensures Decodable(broadcasts, xs + ys) == Decodable(broadcasts, xs) + Decodable(broadcasts, ys)
    decreases |ys|
  {
    if ys == [] {
      assert xs + ys == xs;
    } else {
      var all := xs + ys;
      DecodableOfConcat(broadcasts, xs, ys[..|ys| - 1]);
      assert all[..|all| - 1] == xs + ys[..|ys| - 1];
    }
  }

  lemma DecodableOfCons(broadcasts: seq<Broadcast>, m: nat, rest: seq<nat>)
    requires m < |broadcasts|
    ensures Decodable(broadcasts, [m] + rest)
         == (if broadcasts[m].Posted? then [m] else []) + Decodable(broadcasts, rest)
  {
    DecodableOfConcat(broadcasts, [m], rest);
    DecodableSnoc(broadcasts, [], m);
    assert [] + [m] == [m];
  }

  /** What the connection has still to write, if it stops for nothing but the end of the subscription. */
  function Due(s: State): seq<nat> {
    Sendable(s) + if s.pump.Outer? || s.pump.Sending? then Decodable(s.broadcasts, s.inbox) else []
  }

  /** The next step, if the handler has precedence. */
  function NextStep(s: State): Action
    requires s.handler.Looping? || s.handler.Writing? || s.handler.Pinging?
  {
    if s.handler.Writing? then HandlerWrite(true)
    else if s.handler.Pinging? then HandlerPing(true)
    else if s.buffer != [] then HandlerReceive
    else
      match s.pump
      case Outer => if s.inbox != [] then PumpTake else PumpEnd
      case Sending(_) => PumpSend
      case Closing => PumpClose
      case Unsubscribing => PumpUnsubscribe
      case Exited => HandlerEnd
  }

  /** How many such steps there are at most. */
  function StepsDue(s: State): nat {
    4 * |s.inbox| + 2 * |s.buffer|
    + (match s.handler case Writing(_) => 2 case Pinging => 2 case Looping => 1 case _ => 0)
    + match s.pump
      case Outer => 3
      case Sending(_) => 6
      case Closing => 2
      case Unsubscribing => 1
      case Exited => 0
  }

  ghost predicate CanGoOn(s: State) {
    FlowInv(s) && ChannelInv(s) && s.dropped && (s.handler.Looping? || s.handler.Writing? || s.handler.Pinging?)
  }

  lemma NextIsEnabled(s: State)
    requires CanGoOn(s)
    ensures Enabled(s, NextStep(s))
  {
    if s.inbox != [] {
      assert s.inbox[0] in Pipeline(s);
    }
  }

  lemma DueSplits(broadcasts: seq<Broadcast>, front: seq<nat>, m: nat, rest: seq<nat>)
    requires m < |broadcasts|
    ensures front + Decodable(broadcasts, [m] + rest)
         == (if broadcasts[m].Posted? then front + [m] else front) + Decodable(broadcasts, rest)
  {
    DecodableOfCons(broadcasts, m, rest);
    if !broadcasts[m].Posted? {
      assert [] + Decodable(broadcasts, rest) == Decodable(broadcasts, rest);
    }
  }

  lemma TakeKeepsDue(s: State)
    requires Enabled(s, PumpTake)
    ensures Due(Apply(s, PumpTake)) == Due(s)
  {
    assert s.inbox == [s.inbox[0]] + s.inbox[1..];
    TakeMoves(s);
    DueSplits(s.broadcasts, Sendable(s), s.inbox[0], s.inbox[1..]);
  }

  lemma NextStandsStill(s: State)
    requires CanGoOn(s) && Enabled(s, NextStep(s)) && NextStep(s) != PumpTake
    ensures IsMove(NextStep(s)) || IsAside(NextStep(s))
    ensures var t := Apply(s, NextStep(s));
      && t.broadcasts == s.broadcasts
      && (s.inbox != [] ==> ((t.pump.Outer? || t.pump.Sending?) <==> (s.pump.Outer? || s.pump.Sending?)))
  {
  }

  lemma NextKeepsDue(s: State)
    requires CanGoOn(s) && Enabled(s, NextStep(s))
    ensures Due(Apply(s, NextStep(s))) == Due(s)
  {
    if NextStep(s) == PumpTake {
      TakeKeepsDue(s);
    } else {
      NextStandsStill(s);
      RestKeepsPipeline(s, NextStep(s));
    }
  }

  lemma NextIsOneLess(s: State)
    requires CanGoOn(s) && Enabled(s, NextStep(s))
    ensures var t := Apply(s, NextStep(s));
      && StepsDue(t) < StepsDue(s) && t.dropped
      && (NextStep(s) != HandlerEnd ==> t.handler.Looping? || t.handler.Writing? || t.handler.Pinging?)
      && (NextStep(s) == HandlerEnd ==> t.handler.Leaving? && t.pump.Exited? && t.buffer == [])
  {
  }

  /** Step after step, up to the end of the handler's loop. */
  lemma {:induction false} Flush(s: State) returns (actions: seq<Action>)
    requires CanGoOn(s)
    ensures |actions| <= StepsDue(s) && Run(s, actions).Some?
    ensures var t := Run(s, actions).value;
      t.pump.Exited? && t.handler.Leaving? && t.written == Due(s)
    decreases StepsDue(s)
  {
    var a := NextStep(s);
    NextIsEnabled(s);
    NextKeepsDue(s);
    NextIsOneLess(s);
    One(s, a);
    var t := Apply(s, a);
    if a == HandlerEnd {
      actions := [a];
    } else {
      RunInv(s, [a]);
      var rest := Flush(t);
      RunAppend(s, [a], rest);
      actions := [a] + rest;
    }
  }

  /** When the subscription ends by itself, before pump or handler has begun to end, nothing received has to be
      lost: with the socket taking what is written, all of it that can be decoded can still be written, before they
      end. */
  lemma AllCanBeWritten(s: State) returns (actions: seq<Action>)
    requires Reachable(s) && (s.pump.Outer? || s.pump.Sending?)
    requires s.handler.Looping? || s.handler.Writing? || s.handler.Pinging?
    ensures |actions| <= 4 * |s.inbox| + 42 && Run(s, [DropSubscription] + actions).Some?
    ensures var t := Run(s, [DropSubscription] + actions).value;
      && t.written == Sendable(s) + Decodable(s.broadcasts, s.inbox)
      && t.pump.Exited? && t.handler.Returned?
  {
    var t := Apply(s, DropSubscription);
    One(s, DropSubscription);
    ReachableInv(s);
    RunInv(s, [DropSubscription]);
    var flushing := Flush(t);
    var u := Run(t, flushing).value;
    Two(u, HandlerCancel, HandlerDisconnect);
    RunAppend(t, flushing, [HandlerCancel, HandlerDisconnect]);
    actions := flushing + [HandlerCancel, HandlerDisconnect];
    RunAppend(s, [DropSubscription], actions);
  }

  /** A subscription that ends by itself ends the connection too: the handler, when it comes to its
      select, either still has a message to write or finds the channel closed. */
  lemma ClosedChannelIsSeen(s: State)
    requires Reachable(s) && s.pump.Exited? && s.handler.Looping?
    ensures Enabled(s, HandlerReceive) || Enabled(s, HandlerEnd)
  {
    ReachableInv(s);
  }
}
