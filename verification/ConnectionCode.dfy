/** The loops of the pump and of the WebSocket handler as they are written, over the objects they share: the
    subscription, the channel, the context and the socket. Each is proved, with the rest of the connection at
    work between its steps, to do what the connection's transition system allows. */
module ConnectionCode {
  import opened Domain
  import C = Connection

  /** One evaluation of a select: what everybody else does before it comes to a result, and, if the context is
      done by then and something else is ready too, whether the context is what it picks. */
  datatype PumpTurn = PumpTurn(others: seq<C.Action>, pickDone: bool)

  /** What the handler's select picks when it is ready, the context apart; what others do while the handler
      writes, and how the write goes. */
  datatype Pick = Message | Tick

  datatype HandlerTurn = HandlerTurn(
    others: seq<C.Action>, pickDone: bool, pick: Pick, during: seq<C.Action>, ok: bool)

  predicate IsHandler(a: C.Action) {
    || a.HandlerReceive? || a.HandlerWrite? || a.HandlerEnd? || a.HandlerStop? || a.HandlerTick?
    || a.HandlerPing? || a.HandlerCancel? || a.HandlerDisconnect?
  }

  /** `actions` lead from `s` to `t`. */
  ghost predicate Leads(s: C.State, actions: seq<C.Action>, t: C.State) {
    C.Run(s, actions) == Some(t)
  }

  /** What has been done since `before` is what `a` does. */
  lemma Follow(start: C.State, past: seq<C.Action>, before: C.State, a: C.Action, after: C.State)
    requires Leads(start, past, before) && C.Reachable(before)
    requires C.Enabled(before, a) && after == C.Apply(before, a)
    ensures Leads(start, past + [a], after) && C.Reachable(after)
    ensures C.PumpSteps(past + [a]) == C.PumpSteps(past) + if C.IsPump(a) then 1 else 0
  {
    C.Snoc(start, past, a, past + [a]);
    C.PumpStepsSnoc(past, a);
    var actions, citizen, broadcasts :| C.Run(C.Start(citizen, broadcasts), actions) == Some(before);
    C.Snoc(C.Start(citizen, broadcasts), actions, a, actions + [a]);
  }

  /** `xs` is what is left of `ys` when some of its first elements are gone. */
  predicate Remains(xs: seq<nat>, ys: seq<nat>) {
    |xs| <= |ys| && xs == ys[|ys| - |xs|..]
  }

  lemma RemainsOn(xs: seq<nat>, ys: seq<nat>, zs: seq<nat>)
    requires Remains(xs, ys) && Remains(ys, zs)
    ensures Remains(xs, zs)
  {
  }

  /** Of `others`, each in turn takes its step if it can and the step is not one of ours. */
  function Around(s: C.State, others: seq<C.Action>, ours: C.Action -> bool): C.State {
    if others == [] then s
    else
      var t, a := Around(s, others[..|others| - 1], ours), others[|others| - 1];
      if C.Enabled(t, a) && !ours(a) then C.Apply(t, a) else t
  }

  /** What the pump can rely on: others append to what it reads and take from what it writes. */
  predicate AroundPump(s: C.State, t: C.State) {
    && t.pump == s.pump && t.closed == s.closed && t.closes == s.closes
    && s.inbox <= t.inbox && Remains(t.buffer, s.buffer)
    && s.broadcasts <= t.broadcasts && (s.cancelled ==> t.cancelled)
  }

  /** And the handler. */
  predicate AroundHandler(s: C.State, t: C.State) {
    && t.handler == s.handler && t.open == s.open && t.written == s.written
    && s.buffer <= t.buffer && (s.cancelled ==> t.cancelled)
  }

  lemma CarryAround(s: C.State, b: C.Broadcast, received: bool)
    ensures AroundPump(s, C.Carry(s, b, received)) && AroundHandler(s, C.Carry(s, b, received))
  {
  }

  lemma ReceiveAroundPump(s: C.State)
    requires C.Enabled(s, C.HandlerReceive)
    ensures AroundPump(s, C.Apply(s, C.HandlerReceive))
  {
    assert Remains(s.buffer[1..], s.buffer);
  }

  lemma RestAroundPump(s: C.State, a: C.Action)
    requires C.Enabled(s, a) && !C.IsPump(a) && !a.Announce? && !a.MakeNoise? && !a.HandlerReceive?
    ensures var t := C.Apply(s, a);
      && t.pump == s.pump && t.closed == s.closed && t.closes == s.closes
      && t.inbox == s.inbox && t.buffer == s.buffer && t.broadcasts == s.broadcasts
      && (s.cancelled ==> t.cancelled)
  {
  }

  lemma OtherAroundPump(s: C.State, a: C.Action)
    requires C.Enabled(s, a) && !C.IsPump(a)
    ensures AroundPump(s, C.Apply(s, a))
  {
    match a {
      case Announce(post, received) => CarryAround(s, C.Posted(post), received);
      case MakeNoise(channel, received) => CarryAround(s, C.Noise(channel), received);
      case HandlerReceive => ReceiveAroundPump(s);
      case _ => RestAroundPump(s, a);
    }
  }

  lemma OthersAroundPump(s: C.State, t: C.State, a: C.Action)
    requires AroundPump(s, t) && C.Enabled(t, a) && !C.IsPump(a)
    ensures AroundPump(s, C.Apply(t, a))
  {
    OtherAroundPump(t, a);
    RemainsOn(C.Apply(t, a).buffer, t.buffer, s.buffer);
  }

  lemma OtherAroundHandler(s: C.State, a: C.Action)
    requires C.Enabled(s, a) && !IsHandler(a)
    ensures AroundHandler(s, C.Apply(s, a))
  {
    match a {
      case Announce(post, received) => CarryAround(s, C.Posted(post), received);
      case MakeNoise(channel, received) => CarryAround(s, C.Noise(channel), received);
      case PumpSend =>
      case _ =>
    }
  }

  lemma OthersAroundHandler(s: C.State, t: C.State, a: C.Action)
    requires AroundHandler(s, t) && C.Enabled(t, a) && !IsHandler(a)
    ensures AroundHandler(s, C.Apply(t, a))
  {
    OtherAroundHandler(t, a);
  }

  lemma SameConnection(s: C.State, a: C.Action)
    requires C.Enabled(s, a)
    ensures C.Apply(s, a).citizen == s.citizen && C.Apply(s, a).since == s.since
  {
    match a {
      case Announce(post, received) => CarriedConnection(s, C.Posted(post), received);
      case MakeNoise(channel, received) => CarriedConnection(s, C.Noise(channel), received);
      case _ =>
    }
  }

  lemma CarriedConnection(s: C.State, b: C.Broadcast, received: bool)
    ensures C.Carry(s, b, received).citizen == s.citizen && C.Carry(s, b, received).since == s.since
  {
  }

  lemma {:induction false} DecodableStays(broadcasts: seq<C.Broadcast>, more: seq<C.Broadcast>, taken: seq<nat>)
    requires broadcasts <= more && forall m :: m in taken ==> m < |broadcasts|
    ensures C.Decodable(more, taken) == C.Decodable(broadcasts, taken)
  {
    if taken == [] {
    } else {
      var init := taken[..|taken| - 1];
      assert forall m :: m in init ==> m in taken;
      DecodableStays(broadcasts, more, init);
      assert taken[|taken| - 1] in taken;
    }
  }

  /** What the goroutines of a connection share, and where each of them is. */
  class Shared {
    const citizen: Bytes
    const since: nat
    // the subscription
    var broadcasts: seq<C.Broadcast>
    var inbox: seq<nat>
    var dropped: bool
    // the channel
    var buffer: seq<nat>
    var closed: bool
    var closes: nat
    // the context and the socket
    var done: bool
    var open: bool
    var written: seq<nat>
    // the goroutines
    var pumpAt: C.Pump
    var handlerAt: C.Handler
    var readerAt: C.Reader

    constructor (citizen: Bytes, broadcasts: seq<C.Broadcast>)
      ensures Abs() == C.Start(citizen, broadcasts) && Valid()
    {
      this.citizen, this.since, this.broadcasts := citizen, |broadcasts|, broadcasts;
      inbox, dropped := [], false;
      buffer, closed, closes := [], false, 0;
      done, open, written := false, true, [];
      pumpAt, handlerAt, readerAt := C.Outer, C.Looping, C.Reading;
      new;
      assert C.Run(C.Start(citizen, broadcasts), []) == Some(Abs());
    }

    /** The state of the transition system that these objects are in. */
    function Abs(): C.State
      reads this
    {
      C.State(citizen, broadcasts, since, inbox, dropped, pumpAt, buffer, closed, closes, handlerAt, readerAt,
              done, open, written)
    }

    ghost predicate Valid()
      reads this
    {
      C.Reachable(Abs())
    }

    /** A send into a channel that is open, or the program would panic, and has a free slot. */
    method Send(m: nat)
      requires !closed && |buffer| < C.SLOTS
      modifies `buffer
      ensures buffer == old(buffer) + [m]
    {
      buffer := buffer + [m];
    }

    /** Closing the channel: a second time would panic. */
    method Close()
      requires !closed
      modifies `closed, `closes
      ensures closed && closes == old(closes) + 1
    {
      closed, closes := true, closes + 1;
    }

    /** A receive from the channel. */
    method Receive() returns (m: nat)
      requires buffer != []
      modifies `buffer
      ensures old(buffer) == [m] + buffer
    {
      m, buffer := buffer[0], buffer[1..];
    }

    /** A receive from the subscription. */
    method Take() returns (m: nat)
      requires inbox != []
      modifies `inbox
      ensures old(inbox) == [m] + inbox
    {
      m, inbox := inbox[0], inbox[1..];
    }

    method WriteOut(m: nat, ok: bool)
      requires open
      modifies `written
      ensures written == old(written) + if ok then [m] else []
    {
      if ok {
        written := written + [m];
      }
    }

    /** Somebody else's step. */
    method Other(a: C.Action, ghost start: C.State, ghost past: seq<C.Action>)
      requires Valid() && Leads(start, past, Abs()) && C.Enabled(Abs(), a)
      modifies this
      ensures Valid() && Leads(start, past + [a], Abs()) && Abs() == C.Apply(old(Abs()), a)
      ensures C.PumpSteps(past + [a]) == C.PumpSteps(past) + if C.IsPump(a) then 1 else 0
    {
      var t := C.Apply(Abs(), a);
      SameConnection(Abs(), a);
      Follow(start, past, Abs(), a, t);
      broadcasts, inbox, dropped := t.broadcasts, t.inbox, t.dropped;
      buffer, closed, closes := t.buffer, t.closed, t.closes;
      done, open, written := t.cancelled, t.open, t.written;
      pumpAt, handlerAt, readerAt := t.pump, t.handler, t.reader;
      assert Abs() == t;
    }

    /** Everybody but the pump does what of `others` can be done. */
    method AllButPump(others: seq<C.Action>, ghost start: C.State, ghost past: seq<C.Action>)
      returns (ghost trace: seq<C.Action>)
      requires Valid() && Leads(start, past, Abs())
      modifies this
      ensures Valid() && Leads(start, trace, Abs()) && AroundPump(old(Abs()), Abs())
      ensures Abs() == Around(old(Abs()), others, C.IsPump)
      ensures C.PumpSteps(trace) == C.PumpSteps(past)
      ensures others == [] ==> trace == past
    {
      trace := past;
      for i := 0 to |others|
        invariant Valid() && Leads(start, trace, Abs()) && AroundPump(old(Abs()), Abs())
        invariant Abs() == Around(old(Abs()), others[..i], C.IsPump)
        invariant C.PumpSteps(trace) == C.PumpSteps(past)
        invariant i == 0 ==> trace == past
      {
        assert others[..i + 1][..i] == others[..i];
        if C.Enabled(Abs(), others[i]) && !C.IsPump(others[i]) {
          OthersAroundPump(old(Abs()), Abs(), others[i]);
          Other(others[i], start, trace);
          trace := trace + [others[i]];
        }
      }
      assert others[..|others|] == others;
    }

    /** Everybody but the handler. */
    method AllButHandler(others: seq<C.Action>, ghost start: C.State, ghost past: seq<C.Action>)
      returns (ghost trace: seq<C.Action>)
      requires Valid() && Leads(start, past, Abs())
      modifies this
      ensures Valid() && Leads(start, trace, Abs()) && AroundHandler(old(Abs()), Abs())
      ensures Abs() == Around(old(Abs()), others, IsHandler)
      ensures others == [] ==> trace == past
    {
      trace := past;
      for i := 0 to |others|
        invariant Valid() && Leads(start, trace, Abs()) && AroundHandler(old(Abs()), Abs())
        invariant Abs() == Around(old(Abs()), others[..i], IsHandler)
        invariant i == 0 ==> trace == past
      {
        assert others[..i + 1][..i] == others[..i];
        if C.Enabled(Abs(), others[i]) && !IsHandler(others[i]) {
          OthersAroundHandler(old(Abs()), Abs(), others[i]);
          Other(others[i], start, trace);
          trace := trace + [others[i]];
        }
      }
      assert others[..|others|] == others;
    }
  }

  // ---- The pump ----

  /** How the outer select ends: with a message to send on or to skip, with the end of the loop, or not yet. */
  datatype Chosen = Took(m: nat) | Skipped(m: nat) | Stopped | Nothing {
    function Messages(): seq<nat> {
      match this
      case Took(m) => [m]
      case Skipped(m) => [m]
      case _ => []
    }
  }

  /** How the inner select ends: with the message sent, with the end of the loop, or not yet. */
  datatype Outcome = Sent | Ended | Waiting

  /** What has become of the pump's surroundings, apart from what it sent itself. */
  predicate PumpSees(s: C.State, t: C.State, sent: seq<nat>) {
    && Remains(t.buffer, s.buffer + sent)
    && s.broadcasts <= t.broadcasts && (s.cancelled ==> t.cancelled)
  }

  /** The pump takes one step. */
  predicate OneMore(past: seq<C.Action>, trace: seq<C.Action>) {
    |trace| == |past| + 1 && C.PumpSteps(trace) == C.PumpSteps(past) + 1
  }

  /** Nothing but the pump's own steps has happened in between. */
  predicate OnlyPump(past: seq<C.Action>, trace: seq<C.Action>) {
    |trace| - |past| == C.PumpSteps(trace) - C.PumpSteps(past)
  }

  lemma AroundIsSeen(s: C.State, t: C.State, u: C.State)
    requires AroundPump(s, t) && u.buffer == t.buffer && u.broadcasts == t.broadcasts && u.cancelled == t.cancelled
    ensures PumpSees(s, u, [])
  {
    assert s.buffer + [] == s.buffer;
  }

  /** The loop ends, because the context is done or the subscription is over. */
  method StopPump(conn: Shared, why: C.Action, ghost start: C.State, ghost past: seq<C.Action>)
    returns (ghost trace: seq<C.Action>)
    requires conn.Valid() && Leads(start, past, conn.Abs())
    requires why in {C.PumpStop, C.PumpEnd} && C.Enabled(conn.Abs(), why)
    modifies conn`pumpAt
    ensures conn.Valid() && Leads(start, trace, conn.Abs()) && conn.pumpAt == C.Closing
    ensures OneMore(past, trace)
  {
    ghost var before := conn.Abs();
    conn.pumpAt := C.Closing;
    Follow(start, past, before, why, conn.Abs());
    trace := past + [why];
  }

  /** A message of the subscription is taken and decoded. */
  method TakeOne(conn: Shared, ghost start: C.State, ghost past: seq<C.Action>)
    returns (c: Chosen, ghost trace: seq<C.Action>)
    requires conn.Valid() && Leads(start, past, conn.Abs()) && conn.pumpAt == C.Outer && conn.inbox != []
    modifies conn`inbox, conn`pumpAt
    ensures conn.Valid() && Leads(start, trace, conn.Abs())
    ensures old(conn.inbox) == c.Messages() + conn.inbox && (c.Took? || c.Skipped?) && c.m < |conn.broadcasts|
    ensures conn.broadcasts[c.m].Posted? <==> c.Took?
    ensures conn.pumpAt == if c.Took? then C.Sending(c.m) else C.Outer
    ensures C.Enabled(old(conn.Abs()), C.PumpTake) && OneMore(past, trace)
  {
    ghost var before := conn.Abs();
    assert conn.inbox[0] < |conn.broadcasts| by {
      C.ReachableInv(before);
      assert conn.inbox[0] in C.Pipeline(before);
    }
    var m := conn.Take();
    var decoded := conn.broadcasts[m].Posted?;
    conn.pumpAt := if decoded then C.Sending(m) else C.Outer;
    Follow(start, past, before, C.PumpTake, conn.Abs());
    return if decoded then Took(m) else Skipped(m), past + [C.PumpTake];
  }

  /** The message in hand goes into the channel. */
  method SendOn(conn: Shared, m: nat, ghost start: C.State, ghost past: seq<C.Action>)
    returns (ghost trace: seq<C.Action>)
    requires conn.Valid() && Leads(start, past, conn.Abs())
    requires conn.pumpAt == C.Sending(m) && |conn.buffer| < C.SLOTS
    modifies conn`buffer, conn`pumpAt
    ensures conn.Valid() && Leads(start, trace, conn.Abs())
    ensures conn.pumpAt == C.Outer && conn.buffer == old(conn.buffer) + [m] && OneMore(past, trace)
  {
    ghost var before := conn.Abs();
    assert !conn.closed by {
      C.ReachableInv(before);
    }
    conn.Send(m);
    conn.pumpAt := C.Outer;
    Follow(start, past, before, C.PumpSend, conn.Abs());
    trace := past + [C.PumpSend];
  }

  /** What the outer select finds: the end of the context, a message of the subscription, or its end. */
  method Choose(conn: Shared, pickDone: bool, ghost start: C.State, ghost past: seq<C.Action>)
    returns (c: Chosen, ghost trace: seq<C.Action>)
    requires conn.Valid() && Leads(start, past, conn.Abs()) && conn.pumpAt == C.Outer
    modifies conn`inbox, conn`pumpAt
    ensures conn.Valid() && Leads(start, trace, conn.Abs())
    ensures conn.pumpAt == match c case Took(m) => C.Sending(m) case Stopped => C.Closing case _ => C.Outer
    ensures old(conn.inbox) == c.Messages() + conn.inbox
    ensures c.Took? || c.Skipped? ==> c.m < |conn.broadcasts| && (conn.broadcasts[c.m].Posted? <==> c.Took?)
    ensures conn.done && pickDone ==> c == Stopped
    ensures c == Nothing <==> C.PumpIdle(old(conn.Abs()))
    ensures if c == Nothing then trace == past else OneMore(past, trace)
  {
    if conn.done && (pickDone || (conn.inbox == [] && !conn.dropped)) {
      c := Stopped;
      trace := StopPump(conn, C.PumpStop, start, past);
    } else if conn.inbox != [] {
      c, trace := TakeOne(conn, start, past);
    } else if conn.dropped {
      c := Stopped;
      trace := StopPump(conn, C.PumpEnd, start, past);
    } else {
      c, trace := Nothing, past;
    }
  }

  /** The outer select, once: a message is taken if one is there, unless the context is done. */
  method OuterSelect(conn: Shared, w: PumpTurn, ghost start: C.State, ghost past: seq<C.Action>)
    returns (c: Chosen, ghost trace: seq<C.Action>)
    requires conn.Valid() && Leads(start, past, conn.Abs()) && conn.pumpAt == C.Outer
    modifies conn
    ensures conn.Valid() && Leads(start, trace, conn.Abs()) && PumpSees(old(conn.Abs()), conn.Abs(), [])
    ensures conn.pumpAt == match c case Took(m) => C.Sending(m) case Stopped => C.Closing case _ => C.Outer
    ensures old(conn.inbox) <= c.Messages() + conn.inbox
    ensures c.Took? || c.Skipped? ==> c.m < |conn.broadcasts| && (conn.broadcasts[c.m].Posted? <==> c.Took?)
    ensures old(conn.done) && w.pickDone ==> c == Stopped
    ensures c == Nothing ==> C.PumpIdle(conn.Abs())
    ensures C.PumpSteps(trace) == C.PumpSteps(past) + if c == Nothing then 0 else 1
    ensures w.others == [] ==> OnlyPump(past, trace) && (C.PumpIdle(old(conn.Abs())) ==> c == Nothing)
  {
    ghost var s := conn.Abs();
    trace := conn.AllButPump(w.others, start, past);
    ghost var t := conn.Abs();
    c, trace := Choose(conn, w.pickDone, start, trace);
    AroundIsSeen(s, t, conn.Abs());
  }

  /** The inner select, once: the message in hand goes into the channel, or the context is done. */
  method InnerSelect(conn: Shared, m: nat, pickDone: bool, ghost start: C.State, ghost past: seq<C.Action>)
    returns (outcome: Outcome, ghost trace: seq<C.Action>)
    requires conn.Valid() && Leads(start, past, conn.Abs()) && conn.pumpAt == C.Sending(m)
    modifies conn`buffer, conn`pumpAt
    ensures conn.Valid() && Leads(start, trace, conn.Abs())
    ensures conn.buffer == old(conn.buffer) + if outcome == Sent then [m] else []
    ensures conn.pumpAt == match outcome case Sent => C.Outer case Ended => C.Closing case Waiting => C.Sending(m)
    ensures outcome == Waiting <==> C.PumpIdle(old(conn.Abs()))
    ensures conn.done && pickDone ==> outcome == Ended
    ensures if outcome == Waiting then trace == past else OneMore(past, trace)
  {
    assert |conn.buffer| <= C.SLOTS by {
      C.ReachableInv(conn.Abs());
    }
    trace := past;
    if conn.done && (pickDone || |conn.buffer| == C.SLOTS) {
      outcome := Ended;
      trace := StopPump(conn, C.PumpStop, start, past);
    } else if |conn.buffer| < C.SLOTS {
      outcome := Sent;
      trace := SendOn(conn, m, start, past);
    } else {
      outcome := Waiting;
    }
  }

  lemma SeesOn(s: C.State, t: C.State, u: C.State, first: seq<nat>, second: seq<nat>)
    requires PumpSees(s, t, first) && PumpSees(t, u, second)
    ensures PumpSees(s, u, first + second)
  {
    assert s.buffer + (first + second) == s.buffer + first + second;
  }

  /** The first deferred call of the pump. */
  method CloseChannel(conn: Shared, ghost start: C.State, ghost past: seq<C.Action>)
    returns (ghost trace: seq<C.Action>)
    requires conn.Valid() && Leads(start, past, conn.Abs()) && conn.pumpAt == C.Closing
    modifies conn`closed, conn`closes, conn`pumpAt
    ensures conn.Valid() && Leads(start, trace, conn.Abs())
    ensures conn.pumpAt == C.Unsubscribing && conn.closed && conn.closes == 1 && OneMore(past, trace)
  {
    ghost var before := conn.Abs();
    assert !conn.closed && conn.closes == 0 by {
      C.ReachableInv(before);
    }
    conn.Close();
    conn.pumpAt := C.Unsubscribing;
    Follow(start, past, before, C.PumpClose, conn.Abs());
    trace := past + [C.PumpClose];
  }

  /** The second one. */
  method Unsubscribe(conn: Shared, ghost start: C.State, ghost past: seq<C.Action>)
    returns (ghost trace: seq<C.Action>)
    requires conn.Valid() && Leads(start, past, conn.Abs()) && conn.pumpAt == C.Unsubscribing
    modifies conn`dropped, conn`pumpAt
    ensures conn.Valid() && Leads(start, trace, conn.Abs())
    ensures conn.pumpAt == C.Exited && conn.dropped && OneMore(past, trace)
  {
    ghost var before := conn.Abs();
    conn.dropped := true;
    conn.pumpAt := C.Exited;
    Follow(start, past, before, C.PumpUnsubscribe, conn.Abs());
    trace := past + [C.PumpUnsubscribe];
  }

  /** With others at work before it. */
  method UnsubscribeAfter(conn: Shared, between: seq<C.Action>, ghost start: C.State, ghost past: seq<C.Action>)
    returns (ghost trace: seq<C.Action>)
    requires conn.Valid() && Leads(start, past, conn.Abs()) && conn.pumpAt == C.Unsubscribing
    modifies conn
    ensures conn.Valid() && Leads(start, trace, conn.Abs()) && PumpSees(old(conn.Abs()), conn.Abs(), [])
    ensures conn.pumpAt == C.Exited && conn.closed == old(conn.closed) && conn.closes == old(conn.closes)
    ensures old(conn.inbox) <= conn.inbox
    ensures between == [] ==> OnlyPump(past, trace)
  {
    ghost var s := conn.Abs();
    trace := conn.AllButPump(between, start, past);
    ghost var t := conn.Abs();
    trace := Unsubscribe(conn, start, trace);
    AroundIsSeen(s, t, conn.Abs());
  }

  method PumpDefers(conn: Shared, between: seq<C.Action>, ghost start: C.State, ghost past: seq<C.Action>)
    returns (ghost trace: seq<C.Action>)
    requires conn.Valid() && Leads(start, past, conn.Abs()) && conn.pumpAt == C.Closing
    modifies conn
    ensures conn.Valid() && Leads(start, trace, conn.Abs()) && PumpSees(old(conn.Abs()), conn.Abs(), [])
    ensures conn.pumpAt == C.Exited && conn.closed && conn.closes == 1
    ensures old(conn.inbox) <= conn.inbox
    ensures between == [] ==> OnlyPump(past, trace)
  {
    trace := CloseChannel(conn, start, past);
    trace := UnsubscribeAfter(conn, between, start, trace);
  }

  /** How far the pump has come since `s`: it has taken `taken`, in the order of the subscription, and has sent
      every decodable message of it, in order, but for what it has in hand. */
  ghost predicate Progress(s: C.State, t: C.State, taken: seq<nat>, sent: seq<nat>, inHand: seq<nat>) {
    && PumpSees(s, t, sent)
    && s.inbox <= taken + t.inbox
    && (forall m :: m in taken ==> m < |t.broadcasts|)
    && C.Decodable(t.broadcasts, taken) == sent + inHand
    && |inHand| <= 1
  }

  lemma ProgressByTaking(s: C.State, t: C.State, u: C.State, taken: seq<nat>, sent: seq<nat>, c: Chosen)
    requires Progress(s, t, taken, sent, []) && PumpSees(t, u, []) && t.inbox <= c.Messages() + u.inbox
    requires c.Took? || c.Skipped? ==> c.m < |u.broadcasts| && (u.broadcasts[c.m].Posted? <==> c.Took?)
    ensures Progress(s, u, taken + c.Messages(), sent, if c.Took? then [c.m] else [])
  {
    SeesOn(s, t, u, sent, []);
    DecodableStays(t.broadcasts, u.broadcasts, taken);
    assert s.inbox <= taken + c.Messages() + u.inbox;
    if c.Took? || c.Skipped? {
      C.DecodableSnoc(u.broadcasts, taken, c.m);
    } else {
      assert taken + [] == taken;
    }
  }

  lemma ProgressByWaiting(s: C.State, t: C.State, u: C.State, taken: seq<nat>, sent: seq<nat>, inHand: seq<nat>)
    requires Progress(s, t, taken, sent, inHand) && PumpSees(t, u, []) && t.inbox <= u.inbox
    ensures Progress(s, u, taken, sent, inHand)
  {
    SeesOn(s, t, u, sent, []);
    DecodableStays(t.broadcasts, u.broadcasts, taken);
  }

  /** The progress made with `m`, that has been sent or is still in hand. */
  ghost predicate Offered(s: C.State, t: C.State, taken: seq<nat>, sent: seq<nat>, m: nat, done: bool) {
    Progress(s, t, taken, if done then sent + [m] else sent, if done then [] else [m])
  }

  lemma ProgressBySending(
    s: C.State, t: C.State, mid: C.State, u: C.State, taken: seq<nat>, sent: seq<nat>, m: nat, done: bool)
    requires Progress(s, t, taken, sent, [m]) && AroundPump(t, mid)
    requires u.inbox == mid.inbox && u.broadcasts == mid.broadcasts && u.cancelled == mid.cancelled
    requires u.buffer == mid.buffer + if done then [m] else []
    ensures Offered(s, u, taken, sent, m, done)
  {
    ProgressByWaiting(s, t, mid, taken, sent, [m]);
    SeesOn(s, mid, u, sent, if done then [m] else []);
    assert sent + [] == sent;
  }

  /** Nobody else moves. */
  ghost predicate Still(world: nat -> PumpTurn) {
    forall k :: world(k).others == []
  }

  /** The select that finds the context done picks something else if it can. */
  ghost predicate NeverPicked(world: nat -> PumpTurn, from: nat, to: nat) {
    forall k :: from <= k < to ==> !world(k).pickDone
  }

  /** As many steps as turns, or no further step that could be taken. */
  predicate Advances(s: C.State, past: seq<C.Action>, trace: seq<C.Action>, turns: int) {
    C.PumpSteps(trace) - C.PumpSteps(past) >= turns || C.PumpIdle(s)
  }

  /** What turns `first` to `turn` have brought, if the context was done from the start or nobody else moves. */
  ghost predicate Pace(
    world: nat -> PumpTurn, start: C.State, t: C.State, past: seq<C.Action>, trace: seq<C.Action>, first: nat,
    turn: nat, ended: bool) {
    && (Still(world) ==> OnlyPump(past, trace))
    && (Still(world) || start.cancelled ==> ended || Advances(t, past, trace, turn - first))
    && (start.cancelled ==> ended || NeverPicked(world, first, turn))
  }

  /** One select more: it takes a step, or there is none to take. */
  lemma PaceOn(
    world: nat -> PumpTurn, start: C.State, t: C.State, u: C.State, past: seq<C.Action>, trace: seq<C.Action>,
    longer: seq<C.Action>, first: nat, turn: nat, waits: bool, ended: bool)
    requires Pace(world, start, t, past, trace, first, turn, false) && first <= turn
    requires C.PumpSteps(longer) == C.PumpSteps(trace) + if waits then 0 else 1
    requires waits ==> C.PumpIdle(u)
    requires world(turn).others == [] ==> OnlyPump(trace, longer) && (C.PumpIdle(t) ==> waits)
    requires start.cancelled ==> !C.PumpIdle(t) && (world(turn).pickDone ==> ended)
    ensures Pace(world, start, u, past, longer, first, turn + 1, ended)
  {
  }

  /** The inner select, once, with others at work before it. */
  method Offer(
    conn: Shared, m: nat, w: PumpTurn, ghost start: C.State, ghost past: seq<C.Action>,
    ghost taken: seq<nat>, ghost sent: seq<nat>)
    returns (outcome: Outcome, ghost trace: seq<C.Action>)
    requires conn.Valid() && Leads(start, past, conn.Abs()) && conn.pumpAt == C.Sending(m)
    requires Progress(start, conn.Abs(), taken, sent, [m])
    modifies conn
    ensures conn.Valid() && Leads(start, trace, conn.Abs())
    ensures conn.pumpAt == match outcome case Sent => C.Outer case Ended => C.Closing case Waiting => C.Sending(m)
    ensures Offered(start, conn.Abs(), taken, sent, m, outcome == Sent)
    ensures outcome == Waiting ==> C.PumpIdle(conn.Abs())
    ensures start.cancelled && w.pickDone ==> outcome == Ended
    ensures C.PumpSteps(trace) == C.PumpSteps(past) + if outcome == Waiting then 0 else 1
    ensures w.others == [] ==> OnlyPump(past, trace) && (C.PumpIdle(old(conn.Abs())) ==> outcome == Waiting)
  {
    ghost var before := conn.Abs();
    trace := conn.AllButPump(w.others, start, past);
    ghost var mid := conn.Abs();
    outcome, trace := InnerSelect(conn, m, w.pickDone, start, trace);
    ProgressBySending(start, before, mid, conn.Abs(), taken, sent, m, outcome == Sent);
  }

  /** The inner select, until it has come to a result. */
  method HandOver(
    conn: Shared, m: nat, world: nat -> PumpTurn, first: nat, turns: nat,
    ghost start: C.State, ghost past: seq<C.Action>, ghost taken: seq<nat>, ghost sent: seq<nat>)
    returns (turn: nat, outcome: Outcome, ghost trace: seq<C.Action>)
    requires conn.Valid() && Leads(start, past, conn.Abs()) && conn.pumpAt == C.Sending(m) && first <= turns
    requires Progress(start, conn.Abs(), taken, sent, [m])
    modifies conn
    ensures conn.Valid() && Leads(start, trace, conn.Abs()) && first <= turn <= turns
    ensures conn.pumpAt == match outcome case Sent => C.Outer case Ended => C.Closing case Waiting => C.Sending(m)
    ensures Offered(start, conn.Abs(), taken, sent, m, outcome == Sent)
    ensures outcome == Waiting ==> turn == turns
    ensures Pace(world, start, conn.Abs(), past, trace, first, turn, outcome == Ended)
  {
    turn, outcome, trace := first, Waiting, past;
    while turn < turns && outcome == Waiting
      invariant conn.Valid() && Leads(start, trace, conn.Abs()) && first <= turn <= turns
      invariant conn.pumpAt == match outcome case Sent => C.Outer case Ended => C.Closing case Waiting => C.Sending(m)
      invariant Offered(start, conn.Abs(), taken, sent, m, outcome == Sent)
      invariant Pace(world, start, conn.Abs(), past, trace, first, turn, outcome == Ended)
    {
      ghost var before, sofar := conn.Abs(), trace;
      outcome, trace := Offer(conn, m, world(turn), start, trace, taken, sent);
      PaceOn(world, start, before, conn.Abs(), past, sofar, trace, first, turn, outcome == Waiting, outcome == Ended);
      turn := turn + 1;
    }
  }

  lemma {:induction false} StepsAtMost(actions: seq<C.Action>)
    ensures C.PumpSteps(actions) <= |actions|
  {
    if actions != [] {
      StepsAtMost(actions[..|actions| - 1]);
    }
  }

  /** What the pump has sent, has in hand and has still to take is what it had to send. */
  ghost predicate Relayed(s: C.State, t: C.State) {
    && t.broadcasts == s.broadcasts && !t.cancelled && (s.dropped ==> t.dropped) && |t.inbox| <= |s.inbox|
    && t.buffer + C.InPump(t.pump) + C.Decodable(s.broadcasts, t.inbox) == s.buffer + C.Decodable(s.broadcasts, s.inbox)
    && (t.pump.Outer? || t.pump.Sending? || t.inbox == [])
  }

  lemma TakeRelays(s: C.State, t: C.State, m: nat, rest: seq<nat>)
    requires Relayed(s, t) && t.pump.Outer? && t.inbox == [m] + rest && m < |t.broadcasts|
    ensures Relayed(s, t.(inbox := rest, pump := if t.broadcasts[m].Posted? then C.Sending(m) else C.Outer))
  {
    C.DecodableOfCons(s.broadcasts, m, rest);
    assert t.buffer + [] == t.buffer;
  }

  lemma RelayStep(s: C.State, t: C.State, a: C.Action)
    requires Relayed(s, t) && C.Enabled(t, a) && C.IsPump(a)
    ensures Relayed(s, C.Apply(t, a)) && |C.Apply(t, a).inbox| <= |t.inbox|
  {
    if a == C.PumpTake {
      assert t.inbox == [t.inbox[0]] + t.inbox[1..];
      TakeRelays(s, t, t.inbox[0], t.inbox[1..]);
    } else {
      assert C.Apply(t, a).inbox == t.inbox;
    }
  }

  /** Left alone with a live context, the pump loses nothing and adds nothing. */
  lemma {:induction false} PumpAlone(s: C.State, actions: seq<C.Action>)
    requires s.pump.Outer? && !s.cancelled && C.Run(s, actions).Some? && OnlyPump([], actions)
    ensures Relayed(s, C.Run(s, actions).value) && C.Receptions(s, actions) == 0
  {
    if actions == [] {
    } else {
      var init := actions[..|actions| - 1];
      StepsAtMost(init);
      PumpAlone(s, init);
      RelayStep(s, C.Run(s, init).value, actions[|actions| - 1]);
    }
  }

  /** There is a free slot for every message that is there to be sent on. */
  predicate Roomy(s: C.State) {
    |s.buffer| + |C.Decodable(s.broadcasts, s.inbox)| <= C.SLOTS
  }

  /** So if the channel has room, it has sent on all there is after two turns for each message, and if the
      subscription is over it stops after one more. */
  lemma PumpGetsThrough(s: C.State, actions: seq<C.Action>, turns: nat)
    requires s.pump.Outer? && !s.cancelled && C.Run(s, actions).Some? && OnlyPump([], actions)
    requires Roomy(s) && turns >= 2 * |s.inbox|
    requires Advances(C.Run(s, actions).value, [], actions, turns)
    ensures var t := C.Run(s, actions).value;
      && t.inbox == [] && t.buffer == s.buffer + C.Decodable(s.broadcasts, s.inbox)
      && (s.dropped && turns > 2 * |s.inbox| ==> !t.pump.Outer? && !t.pump.Sending?)
  {
    var t := C.Run(s, actions).value;
    PumpAlone(s, actions);
    C.PumpStepsBounded(s, actions);
    assert |t.buffer| + |C.InPump(t.pump)| <= C.SLOTS;
  }

  /** With the context done it stops after two turns for each message and one more, whatever else happens and
      however full the channel is. */
  lemma PumpIsOver(s: C.State, actions: seq<C.Action>, turns: nat)
    requires C.Run(s, actions).Some? && C.Run(s, actions).value.cancelled
    requires s.pump.Outer? && turns > 2 * |s.inbox| + 2 * C.Receptions(s, actions)
    requires Advances(C.Run(s, actions).value, [], actions, turns)
    ensures !C.Run(s, actions).value.pump.Outer? && !C.Run(s, actions).value.pump.Sending?
  {
    C.PumpStepsBounded(s, actions);
  }

  /** The outer select, and then the inner one if a message has to be sent on. */
  method RelayOne(
    conn: Shared, world: nat -> PumpTurn, first: nat, turns: nat,
    ghost start: C.State, ghost past: seq<C.Action>, ghost taken: seq<nat>, ghost sent: seq<nat>)
    returns (
      turn: nat, outcome: Outcome, ghost trace: seq<C.Action>,
      ghost nowTaken: seq<nat>, ghost nowSent: seq<nat>, ghost inHand: seq<nat>)
    requires conn.Valid() && Leads(start, past, conn.Abs()) && conn.pumpAt == C.Outer && first < turns
    requires Progress(start, conn.Abs(), taken, sent, [])
    modifies conn
    ensures conn.Valid() && Leads(start, trace, conn.Abs()) && first < turn <= turns
    ensures Progress(start, conn.Abs(), nowTaken, nowSent, inHand)
    ensures match outcome
      case Sent => conn.pumpAt == C.Outer && inHand == []
      case Ended => conn.pumpAt == C.Closing
      case Waiting => conn.pumpAt.Sending? && inHand == [conn.pumpAt.m] && turn == turns
    ensures Pace(world, start, conn.Abs(), past, trace, first, turn, outcome == Ended)
    ensures Still(world) && C.PumpIdle(old(conn.Abs())) ==> C.PumpIdle(conn.Abs())
  {
    ghost var before := conn.Abs();
    var c: Chosen;
    c, trace := OuterSelect(conn, world(first), start, past);
    ProgressByTaking(start, before, conn.Abs(), taken, sent, c);
    nowTaken, nowSent, inHand := taken + c.Messages(), sent, [];
    turn, outcome := first + 1, if c == Stopped then Ended else Sent;
    if c.Took? {
      turn, outcome, trace := HandOver(conn, c.m, world, turn, turns, start, trace, nowTaken, sent);
      nowSent, inHand := if outcome == Sent then sent + [c.m] else sent, if outcome == Sent then [] else [c.m];
    }
  }

  /** The loop alone. */
  method PumpLoop(conn: Shared, world: nat -> PumpTurn, turns: nat)
    returns (
      outcome: Outcome, ghost trace: seq<C.Action>, ghost taken: seq<nat>, ghost sent: seq<nat>,
      ghost inHand: seq<nat>, ghost turn: nat)
    requires conn.Valid() && conn.pumpAt == C.Outer
    modifies conn
    ensures conn.Valid() && Leads(old(conn.Abs()), trace, conn.Abs())
    ensures Progress(old(conn.Abs()), conn.Abs(), taken, sent, inHand)
    ensures match outcome
      case Sent => conn.pumpAt == C.Outer && inHand == [] && turn == turns
      case Ended => conn.pumpAt == C.Closing
      case Waiting => conn.pumpAt.Sending? && inHand == [conn.pumpAt.m] && turn == turns
    ensures Pace(world, old(conn.Abs()), conn.Abs(), [], trace, 0, turn, outcome == Ended)
  {
    ghost var start := conn.Abs();
    var i := 0;
    outcome, trace, taken, sent, inHand := Sent, [], [], [], [];
    while i < turns && outcome == Sent
      invariant conn.Valid() && Leads(start, trace, conn.Abs()) && i <= turns
      invariant Progress(start, conn.Abs(), taken, sent, inHand)
      invariant match outcome
        case Sent => conn.pumpAt == C.Outer && inHand == []
        case Ended => conn.pumpAt == C.Closing
        case Waiting => conn.pumpAt.Sending? && inHand == [conn.pumpAt.m] && i == turns
      invariant Pace(world, start, conn.Abs(), [], trace, 0, i, outcome == Ended)
      decreases turns - i
    {
      i, outcome, trace, taken, sent, inHand := RelayOne(conn, world, i, turns, start, trace, taken, sent);
    }
    turn := i;
  }

  /** The goroutine of Subscribe, through at most `turns` evaluations of its two selects. It takes messages in
      the order they came, skips what cannot be decoded and sends on the rest in order; only the last may be
      left in its hand. When it returns it has closed the channel, once; while it runs the channel is open. A
      select that finds the context done and picks it ends the loop, whatever the channel holds.

      Left alone with a live context and room in the channel, it has taken and sent on all that was waiting after
      two turns for each message, and returned after one more if the subscription is over. With the context done
      it has returned by then under any interference, be the channel full. */
  method Pump(conn: Shared, world: nat -> PumpTurn, turns: nat)
    returns (
      returned: bool, ghost trace: seq<C.Action>, ghost taken: seq<nat>, ghost sent: seq<nat>, ghost inHand: seq<nat>)
    requires conn.Valid() && conn.pumpAt == C.Outer
    modifies conn
    ensures conn.Valid() && Leads(old(conn.Abs()), trace, conn.Abs())
    ensures returned ==> conn.pumpAt == C.Exited && conn.closed && conn.closes == 1
    ensures !returned ==> !conn.closed && C.InPump(conn.pumpAt) == inHand
    ensures old(conn.done) && !NeverPicked(world, 0, turns) ==> returned
    ensures old(conn.inbox) <= taken + conn.inbox
    ensures C.Decodable(conn.broadcasts, taken) == sent + inHand && |inHand| <= 1
    ensures Remains(conn.buffer, old(conn.buffer) + sent)
    ensures Still(world) ==> OnlyPump([], trace)
    ensures Still(world) || old(conn.done) ==> Advances(conn.Abs(), [], trace, turns)
    ensures Still(world) && !old(conn.done) && Roomy(old(conn.Abs())) && turns >= 2 * |old(conn.inbox)| ==>
      && conn.inbox == []
      && conn.buffer == old(conn.buffer) + C.Decodable(old(conn.broadcasts), old(conn.inbox))
      && (old(conn.dropped) && turns > 2 * |old(conn.inbox)| ==> returned)
    ensures old(conn.done) && turns > 2 * |old(conn.inbox)| + 2 * C.Receptions(old(conn.Abs()), trace) ==> returned
  {
    ghost var start := conn.Abs();
    var outcome: Outcome;
    ghost var turn: nat;
    outcome, trace, taken, sent, inHand, turn := PumpLoop(conn, world, turns);
    returned := outcome == Ended;
    if !returned {
      assert !conn.closed by {
        C.ReachableInv(conn.Abs());
      }
    } else {
      ghost var before := conn.Abs();
      trace := PumpDefers(conn, world(turns).others, start, trace);
      ProgressByWaiting(start, before, conn.Abs(), taken, sent, inHand);
    }
    if Still(world) && !start.cancelled && Roomy(start) && turns >= 2 * |start.inbox| {
      PumpGetsThrough(start, trace, turns);
    }
    if start.cancelled && turns > 2 * |start.inbox| + 2 * C.Receptions(start, trace) {
      PumpIsOver(start, trace, turns);
    }
  }

  // ---- The WebSocket handler ----

  /** What has become of the handler's surroundings: from the channel it received `received`, onto the socket it
      wrote `wrote`. */
  predicate HandlerSees(s: C.State, t: C.State, received: seq<nat>, wrote: seq<nat>) {
    && s.buffer <= received + t.buffer
    && t.written == s.written + wrote
    && (s.cancelled ==> t.cancelled)
  }

  /** Nobody else has interfered in between. */
  predicate Undisturbed(s: C.State, t: C.State, received: seq<nat>) {
    s.buffer == received + t.buffer && t.closed == s.closed && t.cancelled == s.cancelled
  }

  /** There is no message for the handler and never will be, or not yet. */
  predicate NothingToReceive(s: C.State) {
    s.buffer == [] && !s.cancelled && !s.closed
  }

  lemma HandlerSeesOn(
    s: C.State, t: C.State, u: C.State, r1: seq<nat>, w1: seq<nat>, r2: seq<nat>, w2: seq<nat>)
    requires HandlerSees(s, t, r1, w1) && HandlerSees(t, u, r2, w2)
    ensures HandlerSees(s, u, r1 + r2, w1 + w2)
  {
    assert r1 + r2 + u.buffer == r1 + (r2 + u.buffer);
  }

  /** A receive from the channel. */
  method ReceiveOne(conn: Shared, ghost start: C.State, ghost past: seq<C.Action>)
    returns (m: nat, ghost trace: seq<C.Action>)
    requires conn.Valid() && Leads(start, past, conn.Abs()) && conn.handlerAt == C.Looping && conn.buffer != []
    modifies conn`buffer, conn`handlerAt
    ensures conn.Valid() && Leads(start, trace, conn.Abs())
    ensures conn.handlerAt == C.Writing(m) && old(conn.buffer) == [m] + conn.buffer
  {
    ghost var before := conn.Abs();
    m := conn.Receive();
    conn.handlerAt := C.Writing(m);
    Follow(start, past, before, C.HandlerReceive, conn.Abs());
    trace := past + [C.HandlerReceive];
  }

  /** The write of what was received. */
  method WriteOne(conn: Shared, m: nat, ok: bool, ghost start: C.State, ghost past: seq<C.Action>)
    returns (ghost trace: seq<C.Action>)
    requires conn.Valid() && Leads(start, past, conn.Abs()) && conn.handlerAt == C.Writing(m)
    modifies conn`written, conn`handlerAt
    ensures conn.Valid() && Leads(start, trace, conn.Abs())
    ensures conn.handlerAt == if ok then C.Looping else C.Leaving
    ensures conn.written == old(conn.written) + if ok then [m] else []
  {
    ghost var before := conn.Abs();
    assert conn.open by {
      C.ReachableInv(before);
    }
    conn.WriteOut(m, ok);
    conn.handlerAt := if ok then C.Looping else C.Leaving;
    Follow(start, past, before, C.HandlerWrite(ok), conn.Abs());
    trace := past + [C.HandlerWrite(ok)];
  }

  /** The loop ends, because the context is done or the channel closed. */
  method StopHandler(conn: Shared, why: C.Action, ghost start: C.State, ghost past: seq<C.Action>)
    returns (ghost trace: seq<C.Action>)
    requires conn.Valid() && Leads(start, past, conn.Abs())
    requires why in {C.HandlerStop, C.HandlerEnd} && C.Enabled(conn.Abs(), why)
    modifies conn`handlerAt
    ensures conn.Valid() && Leads(start, trace, conn.Abs()) && conn.handlerAt == C.Leaving
  {
    ghost var before := conn.Abs();
    conn.handlerAt := C.Leaving;
    Follow(start, past, before, why, conn.Abs());
    trace := past + [why];
  }

  /** The ticker fires. */
  method Ticked(conn: Shared, ghost start: C.State, ghost past: seq<C.Action>)
    returns (ghost trace: seq<C.Action>)
    requires conn.Valid() && Leads(start, past, conn.Abs()) && conn.handlerAt == C.Looping
    modifies conn`handlerAt
    ensures conn.Valid() && Leads(start, trace, conn.Abs()) && conn.handlerAt == C.Pinging
  {
    ghost var before := conn.Abs();
    conn.handlerAt := C.Pinging;
    Follow(start, past, before, C.HandlerTick, conn.Abs());
    trace := past + [C.HandlerTick];
  }

  /** The ping is written, or not. */
  method SendPing(conn: Shared, ok: bool, ghost start: C.State, ghost past: seq<C.Action>)
    returns (ghost trace: seq<C.Action>)
    requires conn.Valid() && Leads(start, past, conn.Abs()) && conn.handlerAt == C.Pinging
    modifies conn`handlerAt
    ensures conn.Valid() && Leads(start, trace, conn.Abs())
    ensures conn.handlerAt == if ok then C.Looping else C.Leaving
    ensures trace == past + [C.HandlerPing(ok)]
  {
    ghost var before := conn.Abs();
    conn.handlerAt := if ok then C.Looping else C.Leaving;
    Follow(start, past, before, C.HandlerPing(ok), conn.Abs());
    trace := past + [C.HandlerPing(ok)];
  }

  /** The deferred calls of the handler that others notice: the first cancels the context, the second closes the
      socket. */
  method CancelContext(conn: Shared, ghost start: C.State, ghost past: seq<C.Action>)
    returns (ghost trace: seq<C.Action>)
    requires conn.Valid() && Leads(start, past, conn.Abs()) && conn.handlerAt == C.Leaving
    modifies conn`done, conn`handlerAt
    ensures conn.Valid() && Leads(start, trace, conn.Abs())
    ensures conn.handlerAt == C.Disconnecting && conn.done
  {
    ghost var before := conn.Abs();
    conn.done := true;
    conn.handlerAt := C.Disconnecting;
    Follow(start, past, before, C.HandlerCancel, conn.Abs());
    trace := past + [C.HandlerCancel];
  }

  method Disconnect(conn: Shared, ghost start: C.State, ghost past: seq<C.Action>)
    returns (ghost trace: seq<C.Action>)
    requires conn.Valid() && Leads(start, past, conn.Abs()) && conn.handlerAt == C.Disconnecting
    modifies conn`open, conn`handlerAt
    ensures conn.Valid() && Leads(start, trace, conn.Abs())
    ensures conn.handlerAt == C.Returned && !conn.open
  {
    ghost var before := conn.Abs();
    conn.open := false;
    conn.handlerAt := C.Returned;
    Follow(start, past, before, C.HandlerDisconnect, conn.Abs());
    trace := past + [C.HandlerDisconnect];
  }

  /** A message out of the channel and onto the socket, with others at work in the meantime. */
  method Forward(conn: Shared, w: HandlerTurn, ghost start: C.State, ghost past: seq<C.Action>)
    returns (ghost trace: seq<C.Action>, ghost m: nat)
    requires conn.Valid() && Leads(start, past, conn.Abs()) && conn.handlerAt == C.Looping && conn.buffer != []
    modifies conn
    ensures conn.Valid() && Leads(start, trace, conn.Abs())
    ensures HandlerSees(old(conn.Abs()), conn.Abs(), [m], if w.ok then [m] else [])
    ensures conn.handlerAt == if w.ok then C.Looping else C.Leaving
    ensures w.during == [] ==> Undisturbed(old(conn.Abs()), conn.Abs(), [m])
  {
    var msg: nat;
    msg, trace := ReceiveOne(conn, start, past);
    m := msg;
    trace := conn.AllButHandler(w.during, start, trace);
    trace := WriteOne(conn, msg, w.ok, start, trace);
  }

  method Ping(conn: Shared, w: HandlerTurn, ghost start: C.State, ghost past: seq<C.Action>)
    returns (ghost trace: seq<C.Action>)
    requires conn.Valid() && Leads(start, past, conn.Abs()) && conn.handlerAt == C.Looping
    modifies conn
    ensures conn.Valid() && Leads(start, trace, conn.Abs())
    ensures HandlerSees(old(conn.Abs()), conn.Abs(), [], [])
    ensures conn.handlerAt == if w.ok then C.Looping else C.Leaving
    ensures trace != [] && trace[|trace| - 1] == C.HandlerPing(w.ok)
    ensures w.during == [] ==> Undisturbed(old(conn.Abs()), conn.Abs(), [])
  {
    trace := Ticked(conn, start, past);
    trace := conn.AllButHandler(w.during, start, trace);
    trace := SendPing(conn, w.ok, start, trace);
  }

  method HandlerDefers(conn: Shared, between: seq<C.Action>, ghost start: C.State, ghost past: seq<C.Action>)
    returns (ghost trace: seq<C.Action>)
    requires conn.Valid() && Leads(start, past, conn.Abs()) && conn.handlerAt == C.Leaving
    modifies conn
    ensures conn.Valid() && Leads(start, trace, conn.Abs())
    ensures conn.handlerAt == C.Returned && conn.done && !conn.open
    ensures HandlerSees(old(conn.Abs()), conn.Abs(), [], [])
    ensures between == [] ==> conn.buffer == old(conn.buffer)
  {
    trace := CancelContext(conn, start, past);
    trace := conn.AllButHandler(between, start, trace);
    trace := Disconnect(conn, start, trace);
  }

  /** What the handler's select finds: the end of the context, a tick, a message, or the end of the channel. */
  method React(conn: Shared, w: HandlerTurn, ghost start: C.State, ghost past: seq<C.Action>)
    returns (ghost trace: seq<C.Action>, ghost received: seq<nat>)
    requires conn.Valid() && Leads(start, past, conn.Abs()) && conn.handlerAt == C.Looping
    modifies conn
    ensures conn.Valid() && Leads(start, trace, conn.Abs())
    ensures HandlerSees(old(conn.Abs()), conn.Abs(), received, if w.ok then received else [])
    ensures |received| <= 1 && (received != [] && !w.ok ==> conn.handlerAt == C.Leaving)
    ensures w.during == [] ==> Undisturbed(old(conn.Abs()), conn.Abs(), received)
    ensures old(conn.done) && w.pickDone ==> conn.handlerAt == C.Leaving
    ensures w.pick == Tick ==> conn.handlerAt == C.Leaving || Pinged(trace, w.ok)
    ensures w.pick == Tick && !w.ok ==> conn.handlerAt == C.Leaving
    ensures w.pick == Message && conn.handlerAt == C.Looping ==>
      received != [] || (conn.Abs() == old(conn.Abs()) && NothingToReceive(conn.Abs()))
    ensures conn.handlerAt == C.Looping || conn.handlerAt == C.Leaving
    ensures conn.handlerAt == C.Leaving ==> old(conn.done) || !w.ok || (old(conn.buffer) == [] && old(conn.closed))
  {
    trace, received := past, [];
    if conn.done && (w.pickDone || (w.pick == Message && conn.buffer == [] && !conn.closed)) {
      trace := StopHandler(conn, C.HandlerStop, start, past);
    } else if w.pick == Tick {
      trace := Ping(conn, w, start, past);
    } else if conn.buffer != [] {
      ghost var m: nat;
      trace, m := Forward(conn, w, start, past);
      received := [m];
    } else if conn.closed {
      trace := StopHandler(conn, C.HandlerEnd, start, past);
    }
  }

  /** The last thing done was to write a ping. */
  predicate Pinged(trace: seq<C.Action>, ok: bool) {
    trace != [] && trace[|trace| - 1] == C.HandlerPing(ok)
  }

  /** Nobody else moves during this turn. */
  predicate Quiet(w: HandlerTurn) {
    w.others == [] && w.during == []
  }

  /** The handler's select, once, with others at work before it. */
  method HandlerSelect(conn: Shared, w: HandlerTurn, ghost start: C.State, ghost past: seq<C.Action>)
    returns (ghost trace: seq<C.Action>, ghost received: seq<nat>)
    requires conn.Valid() && Leads(start, past, conn.Abs()) && conn.handlerAt == C.Looping
    modifies conn
    ensures conn.Valid() && Leads(start, trace, conn.Abs())
    ensures conn.handlerAt == C.Looping || conn.handlerAt == C.Leaving
    ensures HandlerSees(old(conn.Abs()), conn.Abs(), received, if w.ok then received else [])
    ensures |received| <= 1 && (received != [] && !w.ok ==> conn.handlerAt == C.Leaving)
    ensures old(conn.done) && w.pickDone ==> conn.handlerAt == C.Leaving
    ensures w.pick == Tick ==> conn.handlerAt == C.Leaving || Pinged(trace, w.ok)
    ensures w.pick == Tick && !w.ok ==> conn.handlerAt == C.Leaving
    ensures w.pick == Message && conn.handlerAt == C.Looping ==> received != [] || NothingToReceive(conn.Abs())
    ensures Quiet(w) ==> Undisturbed(old(conn.Abs()), conn.Abs(), received)
    ensures Quiet(w) && w.ok && !old(conn.done) && conn.handlerAt == C.Leaving ==>
      conn.buffer == [] && old(conn.closed)
  {
    ghost var s := conn.Abs();
    trace := conn.AllButHandler(w.others, start, past);
    ghost var t := conn.Abs();
    trace, received := React(conn, w, start, trace);
    HandlerSeesOn(s, t, conn.Abs(), [], [], received, if w.ok then received else []);
    assert [] + received == received;
  }

  /** Nobody else moves. */
  ghost predicate Alone(world: nat -> HandlerTurn) {
    forall k :: Quiet(world(k))
  }

  /** The handler is never at a tick when a message is there, */
  ghost predicate Eager(world: nat -> HandlerTurn) {
    forall k :: world(k).pick == Message
  }

  /** and the socket takes all that is written. */
  ghost predicate Writable(world: nat -> HandlerTurn) {
    forall k :: world(k).ok
  }

  /** What ends the loop in this turn, if the context is done: that it picks the context, or a failed ping. */
  predicate Ends(w: HandlerTurn, done: bool) {
    (done && w.pickDone) || (w.pick == Tick && !w.ok)
  }

  /** What the turns so far have brought: a message each, or there was none. */
  ghost predicate Served(
    world: nat -> HandlerTurn, s: C.State, t: C.State, received: seq<nat>, wrote: seq<nat>, turn: nat) {
    && HandlerSees(s, t, received, wrote)
    && (wrote == received || (t.handler.Leaving? && received != [] && wrote == received[..|received| - 1]))
    && (Writable(world) ==> wrote == received)
    && (t.handler.Looping? ==> forall k :: 0 <= k < turn ==> !Ends(world(k), s.cancelled))
    && (Alone(world) ==> Undisturbed(s, t, received))
    && (Eager(world) && (Alone(world) || s.cancelled) && t.handler.Looping? ==>
          |received| >= turn || NothingToReceive(t))
    && (Alone(world) && Writable(world) && !s.cancelled && t.handler.Leaving? ==> t.buffer == [] && s.closed)
  }

  lemma ServedOn(
    world: nat -> HandlerTurn, s: C.State, t: C.State, u: C.State, received: seq<nat>, wrote: seq<nat>,
    got: seq<nat>, put: seq<nat>, turn: nat)
    requires Served(world, s, t, received, wrote, turn) && t.handler.Looping?
    requires HandlerSees(t, u, got, put) && put == if world(turn).ok then got else []
    requires |got| <= 1 && (got != [] && !world(turn).ok ==> u.handler.Leaving?)
    requires u.handler.Looping? ==> !Ends(world(turn), t.cancelled)
    requires var w := world(turn);
      && (w.pick == Message && u.handler.Looping? ==> got != [] || NothingToReceive(u))
      && (Quiet(w) ==> Undisturbed(t, u, got))
      && (Quiet(w) && w.ok && !t.cancelled && u.handler.Leaving? ==> u.buffer == [] && t.closed)
    ensures Served(world, s, u, received + got, wrote + put, turn + 1)
  {
    HandlerSeesOn(s, t, u, received, wrote, got, put);
    if Alone(world) {
      assert Quiet(world(turn));
      assert received + got + u.buffer == received + (got + u.buffer);
    }
    if put != got {
      assert got == [got[0]] && (received + got)[..|received + got| - 1] == received;
    }
  }

  /** The loop alone. */
  method Loop(conn: Shared, world: nat -> HandlerTurn, turns: nat)
    returns (ghost trace: seq<C.Action>, ghost received: seq<nat>, ghost wrote: seq<nat>, ghost turn: nat)
    requires conn.Valid() && conn.handlerAt == C.Looping
    modifies conn
    ensures conn.Valid() && Leads(old(conn.Abs()), trace, conn.Abs())
    ensures (conn.handlerAt == C.Looping && turn == turns) || conn.handlerAt == C.Leaving
    ensures Served(world, old(conn.Abs()), conn.Abs(), received, wrote, turn)
  {
    ghost var start := conn.Abs();
    var i := 0;
    trace, received, wrote := [], [], [];
    while i < turns && conn.handlerAt == C.Looping
      invariant conn.Valid() && Leads(start, trace, conn.Abs()) && i <= turns
      invariant conn.handlerAt == C.Looping || conn.handlerAt == C.Leaving
      invariant Served(world, start, conn.Abs(), received, wrote, i)
      decreases turns - i
    {
      ghost var before := conn.Abs();
      ghost var got: seq<nat>;
      trace, got := HandlerSelect(conn, world(i), start, trace);
      ghost var put := if world(i).ok then got else [];
      ServedOn(world, start, before, conn.Abs(), received, wrote, got, put, i);
      received, wrote := received + got, wrote + put;
      i := i + 1;
    }
    turn := i;
  }

  /** The loop of the WebSocket handler, through at most `turns` evaluations of its select. It writes what it
      receives from the channel, in order and nothing else; only if a write fails is the last one missing.
      When it returns, the context is cancelled and the socket closed; while it runs, the socket is open.

      Left alone with a live context and a socket that takes everything, it has written all that was in the channel
      after one turn for each message, and returned after one more if the channel is closed. With the context done
      it returns, under any interference, after one turn more than there are messages it receives. */
  method Serve(conn: Shared, world: nat -> HandlerTurn, turns: nat)
    returns (returned: bool, ghost trace: seq<C.Action>, ghost received: seq<nat>, ghost wrote: seq<nat>)
    requires conn.Valid() && conn.handlerAt == C.Looping
    modifies conn
    ensures conn.Valid() && Leads(old(conn.Abs()), trace, conn.Abs())
    ensures returned ==> conn.handlerAt == C.Returned && conn.done && !conn.open
    ensures !returned ==> conn.handlerAt == C.Looping && conn.open
    ensures (exists k :: 0 <= k < turns && Ends(world(k), old(conn.done))) ==> returned
    ensures old(conn.buffer) <= received + conn.buffer
    ensures conn.written == old(conn.written) + wrote
    ensures wrote == received || (returned && received != [] && wrote == received[..|received| - 1])
    ensures Alone(world) && Eager(world) && Writable(world) && !old(conn.done) && turns >= |old(conn.buffer)| ==>
      && conn.buffer == [] && conn.written == old(conn.written) + old(conn.buffer)
      && (old(conn.closed) && turns > |old(conn.buffer)| ==> returned)
    ensures old(conn.done) && Eager(world) && turns > |received| ==> returned
  {
    ghost var start := conn.Abs();
    ghost var turn: nat;
    trace, received, wrote, turn := Loop(conn, world, turns);
    returned := conn.handlerAt == C.Leaving;
    if !returned {
      assert conn.open by {
        C.ReachableInv(conn.Abs());
      }
    } else {
      ghost var before := conn.Abs();
      trace := HandlerDefers(conn, world(turns).others, start, trace);
      HandlerSeesOn(start, before, conn.Abs(), received, wrote, [], []);
      assert received + [] == received && wrote + [] == wrote;
      assert Alone(world) ==> Quiet(world(turns));
    }
  }
}
