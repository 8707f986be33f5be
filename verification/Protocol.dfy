/**
  The ingest and retry protocol as one transition system: any number of webhook handlers and retry
  workers over one table, one retry set and one dead list.

  Every step is one call to a service or one reading of the clock, so all interleavings of the
  processes are runs. What a call does under a fault is part of the action. The clock readings in
  the actions are arbitrary: nothing is assumed about the clocks unless a theorem says so.
 */
module Protocol {
  import opened Domain
  import opened Store
  import Backoff

  type Pid = nat

  /** Where a process is, with the values it holds there. */
  datatype Proc =
    | HInsert(e: InsertParams)                      // handler: event accepted, Insert comes next
    | HEnqueue(e: InsertParams)                     // handler: Insert returned an error
    | HAdd(entry: Entry, readyAt: int)              // handler: clock read, ZADD comes next
    | HPublish(e: InsertParams, n: Notification)    // handler: Insert returned a new row
    | HReply(e: InsertParams, code: int)            // handler: about to answer
    | WIdle                                         // worker: at the top of its loop
    | WHold(entry: Entry, at: int)                  // worker: popped an entry, at this instant
    | WBackoff(entry: Entry, at: int)               // worker: Insert failed, attempts are left
    | WAdd(entry: Entry, readyAt: int)              // worker: counter raised, clock read, ZADD next
    | WBury(entry: Entry, at: int)                  // worker: Insert failed for the last time
    | WPublish(n: Notification)                     // worker: Insert returned a new row

  datatype PopFault = PopOk | ReplyLost | Undecodable

  /** The history: one record for each step. */
  datatype Event =
    | Arrived(e: InsertParams)
    | HandlerInserted(e: InsertParams, result: InsertResult)
    | Stamped(entry: Entry, readyAt: int)
    | Enqueued(entry: Entry, fault: Fault)
    | Published(n: Notification, fault: Fault)      // Publish was called
    | Replied(e: InsertParams, code: int)
    | Crashed(victim: Proc)
    | Started
    | Popped(entry: Entry, score: int, at: int, popFault: PopFault)
    | WorkerInserted(entry: Entry, at: int, result: InsertResult)
    | Rescheduled(entry: Entry, poppedAt: int, now: int)
    | Buried(entry: Entry, poppedAt: int, now: int, fault: Fault)
    | MarkedRead

  datatype State = State(
    table: Table,
    retry: map<Entry, int>,       // the ZSET: member -> ready-at in milliseconds
    dead: seq<Entry>,             // the list of dead entries, newest first
    procs: map<Pid, Proc>,
    log: seq<Event>)

  datatype Action =
    | Arrive(p: Pid, e: InsertParams)
    | HandlerInsert(p: Pid, id: Uuid, at: int, fault: Fault)
    | HandlerStamp(p: Pid, failedAt: int, readyAt: int)
    | HandlerAdd(p: Pid, fault: Fault)
    | HandlerPublish(p: Pid, fault: Fault)
    | Reply(p: Pid)
    | Crash(p: Pid)
    | WorkerStart(p: Pid)
    | WorkerPop(p: Pid, entry: Entry, now: int, popFault: PopFault)
    | WorkerInsert(p: Pid, id: Uuid, at: int, fault: Fault)
    | WorkerStamp(p: Pid, now: int)
    | WorkerAdd(p: Pid, fault: Fault)
    | WorkerBury(p: Pid, now: int, fault: Fault)
    | WorkerPublish(p: Pid, fault: Fault)
    | MarkRowRead(id: Uuid, citizen: Bytes, at: int)

  /** Publish was called and Redis got the post, whatever the caller was told. */
  predicate Posts(ev: Event) {
    ev.Published? && ev.fault != FailsBefore
  }

  const INIT := State([], map[], [], map[], [])

  /** ZADD of a member: a member already present only gets the new score. */
  function ZAdd(retry: map<Entry, int>, entry: Entry, readyAt: int, fault: Fault): map<Entry, int> {
    if fault == FailsBefore then retry else retry[entry := Millis(readyAt)]
  }

  /** `entry` may be the first of ZRANGEBYSCORE -inf now; which of several equal scores comes first is
      left open here. */
  predicate FirstReady(retry: map<Entry, int>, entry: Entry, now: int) {
    && entry in retry
    && retry[entry] <= Millis(now)
    && forall x :: x in retry ==> retry[entry] <= retry[x]
  }

  function AfterHandlerInsert(e: InsertParams, r: InsertResult): Proc {
    match r
    case Created(n) => HPublish(e, n)
    case Duplicate => HReply(e, 200)
    case Failed => HEnqueue(e)
  }

  function AfterWorkerInsert(entry: Entry, at: int, r: InsertResult): Proc {
    match r
    case Created(n) => WPublish(n)
    case Duplicate => WIdle
    case Failed => if entry.attempts < MAX_ATTEMPTS then WBackoff(entry, at) else WBury(entry, at)
  }

  predicate Enabled(s: State, a: Action) {
    match a
    case Arrive(p, e) => p !in s.procs
    case HandlerInsert(p, id, at, fault) => p in s.procs && s.procs[p].HInsert?
    case HandlerStamp(p, failedAt, readyAt) => p in s.procs && s.procs[p].HEnqueue?
    case HandlerAdd(p, fault) => p in s.procs && s.procs[p].HAdd?
    case HandlerPublish(p, fault) => p in s.procs && s.procs[p].HPublish?
    case Reply(p) => p in s.procs && s.procs[p].HReply?
    case Crash(p) => p in s.procs
    case WorkerStart(p) => p !in s.procs
    case WorkerPop(p, entry, now, f) => p in s.procs && s.procs[p].WIdle? && FirstReady(s.retry, entry, now)
    case WorkerInsert(p, id, at, fault) => p in s.procs && s.procs[p].WHold?
    case WorkerStamp(p, now) =>
      p in s.procs && s.procs[p].WBackoff? && 1 <= s.procs[p].entry.attempts < MAX_ATTEMPTS
    case WorkerAdd(p, fault) => p in s.procs && s.procs[p].WAdd?
    case WorkerBury(p, now, fault) => p in s.procs && s.procs[p].WBury?
    case WorkerPublish(p, fault) => p in s.procs && s.procs[p].WPublish?
    case MarkRowRead(id, citizen, at) => true
  }

  function Apply(s: State, a: Action): State
    requires Enabled(s, a)
  {
    match a
    case Arrive(p, e) => Move(s, p, HInsert(e), Arrived(e))
    case HandlerInsert(p, id, at, fault) =>
      var e := s.procs[p].e;
      var (t, r) := Insert(s.table, e, id, at, fault);
      Move(s, p, AfterHandlerInsert(e, r), HandlerInserted(e, r)).(table := t)
    case HandlerStamp(p, failedAt, readyAt) =>
      var entry := Entry(s.procs[p].e, failedAt, 1);
      Move(s, p, HAdd(entry, readyAt), Stamped(entry, readyAt))
    case HandlerAdd(p, fault) =>
      var entry := s.procs[p].entry;
      Move(s, p, HReply(entry.event, 500), Enqueued(entry, fault))
        .(retry := ZAdd(s.retry, entry, s.procs[p].readyAt, fault))
    case HandlerPublish(p, fault) => Move(s, p, HReply(s.procs[p].e, 201), Published(s.procs[p].n, fault))
    case Reply(p) => Leave(s, p, Replied(s.procs[p].e, s.procs[p].code))
    case Crash(p) => Leave(s, p, Crashed(s.procs[p]))
    case WorkerStart(p) => Move(s, p, WIdle, Started)
    case WorkerPop(p, entry, now, f) =>
      Move(s, p, if f == PopOk then WHold(entry, now) else WIdle, Popped(entry, s.retry[entry], now, f))
        .(retry := s.retry - {entry})
    case WorkerInsert(p, id, at, fault) =>
      var WHold(entry, popped) := s.procs[p];
      var (t, r) := Insert(s.table, entry.event, id, at, fault);
      Move(s, p, AfterWorkerInsert(entry, popped, r), WorkerInserted(entry, popped, r)).(table := t)
    case WorkerStamp(p, now) =>
      var entry := s.procs[p].entry.(attempts := s.procs[p].entry.attempts + 1);
      Move(s, p, WAdd(entry, now + Backoff.Delay(entry.attempts)), Rescheduled(entry, s.procs[p].at, now))
    case WorkerAdd(p, fault) =>
      var entry := s.procs[p].entry;
      Move(s, p, WIdle, Enqueued(entry, fault)).(retry := ZAdd(s.retry, entry, s.procs[p].readyAt, fault))
    case WorkerBury(p, now, fault) =>
      var entry := s.procs[p].entry;
      Move(s, p, WIdle, Buried(entry, s.procs[p].at, now, fault))
        .(dead := if fault == FailsBefore then s.dead else [entry] + s.dead)
    case WorkerPublish(p, fault) => Move(s, p, WIdle, Published(s.procs[p].n, fault))
    case MarkRowRead(id, citizen, at) =>
      s.(table := MarkRead(s.table, id, citizen, at), log := s.log + [MarkedRead])
  }

  function Move(s: State, p: Pid, next: Proc, ev: Event): State {
    s.(procs := s.procs[p := next], log := s.log + [ev])
  }

  function Leave(s: State, p: Pid, ev: Event): State {
    s.(procs := s.procs - {p}, log := s.log + [ev])
  }

  /** The state after taking `actions` one after the other from `s`, if each is possible in its turn. */
  ghost function Run(s: State, actions: seq<Action>): Option<State> {
    if actions == [] then Some(s)
    else
      var before := Run(s, actions[..|actions| - 1]);
      var a := actions[|actions| - 1];
      if before.Some? && Enabled(before.value, a) then Some(Apply(before.value, a)) else None
  }

  ghost predicate Reachable(s: State) {
    exists actions :: Run(INIT, actions) == Some(s)
  }

  /** How many records of a history are of a kind. */
  function Count(log: seq<Event>, f: Event -> bool): nat {
    if log == [] then 0
    else Count(log[..|log| - 1], f) + if f(log[|log| - 1]) then 1 else 0
  }

  const ARRIVED := (ev: Event) => ev.Arrived?

  lemma CountSnoc(log: seq<Event>, ev: Event, f: Event -> bool)
    ensures Count(log + [ev], f) == Count(log, f) + if f(ev) then 1 else 0
  {
    assert (log + [ev])[..|log|] == log;
  }

  lemma RunSnoc(s: State, actions: seq<Action>, a: Action)
    requires Run(s, actions).Some? && Enabled(Run(s, actions).value, a)
    ensures Run(s, actions + [a]) == Some(Apply(Run(s, actions).value, a))
  {
    assert (actions + [a])[..|actions|] == actions;
  }

  lemma Step(actions: seq<Action>, s: State, a: Action, u: State)
    requires Run(INIT, actions) == Some(s) && Enabled(s, a) && Apply(s, a) == u
    ensures Run(INIT, actions + [a]) == Some(u)
  {
    RunSnoc(INIT, actions, a);
  }

  lemma {:induction false} RunAppend(s: State, first: seq<Action>, second: seq<Action>)
    requires Run(s, first).Some?
    ensures Run(s, first + second) == Run(Run(s, first).value, second)
    decreases |second|
  {
    if second == [] {
      assert first + second == first;
    } else {
      var init := second[..|second| - 1];
      RunAppend(s, first, init);
      assert (first + second)[..|first + second| - 1] == first + init;
    }
  }

  /** A prefix of a run is a run, and the next action takes it one step further. */
  lemma {:induction false} PrefixRuns(s: State, actions: seq<Action>, i: nat)
    requires i <= |actions| && Run(s, actions).Some?
    ensures Run(s, actions[..i]).Some?
    ensures i < |actions| ==>
      Enabled(Run(s, actions[..i]).value, actions[i])
      && Run(s, actions[..i + 1]) == Some(Apply(Run(s, actions[..i]).value, actions[i]))
    decreases |actions|
  {
    assert actions[..|actions|] == actions;
    if i + 1 < |actions| {
      var init := actions[..|actions| - 1];
      PrefixRuns(s, init, i);
      assert init[..i] == actions[..i] && init[..i + 1] == actions[..i + 1];
    }
  }

  /** Rows are never removed, and no step changes anything in them but the read mark. */
  lemma StepGrowsTable(s: State, a: Action)
    requires Enabled(s, a) && Valid(s.table)
    ensures Valid(Apply(s, a).table) && Grows(s.table, Apply(s, a).table)
    ensures |Apply(s, a).log| == |s.log| + 1 && Apply(s, a).log[..|s.log|] == s.log
  {
    match a
    case HandlerInsert(p, id, at, fault) => InsertKeepsRows(s.table, s.procs[p].e, id, at, fault);
    case WorkerInsert(p, id, at, fault) => InsertKeepsRows(s.table, s.procs[p].entry.event, id, at, fault);
    case MarkRowRead(id, citizen, at) => MarkReadKeepsRows(s.table, id, citizen, at);
    case _ =>
  }
}
