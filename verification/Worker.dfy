/** The retry worker: process one popped entry, and the loop around it. */
module RetryWorker {
  import opened Deployment
  import opened Domain
  import B = Backoff
  import H = History
  import Safety
  import Store
  import P = Protocol
  import R = Repository
  import Q = RetryQueue
  import D = Drain

  /** What the environment supplies to the processing of one entry. */
  datatype ProcessIO = ProcessIO(
    id: Uuid, at: int, insert: R.CallIO, now: int, enqueue: Store.Fault, bury: Store.Fault, publish: Store.Fault)

  /** What the environment supplies to one turn of the loop: how its calls go, and how long they take; the
      last of them is the rescheduling, the burial or the publication. */
  datatype TurnIO = TurnIO(
    pop: Q.PopIO, id: Uuid, insert: R.CallIO, enqueue: Store.Fault, bury: Store.Fault, publish: Store.Fault,
    popTakes: nat, insertTakes: nat, lastTakes: nat)
  {
    /** The time the calls of a turn can take. */
    function Takes(): nat {
      popTakes + insertTakes + lastTakes
    }

    /** Redis answers the pop, and the answer arrives. */
    predicate Pops() {
      pop == Q.Answered(P.PopOk)
    }

    /** Redis takes the entry it may be given. */
    predicate Adds() {
      enqueue != Store.FailsBefore && bury != Store.FailsBefore
    }
  }

  /** The steps of worker `me` after its insert of `entry`, if that gives `r`. */
  function StepsAfter(me: P.Pid, entry: Entry, r: Store.InsertResult, io: ProcessIO): seq<P.Action> {
    match r
    case Created(_) => [P.WorkerPublish(me, io.publish)]
    case Duplicate => []
    case Failed =>
      if entry.attempts < MAX_ATTEMPTS then [P.WorkerStamp(me, io.now)] + [P.WorkerAdd(me, io.enqueue)]
      else [P.WorkerBury(me, io.now, io.bury)]
  }

  /** And after its pop. */
  function WorkerSteps(me: P.Pid, entry: Entry, r: Store.InsertResult, io: ProcessIO): seq<P.Action> {
    [P.WorkerInsert(me, io.id, io.at, R.FaultOf(io.insert))] + StepsAfter(me, entry, r, io)
  }

  /** What the processing of `popped` makes of the waiting entries and of the dead ones. */
  function PutBack(
    retry: map<Entry, int>, popped: Entry, r: Store.InsertResult, now: int, enqueue: Store.Fault): map<Entry, int>
    requires popped.attempts >= 1
  {
    if r.Failed? && popped.attempts < MAX_ATTEMPTS
    then P.ZAdd(retry, D.Raised(popped), now + B.Delay(popped.attempts + 1), enqueue)
    else retry
  }

  function RetryAfter(
    before: map<Entry, int>, popped: Entry, r: Store.InsertResult, now: int, enqueue: Store.Fault): map<Entry, int>
    requires popped.attempts >= 1
  {
    PutBack(before - {popped}, popped, r, now, enqueue)
  }

  function DeadAfter(dead: seq<Entry>, popped: Entry, r: Store.InsertResult, bury: Store.Fault): seq<Entry> {
    if r.Failed? && popped.attempts >= MAX_ATTEMPTS && bury != Store.FailsBefore then [popped] + dead else dead
  }

  lemma RetriedIsPutBack(
    retry: map<Entry, int>, popped: Entry, now: int, readyAt: int, enqueue: Store.Fault)
    requires 1 <= popped.attempts < MAX_ATTEMPTS && readyAt == now + B.Delay(popped.attempts + 1)
    ensures PutBack(retry, popped, Store.Failed, now, enqueue) == P.ZAdd(retry, D.Raised(popped), readyAt, enqueue)
  {
  }

  lemma StampMoves(s: P.State, popped: Entry, at: int, now: int, readyAt: int, me: P.Pid)
    requires me in s.procs && s.procs[me] == P.WBackoff(popped, at) && 1 <= popped.attempts < MAX_ATTEMPTS
    requires readyAt == now + B.Delay(popped.attempts + 1)
    ensures P.Enabled(s, P.WorkerStamp(me, now))
    ensures P.Apply(s, P.WorkerStamp(me, now))
         == P.Move(s, me, P.WAdd(D.Raised(popped), readyAt), P.Rescheduled(D.Raised(popped), at, now))
  {
  }

  lemma PopMoves(s: P.State, x: Entry, now: int, f: P.PopFault, me: P.Pid)
    requires me in s.procs && s.procs[me] == P.WIdle && P.FirstReady(s.retry, x, now)
    ensures P.Enabled(s, P.WorkerPop(me, x, now, f))
    ensures P.Apply(s, P.WorkerPop(me, x, now, f))
         == P.Move(s, me, if f == P.PopOk then P.WHold(x, now) else P.WIdle, P.Popped(x, s.retry[x], now, f))
              .(retry := s.retry - {x})
  {
  }

  /** Redis answers every pop and every answer arrives; Redis takes whatever it is given. */
  ghost predicate AlwaysPops(world: nat -> TurnIO) {
    forall k :: world(k).Pops()
  }

  ghost predicate AlwaysAdds(world: nat -> TurnIO) {
    forall k :: world(k).Adds()
  }

  /** Nobody else does anything. */
  predicate Silent(world: nat -> seq<P.Action>) {
    world(0) == [] && world(1) == [] && world(2) == []
  }

  const SILENCE := (k: nat) => []

  class Worker {
    const sys: System
    const repo: R.NotificationRepo

    constructor (sys: System, repo: R.NotificationRepo)
      ensures this.sys == sys && this.repo == repo
    {
      this.sys, this.repo := sys, repo;
    }

    ghost predicate Valid()
      reads sys, sys.db, sys.queue, sys.pub
    {
      sys.Valid() && repo.db == sys.db
    }

    /** Worker `me` is at this point of its code. */
    predicate At(me: P.Pid, proc: P.Proc)
      reads sys
    {
      me in sys.procs && sys.procs[me] == proc
    }

    method InsertNow(popped: Entry, at: int, io: ProcessIO, me: P.Pid) returns (r: Store.InsertResult)
      requires Valid() && At(me, P.WHold(popped, at))
      modifies sys, sys.db
      ensures Valid() && At(me, P.AfterWorkerInsert(popped, at, r))
      ensures sys.Took(old(sys.steps), me, [P.WorkerInsert(me, io.id, io.at, R.FaultOf(io.insert))])
      ensures (sys.db.table, r)
           == Store.Insert(old(sys.db.table), popped.event, io.id, io.at, R.FaultOf(io.insert))
    {
      ghost var before, past := sys.Abs(), sys.steps;
      r := repo.Insert(popped.event, io.id, io.at, io.insert);
      ghost var a := P.WorkerInsert(me, io.id, io.at, R.FaultOf(io.insert));
      sys.Goto(me, P.AfterWorkerInsert(popped, at, r), a, P.WorkerInserted(popped, at, r));
      Follow(past, before, a, sys.Abs(), me);
    }

    /** The insert, with others at work before and after it. */
    method InsertAgain(popped: Entry, at: int, io: ProcessIO, me: P.Pid, world: nat -> seq<P.Action>)
      returns (r: Store.InsertResult)
      requires Valid() && At(me, P.WHold(popped, at))
      modifies sys, sys.db, sys.queue, sys.pub
      ensures Valid() && At(me, P.AfterWorkerInsert(popped, at, r))
      ensures sys.Took(old(sys.steps), me, [P.WorkerInsert(me, io.id, io.at, R.FaultOf(io.insert))])
      ensures Silent(world) ==>
        && (sys.db.table, r)
             == Store.Insert(old(sys.db.table), popped.event, io.id, io.at, R.FaultOf(io.insert))
        && sys.queue.retry == old(sys.queue.retry) && sys.queue.dead == old(sys.queue.dead)
    {
      sys.AllBut(me, world(0));
      r := InsertNow(popped, at, io, me);
      sys.AllBut(me, world(1));
    }

    /** The backoff, by shift and cap. */
    static method BackoffFor(attempts: int) returns (delay: int)
      requires 2 <= attempts <= MAX_ATTEMPTS
      ensures delay == B.Delay(attempts)
    {
      B.ProductionDelay(attempts);
      delay := B.DelayInt64(B.BACKOFF_INITIAL, B.BACKOFF_MAX, attempts).value;
    }

    /** The counter is raised and the clock read. */
    method Stamp(popped: Entry, at: int, now: int, me: P.Pid) returns (entry: Entry, readyAt: int)
      requires Valid() && At(me, P.WBackoff(popped, at))
      requires 1 <= popped.attempts < MAX_ATTEMPTS
      modifies sys
      ensures Valid() && At(me, P.WAdd(entry, readyAt))
      ensures sys.Took(old(sys.steps), me, [P.WorkerStamp(me, now)])
      ensures entry == D.Raised(popped) && readyAt == now + B.Delay(popped.attempts + 1)
    {
      ghost var before, past := sys.Abs(), sys.steps;
      entry := popped.(attempts := popped.attempts + 1);
      var delay := BackoffFor(entry.attempts);
      readyAt := now + delay;
      StampMoves(before, popped, at, now, readyAt, me);
      sys.Goto(me, P.WAdd(entry, readyAt), P.WorkerStamp(me, now), P.Rescheduled(entry, at, now));
      Follow(past, before, P.WorkerStamp(me, now), sys.Abs(), me);
    }

    method Add(entry: Entry, readyAt: int, fault: Store.Fault, me: P.Pid)
      requires Valid() && At(me, P.WAdd(entry, readyAt))
      modifies sys, sys.queue
      ensures Valid() && At(me, P.WIdle)
      ensures sys.Took(old(sys.steps), me, [P.WorkerAdd(me, fault)])
      ensures sys.queue.retry == P.ZAdd(old(sys.queue.retry), entry, readyAt, fault)
      ensures sys.queue.dead == old(sys.queue.dead)
    {
      ghost var before, past := sys.Abs(), sys.steps;
      var _ := sys.queue.EnqueueAt(entry, readyAt, fault);
      sys.Goto(me, P.WIdle, P.WorkerAdd(me, fault), P.Enqueued(entry, fault));
      Follow(past, before, P.WorkerAdd(me, fault), sys.Abs(), me);
    }

    method Bury(popped: Entry, at: int, now: int, fault: Store.Fault, me: P.Pid)
      requires Valid() && At(me, P.WBury(popped, at))
      modifies sys, sys.queue
      ensures Valid() && At(me, P.WIdle)
      ensures sys.Took(old(sys.steps), me, [P.WorkerBury(me, now, fault)])
      ensures sys.queue.retry == old(sys.queue.retry)
      ensures sys.queue.dead
           == if fault == Store.FailsBefore then old(sys.queue.dead) else [popped] + old(sys.queue.dead)
    {
      ghost var before, past := sys.Abs(), sys.steps;
      var _ := sys.queue.MoveToDead(popped, fault);
      sys.Goto(me, P.WIdle, P.WorkerBury(me, now, fault), P.Buried(popped, at, now, fault));
      Follow(past, before, P.WorkerBury(me, now, fault), sys.Abs(), me);
    }

    method Publish(n: Notification, fault: Store.Fault, me: P.Pid)
      requires Valid() && At(me, P.WPublish(n))
      modifies sys, sys.pub
      ensures Valid() && At(me, P.WIdle)
      ensures sys.Took(old(sys.steps), me, [P.WorkerPublish(me, fault)])
    {
      ghost var before, past := sys.Abs(), sys.steps;
      var _ := sys.pub.Publish(n, fault);
      sys.Goto(me, P.WIdle, P.WorkerPublish(me, fault), P.Published(n, fault));
      Follow(past, before, P.WorkerPublish(me, fault), sys.Abs(), me);
    }

    /** Back into the set with the next counter and its backoff, with others at work between the clock reading and
        the call. */
    method Reschedule(popped: Entry, at: int, io: ProcessIO, me: P.Pid, others: seq<P.Action>)
      returns (ghost readyAt: int)
      requires Valid() && At(me, P.WBackoff(popped, at)) && 1 <= popped.attempts < MAX_ATTEMPTS
      modifies sys, sys.db, sys.queue, sys.pub
      ensures Valid() && At(me, P.WIdle)
      ensures sys.Took(old(sys.steps), me, [P.WorkerStamp(me, io.now)] + [P.WorkerAdd(me, io.enqueue)])
      ensures readyAt == io.now + B.Delay(popped.attempts + 1)
      ensures others == [] ==>
        && sys.db.table == old(sys.db.table) && sys.queue.dead == old(sys.queue.dead)
        && sys.queue.retry == P.ZAdd(old(sys.queue.retry), D.Raised(popped), readyAt, io.enqueue)
    {
      var entry, instant := Stamp(popped, at, io.now, me);
      sys.AllBut(me, others);
      Add(entry, instant, io.enqueue, me);
      readyAt := instant;
    }

    /** What follows the insert. */
    method AfterInsert(popped: Entry, at: int, r: Store.InsertResult, io: ProcessIO, me: P.Pid, others: seq<P.Action>)
      requires Valid() && At(me, P.AfterWorkerInsert(popped, at, r))
      requires popped.attempts >= 1
      modifies sys, sys.db, sys.queue, sys.pub
      ensures Valid() && At(me, P.WIdle)
      ensures sys.Took(old(sys.steps), me, StepsAfter(me, popped, r, io))
      ensures others == [] ==>
        && sys.db.table == old(sys.db.table)
        && sys.queue.retry == PutBack(old(sys.queue.retry), popped, r, io.now, io.enqueue)
        && sys.queue.dead == DeadAfter(old(sys.queue.dead), popped, r, io.bury)
    {
      match r {
        case Failed =>
          if popped.attempts < MAX_ATTEMPTS {
            ghost var before := sys.queue.retry;
            ghost var readyAt := Reschedule(popped, at, io, me, others);
            RetriedIsPutBack(before, popped, io.now, readyAt, io.enqueue);
          } else {
            Bury(popped, at, io.now, io.bury, me);
          }
        case Duplicate =>
        case Created(row) => Publish(row, io.publish, me);
      }
    }

    /** Insert the event once more. If that fails, the entry goes back with its counter raised and the
        backoff of that counter, or to the dead list once its attempts are used up; a duplicate is
        dropped; a new row is published. In all it is a run of the protocol among everybody else's steps, in
        which worker `me` goes from its pop back to its loop; and if the others keep still, table, retry set
        and dead list are what that makes of them. */
    method Process(popped: Entry, at: int, io: ProcessIO, me: P.Pid, world: nat -> seq<P.Action>)
      returns (r: Store.InsertResult)
      requires Valid() && At(me, P.WHold(popped, at))
      modifies sys, sys.db, sys.queue, sys.pub
      ensures Valid() && At(me, P.WIdle)
      ensures sys.Took(old(sys.steps), me, WorkerSteps(me, popped, r, io))
      ensures 1 <= popped.attempts <= MAX_ATTEMPTS
      ensures Silent(world) ==>
        && (sys.db.table, r)
             == Store.Insert(old(sys.db.table), popped.event, io.id, io.at, R.FaultOf(io.insert))
        && sys.queue.retry == PutBack(old(sys.queue.retry), popped, r, io.now, io.enqueue)
        && sys.queue.dead == DeadAfter(old(sys.queue.dead), popped, r, io.bury)
    {
      H.CountersInRange(sys.Abs());
      r := InsertAgain(popped, at, io, me, world);
      AfterInsert(popped, at, r, io, me, world(2));
    }

    /** The backoffs an entry can still be given. */
    static function BackoffLeft(attempts: int): int {
      match attempts
      case 1 => 30_000_000_000
      case 2 => 28_000_000_000
      case 3 => 24_000_000_000
      case 4 => 16_000_000_000
      case _ => 0
    }

    static lemma BackoffLeftIsTheRest(attempts: int)
      requires 1 <= attempts < MAX_ATTEMPTS
      ensures BackoffLeft(attempts) == B.Delay(attempts + 1) + BackoffLeft(attempts + 1)
      ensures B.Delay(attempts + 1) >= B.BACKOFF_INITIAL
    {
      B.ProductionDelay(attempts + 1);
      assert B.Saturating(B.BACKOFF_INITIAL, B.BACKOFF_MAX, 2) == 2_000_000_000;
      assert B.Saturating(B.BACKOFF_INITIAL, B.BACKOFF_MAX, 3) == 4_000_000_000;
      assert B.Saturating(B.BACKOFF_INITIAL, B.BACKOFF_MAX, 4) == 8_000_000_000;
      assert B.Saturating(B.BACKOFF_INITIAL, B.BACKOFF_MAX, 5) == 16_000_000_000;
    }

    /** The latest instant at which an entry with this score and counter can still be in the set, if every
        insert fails and no call takes time from `now` on: its remaining backoffs, and a poll for each. */
    static function LastSeen(now: int, score: int, attempts: int): int {
      var seen := score * NANOS_PER_MILLI + B.POLL_INTERVAL;
      (if seen > now then seen else now) + BackoffLeft(attempts) + (MAX_ATTEMPTS - attempts) * B.POLL_INTERVAL
    }

    /** What is known of every waiting entry at the top of the loop. */
    static ghost predicate OnTime(retry: map<Entry, int>, now: int, horizon: int) {
      forall x :: x in retry ==> EntryOnTime(x, retry[x], now, horizon)
    }

    static predicate EntryOnTime(x: Entry, score: int, now: int, horizon: int) {
      1 <= x.attempts <= MAX_ATTEMPTS && LastSeen(now, score, x.attempts) <= horizon
    }

    /** The event is in the table, waiting, or dead. */
    static ghost predicate Kept(table: Store.Table, retry: map<Entry, int>, dead: seq<Entry>, e: InsertParams) {
      || Store.HasHash(table, e.eventHash)
      || (exists x :: x in retry && x.event == e)
      || (exists x :: x in dead && x.event == e)
    }

    /** An entry popped at `now`, stamped again at `stamped` and added by `later` can outlast what was its last
        possible instant by no more than the calls in between have taken. */
    static lemma BackOnTime(now: int, stamped: int, later: int, score: int, entry: Entry)
      requires 1 <= entry.attempts < MAX_ATTEMPTS && now <= stamped <= later
      ensures LastSeen(later, Millis(stamped + B.Delay(entry.attempts + 1)), entry.attempts + 1)
           <= LastSeen(now, score, entry.attempts) + (later - now)
    {
      BackoffLeftIsTheRest(entry.attempts);
    }

    static lemma KeptByProcess(
      t0: Store.Table, retry0: map<Entry, int>, dead0: seq<Entry>, popped: Entry,
      t1: Store.Table, retry1: map<Entry, int>, dead1: seq<Entry>, e: InsertParams)
      requires Kept(t0, retry0, dead0, e)
      requires t0 <= t1
      requires forall x :: x in retry0 && x != popped ==> x in retry1
      requires forall x :: x in dead0 ==> x in dead1
      requires Kept(t1, retry1, dead1, popped.event)
      ensures Kept(t1, retry1, dead1, e)
    {
      if Store.HasHash(t0, e.eventHash) {
        var r :| r in t0 && r.eventHash == e.eventHash;
        assert r in t1;
      }
    }

    /** Counters the queue can hold. */
    static predicate InRange(retry: map<Entry, int>) {
      forall x :: x in retry ==> 1 <= x.attempts <= MAX_ATTEMPTS
    }

    static lemma StillOnTime(
      before: map<Entry, int>, popped: Entry, r: Store.InsertResult, enqueue: Store.Fault,
      now: int, stamped: int, later: int, horizon: int)
      requires popped in before && OnTime(before, now, horizon) && now <= stamped <= later
      ensures OnTime(RetryAfter(before, popped, r, stamped, enqueue), later, horizon + (later - now))
    {
      var after := RetryAfter(before, popped, r, stamped, enqueue);
      forall x | x in after
        ensures EntryOnTime(x, after[x], later, horizon + (later - now))
      {
        if x in before && after[x] == before[x] {
          assert EntryOnTime(x, before[x], now, horizon);
        } else {
          assert x == D.Raised(popped) && EntryOnTime(popped, before[popped], now, horizon);
          BackOnTime(now, stamped, later, before[popped], popped);
        }
      }
    }

    static lemma WorkUsed(
      before: map<Entry, int>, popped: Entry, r: Store.InsertResult, now: int, enqueue: Store.Fault)
      requires popped in before && InRange(before)
      ensures InRange(RetryAfter(before, popped, r, now, enqueue))
      ensures D.Sum(RetryAfter(before, popped, r, now, enqueue).Keys, D.ENTRY_COST) + 1
           <= D.Sum(before.Keys, D.ENTRY_COST)
    {
      D.PopCost(before, popped, D.ENTRY_COST);
      if r.Failed? && popped.attempts < MAX_ATTEMPTS {
        D.ZAddCost(before - {popped}, D.Raised(popped), now + B.Delay(popped.attempts + 1), enqueue,
                   D.ENTRY_COST);
      }
    }

    /** No event that was kept before goes missing. */
    static ghost predicate KeepsAll(
      t0: Store.Table, retry0: map<Entry, int>, dead0: seq<Entry>,
      t1: Store.Table, retry1: map<Entry, int>, dead1: seq<Entry>)
    {
      forall e :: Kept(t0, retry0, dead0, e) ==> Kept(t1, retry1, dead1, e)
    }

    static lemma StillKept(
      table: Store.Table, before: map<Entry, int>, dead: seq<Entry>, popped: Entry,
      id: Uuid, at: int, now: int, fault: Store.Fault, enqueue: Store.Fault, bury: Store.Fault)
      requires Store.Valid(table) && popped in before && popped.attempts >= 1
      requires enqueue != Store.FailsBefore && bury != Store.FailsBefore
      ensures var (t, r) := Store.Insert(table, popped.event, id, at, fault);
        KeepsAll(table, before, dead,
                 t, RetryAfter(before, popped, r, now, enqueue), DeadAfter(dead, popped, r, bury))
    {
      var (t, r) := Store.Insert(table, popped.event, id, at, fault);
      var retry, buried := RetryAfter(before, popped, r, now, enqueue), DeadAfter(dead, popped, r, bury);
      Store.InsertKeepsRows(table, popped.event, id, at, fault);
      Store.InsertResults(table, popped.event, id, at, fault);
      assert Kept(t, retry, buried, popped.event) by {
        assert r.Failed? && popped.attempts < MAX_ATTEMPTS ==> D.Raised(popped) in retry;
        assert r.Failed? && popped.attempts >= MAX_ATTEMPTS ==> popped in buried;
      }
      forall e | Kept(table, before, dead, e)
        ensures Kept(t, retry, buried, e)
      {
        KeptByProcess(table, before, dead, popped, t, retry, buried, e);
      }
    }

    lemma StateInRange()
      requires Valid()
      ensures Store.Valid(sys.db.table) && InRange(sys.queue.retry)
    {
      Safety.ReachableInv(sys.Abs());
      H.CountersInRange(sys.Abs());
    }

    /** Process an entry popped from `before` at `now`. */
    method ProcessPopped(
      entry: Entry, now: int, io: TurnIO, me: P.Pid, ghost before: map<Entry, int>, ghost horizon: int)
      returns (later: int)
      requires Valid() && At(me, P.WHold(entry, now))
      requires entry in before && InRange(before) && sys.queue.retry == before - {entry}
      modifies sys, sys.db, sys.queue, sys.pub
      ensures Valid() && At(me, P.WIdle) && old(sys.steps) <= sys.steps
      ensures later == now + io.Takes()
      ensures D.Sum(sys.queue.retry.Keys, D.ENTRY_COST) + 1 <= D.Sum(before.Keys, D.ENTRY_COST)
      ensures OnTime(before, now, horizon) ==> OnTime(sys.queue.retry, later, horizon + (later - now))
      ensures io.enqueue != Store.FailsBefore && io.bury != Store.FailsBefore ==>
        KeepsAll(old(sys.db.table), before, old(sys.queue.dead), sys.db.table, sys.queue.retry, sys.queue.dead)
    {
      StateInRange();
      ghost var table, dead := sys.db.table, sys.queue.dead;
      var at := now + io.popTakes;
      var done := at + io.insertTakes;
      later := done + io.lastTakes;
      var processing := ProcessIO(io.id, at, io.insert, done, io.enqueue, io.bury, io.publish);
      var r := Process(entry, now, processing, me, SILENCE);
      assert sys.queue.retry == RetryAfter(before, entry, r, done, io.enqueue);
      WorkUsed(before, entry, r, done, io.enqueue);
      if OnTime(before, now, horizon) {
        StillOnTime(before, entry, r, io.enqueue, now, done, later, horizon);
      }
      if io.enqueue != Store.FailsBefore && io.bury != Store.FailsBefore {
        StillKept(table, before, dead, entry, io.id, at, done, R.FaultOf(io.insert), io.enqueue, io.bury);
      }
    }

    static ghost predicate PoppedAtMostOne(before: map<Entry, int>, after: map<Entry, int>) {
      after == before || exists x :: x in before && after == before - {x}
    }

    static predicate NoneReady(retry: map<Entry, int>, now: int) {
      forall x :: x in retry ==> retry[x] > Millis(now)
    }

    /** A call of the pop script. What it took out is with the worker then, or lost. */
    method Pop(now: int, io: Q.PopIO, me: P.Pid) returns (next: Q.PopResult)
      requires Valid() && At(me, P.WIdle)
      modifies sys, sys.queue
      ensures Valid() && old(sys.steps) <= sys.steps
      ensures At(me, if next.Got? then P.WHold(next.entry, now) else P.WIdle)
      ensures sys.queue.dead == old(sys.queue.dead)
      ensures next.Got? ==> sys.Took(old(sys.steps), me, [P.WorkerPop(me, next.entry, now, P.PopOk)])
      ensures next.Got? ==> next.entry in old(sys.queue.retry) && sys.queue.retry == old(sys.queue.retry) - {next.entry}
      ensures !next.Got? ==> PoppedAtMostOne(old(sys.queue.retry), sys.queue.retry)
      ensures io == Q.Answered(P.PopOk) && !next.Got? ==>
        sys.queue.retry == old(sys.queue.retry) && NoneReady(sys.queue.retry, now)
    {
      ghost var before, past := sys.Abs(), sys.steps;
      next := sys.queue.DequeueReady(now, io);
      if next.Got? {
        PopMoves(before, next.entry, now, P.PopOk, me);
        ghost var a := P.WorkerPop(me, next.entry, now, P.PopOk);
        sys.Goto(me, P.WHold(next.entry, now), a, P.Popped(next.entry, before.retry[next.entry], now, P.PopOk));
        Follow(past, before, a, sys.Abs(), me);
      } else if next.PopError? && io.Answered? {
        ghost var x :| P.FirstReady(before.retry, x, now) && sys.queue.retry == before.retry - {x};
        PopMoves(before, x, now, io.f, me);
        sys.Goto(me, P.WIdle, P.WorkerPop(me, x, now, io.f), P.Popped(x, before.retry[x], now, io.f));
        Follow(past, before, P.WorkerPop(me, x, now, io.f), sys.Abs(), me);
      }
    }

    /** What turns of the loop, begun in `s` at `start` and ended in `t` at `now`, have come to. */
    static ghost predicate Turned(
      s: P.State, t: P.State, start: int, now: int, horizon: int, inserts: nat, spent: nat, pops: bool, adds: bool)
    {
      && inserts + D.Sum(t.retry.Keys, D.ENTRY_COST) <= D.Sum(s.retry.Keys, D.ENTRY_COST)
      && (pops && OnTime(s.retry, start, horizon) ==> OnTime(t.retry, now, horizon + spent))
      && (pops && adds ==> KeepsAll(s.table, s.retry, s.dead, t.table, t.retry, t.dead))
    }

    static lemma TurnedOn(
      s: P.State, t: P.State, u: P.State, start: int, mid: int, now: int, horizon: int,
      inserts: nat, spent: nat, inserted: nat, took: nat, pops: bool, adds: bool, popsNow: bool, addsNow: bool)
      requires Turned(s, t, start, mid, horizon, inserts, spent, pops, adds)
      requires Turned(t, u, mid, now, horizon + spent, inserted, took, popsNow, addsNow)
      requires (pops ==> popsNow) && (adds ==> addsNow)
      ensures Turned(s, u, start, now, horizon, inserts + inserted, spent + took, pops, adds)
    {
    }

    /** One turn of the loop: pop and process, or, with nothing ready or on an error, sleep. `spent` is the
        time its calls take. */
    method Turn(now: int, io: TurnIO, me: P.Pid, ghost horizon: int)
      returns (later: int, spent: nat, inserted: nat)
      requires Valid() && At(me, P.WIdle)
      modifies sys, sys.db, sys.queue, sys.pub
      ensures Valid() && At(me, P.WIdle) && old(sys.steps) <= sys.steps
      ensures || (inserted == 0 && spent == io.popTakes && later == now + spent + B.POLL_INTERVAL)
              || (inserted == 1 && spent == io.Takes() && later == now + spent)
      ensures Turned(old(sys.Abs()), sys.Abs(), now, later, horizon, inserted, spent, io.Pops(), io.Adds())
    {
      StateInRange();
      ghost var before := sys.queue.retry;
      var next := Pop(now, io.pop, me);
      if !next.Got? {
        LessWork(before, sys.queue.retry);
        if io.Pops() && OnTime(before, now, horizon) {
          OnTimeAfterPoll(before, now, io.popTakes, horizon);
        }
        return now + io.popTakes + B.POLL_INTERVAL, io.popTakes, 0;
      }
      later := ProcessPopped(next.entry, now, io, me, before, horizon);
      spent, inserted := later - now, 1;
    }

    static lemma LessWork(before: map<Entry, int>, after: map<Entry, int>)
      requires PoppedAtMostOne(before, after)
      ensures D.Sum(after.Keys, D.ENTRY_COST) <= D.Sum(before.Keys, D.ENTRY_COST)
    {
      if after != before {
        var x :| x in before && after == before - {x};
        D.PopCost(before, x, D.ENTRY_COST);
      }
    }

    static lemma OnTimeAfterPoll(retry: map<Entry, int>, now: int, spent: nat, horizon: int)
      requires OnTime(retry, now, horizon)
      requires NoneReady(retry, now)
      ensures OnTime(retry, now + spent + B.POLL_INTERVAL, horizon + spent)
    {
      forall x | x in retry
        ensures EntryOnTime(x, retry[x], now + spent + B.POLL_INTERVAL, horizon + spent)
      {
        assert EntryOnTime(x, retry[x], now, horizon);
      }
    }

    static lemma NoneOutlivesTheHorizon(retry: map<Entry, int>, now: int, horizon: int)
      requires OnTime(retry, now, horizon) && now > horizon
      ensures retry == map[]
    {
      assert forall x :: x in retry ==> EntryOnTime(x, retry[x], now, horizon);
    }

    /** The time the calls of the first `turns` turns can take. */
    static function CallTime(world: nat -> TurnIO, turns: nat): nat {
      if turns == 0 then 0 else CallTime(world, turns - 1) + world(turns - 1).Takes()
    }

    /** How the time from `start` to `now` has passed, and that the last turn began before the deadline. */
    static predicate OnSchedule(
      start: int, deadline: int, world: nat -> TurnIO, inserts: nat, polls: nat, spent: nat, now: int)
    {
      && now == start + spent + polls * B.POLL_INTERVAL
      && spent <= CallTime(world, inserts + polls)
      && (inserts + polls > 0 ==> now < deadline + B.POLL_INTERVAL + world(inserts + polls - 1).Takes())
    }

    static lemma TimePasses(
      start: int, deadline: int, world: nat -> TurnIO, inserts: nat, polls: nat, spent: nat, now: int,
      inserted: nat, took: nat, later: int)
      requires OnSchedule(start, deadline, world, inserts, polls, spent, now) && now < deadline
      requires took <= world(inserts + polls).Takes() && inserted <= 1
      requires later == now + took + if inserted == 0 then B.POLL_INTERVAL else 0
      ensures OnSchedule(start, deadline, world, inserts + inserted, polls + (1 - inserted), spent + took, later)
    {
    }

    /** The next turn, and what all turns have come to since `before`, at `start`. */
    method NextTurn(
      start: int, deadline: int, world: nat -> TurnIO, me: P.Pid, ghost horizon: int, ghost before: P.State,
      ghost pops: bool, ghost adds: bool, now: int, inserts: nat, polls: nat, spent: nat)
      returns (later: int, insertsAfter: nat, pollsAfter: nat, spentAfter: nat)
      requires Valid() && At(me, P.WIdle) && now < deadline
      requires (pops ==> AlwaysPops(world)) && (adds ==> AlwaysAdds(world))
      requires OnSchedule(start, deadline, world, inserts, polls, spent, now)
      requires Turned(before, sys.Abs(), start, now, horizon, inserts, spent, pops, adds)
      modifies sys, sys.db, sys.queue, sys.pub
      ensures Valid() && At(me, P.WIdle) && old(sys.steps) <= sys.steps
      ensures || D.Sum(sys.queue.retry.Keys, D.ENTRY_COST) < D.Sum(old(sys.queue.retry).Keys, D.ENTRY_COST)
              || (D.Sum(sys.queue.retry.Keys, D.ENTRY_COST) <= D.Sum(old(sys.queue.retry).Keys, D.ENTRY_COST)
                  && now < later)
      ensures OnSchedule(start, deadline, world, insertsAfter, pollsAfter, spentAfter, later)
      ensures Turned(before, sys.Abs(), start, later, horizon, insertsAfter, spentAfter, pops, adds)
    {
      ghost var mid := sys.Abs();
      var io := world(inserts + polls);
      var took, inserted;
      later, took, inserted := Turn(now, io, me, horizon + spent);
      TurnedOn(before, mid, sys.Abs(), start, now, later, horizon, inserts, spent, inserted, took, pops, adds,
               io.Pops(), io.Adds());
      TimePasses(start, deadline, world, inserts, polls, spent, now, inserted, took, later);
      insertsAfter, pollsAfter, spentAfter := inserts + inserted, polls + (1 - inserted), spent + took;
    }

    /** The loop. */
    method Turns(start: int, deadline: int, world: nat -> TurnIO, me: P.Pid, ghost horizon: int)
      returns (inserts: nat, polls: nat, spent: nat, now: int)
      requires Valid() && At(me, P.WIdle)
      modifies sys, sys.db, sys.queue, sys.pub
      ensures Valid() && At(me, P.WIdle) && old(sys.steps) <= sys.steps && deadline <= now
      ensures OnSchedule(start, deadline, world, inserts, polls, spent, now)
      ensures Turned(old(sys.Abs()), sys.Abs(), start, now, horizon, inserts, spent,
                     AlwaysPops(world), AlwaysAdds(world))
    {
      ghost var pops, adds := AlwaysPops(world), AlwaysAdds(world);
      ghost var before := sys.Abs();
      now := start;
      inserts, polls, spent := 0, 0, 0;
      while now < deadline
        invariant Valid() && At(me, P.WIdle) && old(sys.steps) <= sys.steps
        invariant OnSchedule(start, deadline, world, inserts, polls, spent, now)
        invariant Turned(before, sys.Abs(), start, now, horizon, inserts, spent, pops, adds)
        decreases D.Sum(sys.queue.retry.Keys, D.ENTRY_COST), deadline - now
      {
        now, inserts, polls, spent :=
          NextTurn(start, deadline, world, me, horizon, before, pops, adds, now, inserts, polls, spent);
      }
    }

    /** Work through the queue until the context ends, at `deadline`. Time passes in `polls` sleeps and, for
        `spent`, in calls. Whatever fails, the inserts are bounded by the attempts that were left. If Redis
        answers every pop, the queue is empty once the worker has slept past every entry's last possible
        instant, however long the calls took and whichever inserts failed; and if Redis also takes every
        entry it is given, no event goes missing. In all it is a run of the protocol. */
    method Run(start: int, deadline: int, world: nat -> TurnIO, me: P.Pid, ghost horizon: int)
      returns (inserts: nat, polls: nat, spent: nat)
      requires Valid() && At(me, P.WIdle)
      modifies sys, sys.db, sys.queue, sys.pub
      ensures Valid() && At(me, P.WIdle) && old(sys.steps) <= sys.steps
      ensures deadline <= start + spent + polls * B.POLL_INTERVAL
      ensures OnSchedule(start, deadline, world, inserts, polls, spent, start + spent + polls * B.POLL_INTERVAL)
      ensures inserts <= D.Sum(old(sys.queue.retry).Keys, D.ENTRY_COST)
      ensures AlwaysPops(world) && OnTime(old(sys.queue.retry), start, horizon)
              && start + polls * B.POLL_INTERVAL > horizon ==>
        sys.queue.retry == map[]
      ensures AlwaysPops(world) && AlwaysAdds(world) ==>
        KeepsAll(old(sys.db.table), old(sys.queue.retry), old(sys.queue.dead),
                 sys.db.table, sys.queue.retry, sys.queue.dead)
    {
      var now;
      inserts, polls, spent, now := Turns(start, deadline, world, me, horizon);
      if OnTime(sys.queue.retry, now, horizon + spent) && now > horizon + spent {
        NoneOutlivesTheHorizon(sys.queue.retry, now, horizon + spent);
      }
    }
  }

  /** Entries that are ready when the worker starts are gone, whichever inserts fail, once it has slept for
      more than 31 seconds: at most 30 seconds of backoff, and five polls. */
  lemma ReadyEntriesAreOnTime(retry: map<Entry, int>, start: int)
    requires forall x :: x in retry ==> 1 <= x.attempts <= MAX_ATTEMPTS && retry[x] * NANOS_PER_MILLI <= start
    ensures Worker.OnTime(retry, start, start + 31_000_000_000)
  {
    forall x | x in retry
      ensures Worker.EntryOnTime(x, retry[x], start, start + 31_000_000_000)
    {
    }
  }
}
