/** How an entry came to be where it is: its failures one by one, and how far apart they are in time.
    The predicates read the history backwards, each from the record that the next one needs. */
module History {
  import opened Domain
  import opened Store
  import opened Protocol
  import B = Backoff

  function Previous(entry: Entry): Entry {
    entry.(attempts := entry.attempts - 1)
  }

  ghost predicate HandlerFailed(log: seq<Event>, e: InsertParams) {
    exists i :: 0 <= i < |log| && log[i] == HandlerInserted(e, Failed)
  }

  predicate IsStamp(ev: Event, entry: Entry, readyAt: int) {
    ev == Stamped(entry, readyAt)
  }

  predicate IsRescheduling(ev: Event, entry: Entry, readyAt: int) {
    && ev.Rescheduled? && ev.entry == entry
    && 2 <= entry.attempts <= MAX_ATTEMPTS && readyAt == ev.now + B.Delay(entry.attempts)
  }

  predicate IsPop(ev: Event, entry: Entry, at: int) {
    ev.Popped? && ev.entry == entry && ev.at == at && ev.popFault == PopOk && ev.score <= Millis(at)
  }

  predicate IsWorkerFailure(ev: Event, entry: Entry, at: int) {
    ev == WorkerInserted(entry, at, Failed)
  }

  /** `entry` was stamped to be ready at `readyAt`: with counter 1 by a handler whose insert had failed,
      with a higher one by a worker whose insert of the previous counter had failed, that worker's
      instant plus the backoff being `readyAt`. */
  ghost predicate StampOk(log: seq<Event>, entry: Entry, readyAt: int)
    decreases |log|, 0
  {
    && 1 <= entry.attempts <= MAX_ATTEMPTS
    && if entry.attempts == 1 then
         exists i :: 0 <= i < |log| && IsStamp(log[i], entry, readyAt) && HandlerFailed(log[..i], entry.event)
       else
         exists i :: 0 <= i < |log| && IsRescheduling(log[i], entry, readyAt)
                  && FailureOk(log[..i], Previous(entry), log[i].poppedAt)
  }

  /** A worker's insert of `entry`, which it had popped at `at`, failed. */
  ghost predicate FailureOk(log: seq<Event>, entry: Entry, at: int)
    decreases |log|, 0
  {
    exists i :: 0 <= i < |log| && IsWorkerFailure(log[i], entry, at) && PopOkay(log[..i], entry, at)
  }

  /** `entry` was popped at `at`, no earlier than the millisecond it had been stamped for. */
  ghost predicate PopOkay(log: seq<Event>, entry: Entry, at: int)
    decreases |log|, 0
  {
    exists i :: 0 <= i < |log| && IsPop(log[i], entry, at) && Queued(log[..i], entry, log[i].score)
  }

  /** `entry` is in the retry set with this score because it was stamped so. */
  ghost predicate Queued(log: seq<Event>, entry: Entry, score: int)
    decreases |log|, 1
  {
    exists readyAt :: Millis(readyAt) == score && StampOk(log, entry, readyAt)
  }

  lemma StampGrows(log: seq<Event>, longer: seq<Event>, entry: Entry, readyAt: int)
    requires log <= longer && StampOk(log, entry, readyAt)
    ensures StampOk(longer, entry, readyAt)
  {
    if entry.attempts == 1 {
      var i :| 0 <= i < |log| && IsStamp(log[i], entry, readyAt) && HandlerFailed(log[..i], entry.event);
      assert longer[i] == log[i] && longer[..i] == log[..i];
    } else {
      var i :| 0 <= i < |log| && IsRescheduling(log[i], entry, readyAt)
            && FailureOk(log[..i], Previous(entry), log[i].poppedAt);
      assert longer[i] == log[i] && longer[..i] == log[..i];
    }
  }

  lemma QueuedGrows(log: seq<Event>, longer: seq<Event>, entry: Entry, score: int)
    requires log <= longer && Queued(log, entry, score)
    ensures Queued(longer, entry, score)
  {
    var readyAt :| Millis(readyAt) == score && StampOk(log, entry, readyAt);
    StampGrows(log, longer, entry, readyAt);
  }

  lemma FailureGrows(log: seq<Event>, longer: seq<Event>, entry: Entry, at: int)
    requires log <= longer && FailureOk(log, entry, at)
    ensures FailureOk(longer, entry, at)
  {
    var i :| 0 <= i < |log| && IsWorkerFailure(log[i], entry, at) && PopOkay(log[..i], entry, at);
    assert longer[i] == log[i] && longer[..i] == log[..i];
  }

  lemma PopGrows(log: seq<Event>, longer: seq<Event>, entry: Entry, at: int)
    requires log <= longer && PopOkay(log, entry, at)
    ensures PopOkay(longer, entry, at)
  {
    var i :| 0 <= i < |log| && IsPop(log[i], entry, at) && Queued(log[..i], entry, log[i].score);
    assert longer[i] == log[i] && longer[..i] == log[..i];
  }

  lemma HandlerFailedGrows(log: seq<Event>, longer: seq<Event>, e: InsertParams)
    requires log <= longer && HandlerFailed(log, e)
    ensures HandlerFailed(longer, e)
  {
    var i :| 0 <= i < |log| && log[i] == HandlerInserted(e, Failed);
    assert longer[i] == log[i];
  }

  /** Whatever a process holds, it holds for a reason found in the history. */
  ghost predicate ProcOk(log: seq<Event>, proc: Proc) {
    match proc
    case HEnqueue(e) => HandlerFailed(log, e)
    case HAdd(entry, readyAt) => StampOk(log, entry, readyAt)
    case WAdd(entry, readyAt) => StampOk(log, entry, readyAt)
    case WHold(entry, at) => PopOkay(log, entry, at) && 1 <= entry.attempts <= MAX_ATTEMPTS
    case WBackoff(entry, at) => FailureOk(log, entry, at) && 1 <= entry.attempts < MAX_ATTEMPTS
    case WBury(entry, at) => FailureOk(log, entry, at) && entry.attempts == MAX_ATTEMPTS
    case _ => true
  }

  /** `entry` was put on the dead list at `now`, after its last failure. */
  ghost predicate BurialOk(log: seq<Event>, entry: Entry) {
    exists i :: 0 <= i < |log| && log[i].Buried? && log[i].entry == entry
             && FailureOk(log[..i], entry, log[i].poppedAt)
  }

  ghost predicate HistoryInv(s: State) {
    && (forall p :: p in s.procs ==> ProcOk(s.log, s.procs[p]))
    && (forall x :: x in s.retry ==> Queued(s.log, x, s.retry[x]))
    && (forall x :: x in s.dead ==> x.attempts == MAX_ATTEMPTS && BurialOk(s.log, x))
    && PopsOk(s.log)
    && BurialsOk(s.log)
    && CountersOk(s.log)
  }

  /** Workers insert and reschedule entries with counters in range only. */
  predicate CounterOk(ev: Event) {
    && (ev.WorkerInserted? ==> 1 <= ev.entry.attempts <= MAX_ATTEMPTS)
    && (ev.Rescheduled? ==> 2 <= ev.entry.attempts <= MAX_ATTEMPTS)
  }

  ghost predicate CountersOk(log: seq<Event>) {
    forall i :: 0 <= i < |log| ==> CounterOk(log[i])
  }

  /** Whatever became of the push, an entry is only given up on after its last attempt failed. */
  ghost predicate BurialsOk(log: seq<Event>) {
    forall b :: 0 <= b < |log| && log[b].Buried? ==>
      log[b].entry.attempts == MAX_ATTEMPTS && FailureOk(log[..b], log[b].entry, log[b].poppedAt)
  }

  /** No pop takes an entry before the millisecond it was stamped for. */
  ghost predicate PopsOk(log: seq<Event>) {
    forall j :: 0 <= j < |log| && log[j].Popped? ==>
      log[j].score <= Millis(log[j].at) && Queued(log[..j], log[j].entry, log[j].score)
  }

  lemma ProcGrows(log: seq<Event>, longer: seq<Event>, proc: Proc)
    requires log <= longer && ProcOk(log, proc)
    ensures ProcOk(longer, proc)
  {
    match proc {
      case HEnqueue(e) => HandlerFailedGrows(log, longer, e);
      case HAdd(entry, readyAt) => StampGrows(log, longer, entry, readyAt);
      case WAdd(entry, readyAt) => StampGrows(log, longer, entry, readyAt);
      case WHold(entry, at) => PopGrows(log, longer, entry, at);
      case WBackoff(entry, at) => FailureGrows(log, longer, entry, at);
      case WBury(entry, at) => FailureGrows(log, longer, entry, at);
      case _ =>
    }
  }

  /** The process that moves has its reason in the record of its own move. */
  lemma MoverOk(s: State, a: Action)
    requires Enabled(s, a) && HistoryInv(s) && !a.MarkRowRead? && a.p in Apply(s, a).procs
    ensures ProcOk(Apply(s, a).log, Apply(s, a).procs[a.p])
  {
    var u, n := Apply(s, a), |s.log|;
    assert u.log[..n] == s.log;
    match a {
      case HandlerInsert(p, _, _, _) =>
        assert u.log[n].result.Failed? ==> u.log[n] == HandlerInserted(s.procs[p].e, Failed);
      case HandlerStamp(p, failedAt, readyAt) =>
        assert IsStamp(u.log[n], u.procs[p].entry, readyAt);
      case WorkerPop(p, entry, now, f) =>
        assert f == PopOk ==> IsPop(u.log[n], entry, now);
        assert Queued(u.log[..n], entry, u.log[n].score);
      case WorkerInsert(p, _, _, _) =>
        assert u.log[n].result.Failed? ==> IsWorkerFailure(u.log[n], s.procs[p].entry, s.procs[p].at);
      case WorkerStamp(p, now) =>
        assert IsRescheduling(u.log[n], u.procs[p].entry, u.procs[p].readyAt);
        assert Previous(u.procs[p].entry) == s.procs[p].entry;
      case _ =>
    }
  }

  lemma QueueOk(s: State, a: Action, x: Entry)
    requires Enabled(s, a) && HistoryInv(s) && x in Apply(s, a).retry
    ensures Queued(Apply(s, a).log, x, Apply(s, a).retry[x])
  {
    var u := Apply(s, a);
    assert s.log <= u.log;
    if x in s.retry && u.retry[x] == s.retry[x] {
      QueuedGrows(s.log, u.log, x, s.retry[x]);
    } else {
      assert a.HandlerAdd? || a.WorkerAdd?;
      StampGrows(s.log, u.log, x, s.procs[a.p].readyAt);
    }
  }

  lemma DeadOk(s: State, a: Action, x: Entry)
    requires Enabled(s, a) && HistoryInv(s) && x in Apply(s, a).dead
    ensures x.attempts == MAX_ATTEMPTS && BurialOk(Apply(s, a).log, x)
  {
    var u := Apply(s, a);
    if x in s.dead {
      BurialGrows(s.log, u.log, x);
    } else {
      assert a.WorkerBury? && s.procs[a.p].entry == x;
      BuriedNow(s.log, u.log, x, s.procs[a.p].at);
    }
  }

  lemma BurialGrows(log: seq<Event>, longer: seq<Event>, x: Entry)
    requires log <= longer && BurialOk(log, x)
    ensures BurialOk(longer, x)
  {
    var i :| 0 <= i < |log| && log[i].Buried? && log[i].entry == x && FailureOk(log[..i], x, log[i].poppedAt);
    assert longer[i] == log[i] && longer[..i] == log[..i];
  }

  lemma BuriedNow(log: seq<Event>, longer: seq<Event>, x: Entry, at: int)
    requires |longer| == |log| + 1 && longer[..|log|] == log && FailureOk(log, x, at)
    requires longer[|log|].Buried? && longer[|log|].entry == x && longer[|log|].poppedAt == at
    ensures BurialOk(longer, x)
  {
  }

  lemma PopsStep(s: State, a: Action)
    requires Enabled(s, a) && HistoryInv(s)
    ensures PopsOk(Apply(s, a).log)
  {
    var u := Apply(s, a);
    assert u.log[..|s.log|] == s.log;
    forall j | 0 <= j < |u.log| && u.log[j].Popped?
      ensures u.log[j].score <= Millis(u.log[j].at) && Queued(u.log[..j], u.log[j].entry, u.log[j].score)
    {
      if j < |s.log| {
        assert u.log[j] == s.log[j] && u.log[..j] == s.log[..j];
      }
    }
  }

  lemma BurialsStep(s: State, a: Action)
    requires Enabled(s, a) && HistoryInv(s)
    ensures BurialsOk(Apply(s, a).log)
  {
    var u := Apply(s, a);
    assert u.log[..|s.log|] == s.log;
    if a.WorkerBury? {
      assert ProcOk(s.log, s.procs[a.p]);
    }
    forall b | 0 <= b < |u.log| && u.log[b].Buried?
      ensures u.log[b].entry.attempts == MAX_ATTEMPTS && FailureOk(u.log[..b], u.log[b].entry, u.log[b].poppedAt)
    {
      if b < |s.log| {
        assert u.log[b] == s.log[b] && u.log[..b] == s.log[..b];
      }
    }
  }

  lemma CountersStep(s: State, a: Action)
    requires Enabled(s, a) && HistoryInv(s)
    ensures CountersOk(Apply(s, a).log)
  {
    var u := Apply(s, a);
    assert u.log[..|s.log|] == s.log;
    if a.WorkerInsert? {
      assert ProcOk(s.log, s.procs[a.p]);
    }
    forall i | 0 <= i < |u.log|
      ensures CounterOk(u.log[i])
    {
      if i < |s.log| {
        assert u.log[i] == s.log[i];
      }
    }
  }

  lemma HistoryStep(s: State, a: Action)
    requires Enabled(s, a) && HistoryInv(s)
    ensures HistoryInv(Apply(s, a))
  {
    var u := Apply(s, a);
    forall p | p in u.procs
      ensures ProcOk(u.log, u.procs[p])
    {
      if p in s.procs && u.procs[p] == s.procs[p] {
        ProcGrows(s.log, u.log, s.procs[p]);
      } else {
        MoverOk(s, a);
      }
    }
    forall x | x in u.retry
      ensures Queued(u.log, x, u.retry[x])
    {
      QueueOk(s, a, x);
    }
    forall x | x in u.dead
      ensures x.attempts == MAX_ATTEMPTS && BurialOk(u.log, x)
    {
      DeadOk(s, a, x);
    }
    PopsStep(s, a);
    BurialsStep(s, a);
    CountersStep(s, a);
  }

  lemma {:induction false} RunHistory(actions: seq<Action>)
    requires Run(INIT, actions).Some?
    ensures HistoryInv(Run(INIT, actions).value)
  {
    if actions == [] {
    } else {
      RunHistory(actions[..|actions| - 1]);
      HistoryStep(Run(INIT, actions[..|actions| - 1]).value, actions[|actions| - 1]);
    }
  }

  /** Entries waiting or being retried have a counter between 1 and MAX_ATTEMPTS, so the backoff's shift
      count is never negative and a worker whose insert failed can always reschedule or bury. */
  lemma CountersInRange(s: State)
    requires Reachable(s)
    ensures forall x :: x in s.retry ==> 1 <= x.attempts <= MAX_ATTEMPTS
    ensures forall p :: p in s.procs && s.procs[p].WHold? ==> 1 <= s.procs[p].entry.attempts <= MAX_ATTEMPTS
    ensures forall p, now :: p in s.procs && s.procs[p].WBackoff? ==> Enabled(s, WorkerStamp(p, now))
  {
    var actions :| Run(INIT, actions) == Some(s);
    RunHistory(actions);
    forall x | x in s.retry
      ensures 1 <= x.attempts <= MAX_ATTEMPTS
    {
      var readyAt :| Millis(readyAt) == s.retry[x] && StampOk(s.log, x, readyAt);
    }
  }

  lemma RecordedCounters(s: State, i: nat)
    requires Reachable(s) && i < |s.log|
    ensures CounterOk(s.log[i])
  {
    var actions :| Run(INIT, actions) == Some(s);
    RunHistory(actions);
  }

  // ---- The failures behind an entry ----

  /** `at[0]` is the handler's failed insert of the event; `at[k]` the worker's failed insert of the
      entry with counter k; in that order. */
  ghost predicate FailureTrail(log: seq<Event>, entry: Entry, at: seq<nat>) {
    && |at| == entry.attempts + 1 && |at| >= 1
    && (forall j, k :: 0 <= j < k < |at| ==> at[j] < at[k])
    && (forall k :: 0 <= k < |at| ==> at[k] < |log|)
    && log[at[0]] == HandlerInserted(entry.event, Failed)
    && forall k :: 1 <= k < |at| ==>
         var ev := log[at[k]]; ev.WorkerInserted? && ev.result.Failed? && ev.entry == entry.(attempts := k)
  }

  /** A failure and the pop before it. */
  lemma FailureCause(log: seq<Event>, entry: Entry, at: int) returns (l: nat)
    requires FailureOk(log, entry, at)
    ensures l < |log| && IsWorkerFailure(log[l], entry, at) && PopOkay(log[..l], entry, at)
  {
    l :| 0 <= l < |log| && IsWorkerFailure(log[l], entry, at) && PopOkay(log[..l], entry, at);
  }

  /** Behind the pop of a fresh entry there is the handler's failed insert. */
  lemma FirstPopCause(log: seq<Event>, entry: Entry, at: int) returns (l: nat)
    requires entry.attempts == 1 && PopOkay(log, entry, at)
    ensures l < |log| && log[l] == HandlerInserted(entry.event, Failed)
  {
    var j :| 0 <= j < |log| && IsPop(log[j], entry, at) && Queued(log[..j], entry, log[j].score);
    var readyAt :| Millis(readyAt) == log[j].score && StampOk(log[..j], entry, readyAt);
    var k :| 0 <= k < j && IsStamp(log[..j][k], entry, readyAt) && HandlerFailed(log[..j][..k], entry.event);
    assert log[..j][..k] == log[..k];
    l :| 0 <= l < k && log[..k][l] == HandlerInserted(entry.event, Failed);
  }

  /** Behind the pop of a retried entry there are its rescheduling, with the backoff between the two,
      and before that the failure of the previous attempt. */
  lemma RetryPopCause(log: seq<Event>, entry: Entry, at: int) returns (k: nat, l: nat)
    requires entry.attempts != 1 && PopOkay(log, entry, at)
    ensures 2 <= entry.attempts <= MAX_ATTEMPTS
    ensures l < k < |log| && log[k].Rescheduled? && log[k].entry == entry
    ensures at > log[k].now + B.Delay(entry.attempts) - NANOS_PER_MILLI
    ensures IsWorkerFailure(log[l], Previous(entry), log[k].poppedAt)
    ensures PopOkay(log[..l], Previous(entry), log[k].poppedAt)
  {
    var j :| 0 <= j < |log| && IsPop(log[j], entry, at) && Queued(log[..j], entry, log[j].score);
    var readyAt :| Millis(readyAt) == log[j].score && StampOk(log[..j], entry, readyAt);
    k :| 0 <= k < j && IsRescheduling(log[..j][k], entry, readyAt)
      && FailureOk(log[..j][..k], Previous(entry), log[..j][k].poppedAt);
    assert log[..j][..k] == log[..k];
    l := FailureCause(log[..k], Previous(entry), log[k].poppedAt);
    assert log[..k][..l] == log[..l];
    ReadyNotEarly(readyAt, at);
  }

  /** Truncation to milliseconds costs less than one millisecond. */
  lemma ReadyNotEarly(readyAt: int, at: int)
    requires Millis(readyAt) <= Millis(at)
    ensures at > readyAt - NANOS_PER_MILLI
  {
  }

  lemma {:induction false} PopTrail(log: seq<Event>, entry: Entry, popped: int) returns (at: seq<nat>)
    requires PopOkay(log, entry, popped)
    ensures 1 <= entry.attempts <= MAX_ATTEMPTS
    ensures |at| == entry.attempts && FailureTrail(log, Previous(entry), at)
    decreases |log|
  {
    if entry.attempts == 1 {
      var l := FirstPopCause(log, entry, popped);
      at := [l];
    } else {
      var k, l := RetryPopCause(log, entry, popped);
      var earlier := PopTrail(log[..l], Previous(entry), log[k].poppedAt);
      at := earlier + [l];
    }
  }

  /** A dead entry's burial, and its last failure. */
  lemma Burial(s: State, x: Entry) returns (b: nat, l: nat)
    requires Reachable(s) && x in s.dead
    ensures x.attempts == MAX_ATTEMPTS
    ensures l < b < |s.log| && s.log[b].Buried? && s.log[b].entry == x
    ensures IsWorkerFailure(s.log[l], x, s.log[b].poppedAt) && PopOkay(s.log[..l], x, s.log[b].poppedAt)
  {
    var actions :| Run(INIT, actions) == Some(s);
    RunHistory(actions);
    b :| 0 <= b < |s.log| && s.log[b].Buried? && s.log[b].entry == x
      && FailureOk(s.log[..b], x, s.log[b].poppedAt);
    l := FailureCause(s.log[..b], x, s.log[b].poppedAt);
    assert s.log[..b][..l] == s.log[..l];
  }

  /** Every dead entry has used up its attempts: one failed insert by a handler, and after it five by
      workers, one for each value of the counter. */
  lemma DeadLetterHistory(s: State, x: Entry) returns (at: seq<nat>)
    requires Reachable(s) && x in s.dead
    ensures x.attempts == MAX_ATTEMPTS && |at| == 6 && FailureTrail(s.log, x, at)
  {
    var b, l := Burial(s, x);
    var earlier := PopTrail(s.log[..l], x, s.log[b].poppedAt);
    at := earlier + [l];
  }

  // ---- The time between them ----

  /** No worker's clock runs back while the worker processes one entry. The clocks of different workers need not
      agree, nor their readings come in the order of what they lead to. */
  ghost predicate ClocksRunOn(log: seq<Event>) {
    forall i :: 0 <= i < |log| && (log[i].Rescheduled? || log[i].Buried?) ==> log[i].poppedAt <= log[i].now
  }

  /** If an attempt failed and was rescheduled at t with delay d, the pop that follows from it comes
      later than t + d - 1ms: no retried entry is ever popped but after such a rescheduling. */
  lemma BackoffSpacing(s: State, j: nat) returns (k: nat)
    requires Reachable(s) && j < |s.log| && s.log[j].Popped? && s.log[j].entry.attempts != 1
    ensures 2 <= s.log[j].entry.attempts <= MAX_ATTEMPTS
    ensures k < j && s.log[k].Rescheduled? && s.log[k].entry == s.log[j].entry
    ensures s.log[j].at > s.log[k].now + B.Delay(s.log[j].entry.attempts) - NANOS_PER_MILLI
  {
    var actions :| Run(INIT, actions) == Some(s);
    RunHistory(actions);
    var entry := s.log[j].entry;
    var readyAt :| Millis(readyAt) == s.log[j].score && StampOk(s.log[..j], entry, readyAt);
    k :| 0 <= k < j && IsRescheduling(s.log[..j][k], entry, readyAt);
    ReadyNotEarly(readyAt, s.log[j].at);
  }

  /** From the first pop of an event's entry to its pop with counter a, all the backoffs up to a have
      passed, give or take a millisecond each. */
  lemma {:induction false} TotalSpacing(log: seq<Event>, entry: Entry, at: int) returns (first: nat)
    requires PopOkay(log, entry, at) && ClocksRunOn(log)
    ensures 1 <= entry.attempts <= MAX_ATTEMPTS
    ensures first < |log| && log[first].Popped? && IsPop(log[first], entry.(attempts := 1), log[first].at)
    ensures at - log[first].at >= B.TotalDelay(B.BACKOFF_INITIAL, B.BACKOFF_MAX, entry.attempts)
                                - (entry.attempts - 1) * (NANOS_PER_MILLI - 1)
    decreases |log|
  {
    if entry.attempts == 1 {
      first :| 0 <= first < |log| && IsPop(log[first], entry, at);
    } else {
      var k, l := RetryPopCause(log, entry, at);
      first := TotalSpacing(log[..l], Previous(entry), log[k].poppedAt);
      B.ProductionDelay(entry.attempts);
    }
  }

  /** With the production constants no worker gives up on an entry, whether or not the push to the dead list
      then succeeds, until more than 30s - 4ms after a first pop of it. */
  lemma DeadNoSoonerThan30s(s: State, b: nat) returns (first: nat)
    requires Reachable(s) && ClocksRunOn(s.log) && b < |s.log| && s.log[b].Buried?
    ensures s.log[b].entry.attempts == MAX_ATTEMPTS
    ensures first < b && s.log[first].Popped? && s.log[first].entry == s.log[b].entry.(attempts := 1)
    ensures s.log[b].now - s.log[first].at > 30_000_000_000 - 4 * NANOS_PER_MILLI
  {
    var actions :| Run(INIT, actions) == Some(s);
    RunHistory(actions);
    var x, at := s.log[b].entry, s.log[b].poppedAt;
    var l := FailureCause(s.log[..b], x, at);
    assert s.log[..b][..l] == s.log[..l];
    first := TotalSpacing(s.log[..l], x, at);
    B.ProductionTotal();
  }
}
