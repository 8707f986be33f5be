/** Where an event is, from its arrival on: conservation with named losses, and what a drained system
    has persisted. */
module Custody {
  import opened Domain
  import opened Store
  import opened Protocol
  import Safety

  /** The event a process alone may be holding. */
  function Carries(proc: Proc): Option<InsertParams> {
    match proc
    case HInsert(e) => Some(e)
    case HEnqueue(e) => Some(e)
    case HAdd(entry, _) => Some(entry.event)
    case WHold(entry, _) => Some(entry.event)
    case WBackoff(entry, _) => Some(entry.event)
    case WAdd(entry, _) => Some(entry.event)
    case WBury(entry, _) => Some(entry.event)
    case _ => None
  }

  predicate CarriesHash(proc: Proc, hash: Bytes) {
    Carries(proc).Some? && Carries(proc).value.eventHash == hash
  }

  ghost predicate InFlight(s: State, hash: Bytes) {
    exists p :: p in s.procs && CarriesHash(s.procs[p], hash)
  }

  ghost predicate Waiting(s: State, hash: Bytes) {
    exists x :: x in s.retry && x.event.eventHash == hash
  }

  ghost predicate Dead(s: State, hash: Bytes) {
    exists x :: x in s.dead && x.event.eventHash == hash
  }

  ghost predicate Held(s: State, hash: Bytes) {
    HasHash(s.table, hash) || InFlight(s, hash) || Waiting(s, hash) || Dead(s, hash)
  }

  /** The faults that can lose an event, and which event each one loses: an enqueue or a move to the
      dead list that fails without effect, a pop whose reply is lost or cannot be decoded, and a crash
      of the process that holds the event. */
  function Loses(ev: Event): Option<InsertParams> {
    match ev
    case Enqueued(entry, fault) => if fault == FailsBefore then Some(entry.event) else None
    case Popped(entry, _, _, f) => if f == PopOk then None else Some(entry.event)
    case Buried(entry, _, _, fault) => if fault == FailsBefore then Some(entry.event) else None
    case Crashed(victim) => Carries(victim)
    case _ => None
  }

  predicate LosesHash(ev: Event, hash: Bytes) {
    Loses(ev).Some? && Loses(ev).value.eventHash == hash
  }

  lemma StillInFlight(u: State, p: Pid, hash: Bytes)
    requires p in u.procs && CarriesHash(u.procs[p], hash)
    ensures Held(u, hash)
  {
  }

  /** A step that is not one of those faults keeps every event that is held; one of them can lose
      only the event it names. */
  lemma HeldUnlessLost(s: State, a: Action, hash: Bytes)
    requires Enabled(s, a) && Safety.Inv(s) && Held(s, hash)
    ensures Held(Apply(s, a), hash) || LosesHash(Apply(s, a).log[|s.log|], hash)
  {
    var u := Apply(s, a);
    StepGrowsTable(s, a);
    if HasHash(s.table, hash) {
      GrowsKeepsHash(s.table, u.table, hash);
    } else if InFlight(s, hash) {
      FlightKept(s, a, hash);
    } else if Waiting(s, hash) {
      WaitingKept(s, a, hash);
    } else {
      DeadStayDead(s, a, hash);
    }
  }

  lemma FlightKept(s: State, a: Action, hash: Bytes)
    requires Enabled(s, a) && InFlight(s, hash)
    ensures Held(Apply(s, a), hash) || LosesHash(Apply(s, a).log[|s.log|], hash)
  {
    var p :| p in s.procs && CarriesHash(s.procs[p], hash);
    if p in Apply(s, a).procs && Apply(s, a).procs[p] == s.procs[p] {
      StillInFlight(Apply(s, a), p, hash);
    } else {
      MoverKeeps(s, a, hash);
    }
  }

  /** Only a pop takes an entry out of the retry set; the worker holds it then, or the pop lost it. */
  lemma WaitingKept(s: State, a: Action, hash: Bytes)
    requires Enabled(s, a) && Waiting(s, hash)
    ensures Held(Apply(s, a), hash) || LosesHash(Apply(s, a).log[|s.log|], hash)
  {
    var u := Apply(s, a);
    var x :| x in s.retry && x.event.eventHash == hash;
    if x !in u.retry {
      assert a.WorkerPop? && x == a.entry;
      assert CarriesHash(u.procs[a.p], hash) || LosesHash(u.log[|s.log|], hash);
    }
  }

  lemma DeadStayDead(s: State, a: Action, hash: Bytes)
    requires Enabled(s, a) && Dead(s, hash)
    ensures Dead(Apply(s, a), hash)
  {
    var x :| x in s.dead && x.event.eventHash == hash;
    assert x in Apply(s, a).dead;
  }

  /** The process that moves hands its event on to the table, the retry set, the dead list or its own
      next state. */
  lemma MoverKeeps(s: State, a: Action, hash: Bytes)
    requires Enabled(s, a) && !a.MarkRowRead? && !a.Arrive? && !a.WorkerStart?
    requires CarriesHash(s.procs[a.p], hash)
    ensures Held(Apply(s, a), hash) || LosesHash(Apply(s, a).log[|s.log|], hash)
  {
    var u, p := Apply(s, a), a.p;
    match a {
      case HandlerInsert(_, id, at, fault) =>
        InsertResults(s.table, s.procs[p].e, id, at, fault);
        assert u.procs[p].HEnqueue? ==> CarriesHash(u.procs[p], hash);
      case WorkerInsert(_, id, at, fault) =>
        InsertResults(s.table, s.procs[p].entry.event, id, at, fault);
        assert u.procs[p].WBackoff? || u.procs[p].WBury? ==> CarriesHash(u.procs[p], hash);
      case HandlerStamp(_, _, _) => StillInFlight(u, p, hash);
      case WorkerStamp(_, _) => StillInFlight(u, p, hash);
      case HandlerAdd(_, fault) => assert fault != FailsBefore ==> s.procs[p].entry in u.retry;
      case WorkerAdd(_, fault) => assert fault != FailsBefore ==> s.procs[p].entry in u.retry;
      case WorkerBury(_, _, fault) => assert fault != FailsBefore ==> s.procs[p].entry in u.dead;
      case _ =>
    }
  }

  /** Every arrival is still held somewhere, or was lost by a fault that came after it. */
  ghost predicate Accounted(s: State, i: nat)
    requires i < |s.log| && s.log[i].Arrived?
  {
    || Held(s, s.log[i].e.eventHash)
    || exists j :: i < j < |s.log| && LosesHash(s.log[j], s.log[i].e.eventHash)
  }

  lemma AccountedStep(s: State, a: Action, i: nat)
    requires Enabled(s, a) && Safety.Inv(s)
    requires i < |s.log| && s.log[i].Arrived? && Accounted(s, i)
    ensures Accounted(Apply(s, a), i)
  {
    var u, hash := Apply(s, a), s.log[i].e.eventHash;
    StepGrowsTable(s, a);
    if Held(s, hash) {
      HeldUnlessLost(s, a, hash);
    } else {
      var j :| i < j < |s.log| && LosesHash(s.log[j], hash);
      assert u.log[j] == s.log[j];
    }
  }

  lemma {:induction false} RunAccounts(actions: seq<Action>, i: nat)
    requires Run(INIT, actions).Some?
    requires var s := Run(INIT, actions).value; i < |s.log| && s.log[i].Arrived?
    ensures Accounted(Run(INIT, actions).value, i)
  {
    if actions == [] {
    } else {
      var before, a := actions[..|actions| - 1], actions[|actions| - 1];
      var s := Run(INIT, before).value;
      Safety.RunInv(INIT, before);
      StepGrowsTable(s, a);
      if i < |s.log| {
        RunAccounts(before, i);
        AccountedStep(s, a, i);
      } else {
        StillInFlight(Apply(s, a), a.p, a.e.eventHash);
      }
    }
  }

  /** Conservation: in every reachable state, each event that reached Insert is in the table, held by a
      handler or worker, in the retry set or in the dead list, unless one of the named faults hit it
      after it arrived. */
  lemma Conservation(s: State, i: nat)
    requires Reachable(s) && i < |s.log| && s.log[i].Arrived?
    ensures Accounted(s, i)
  {
    var actions :| Run(INIT, actions) == Some(s);
    RunAccounts(actions, i);
  }

  // ---- Nothing comes from nowhere ----

  ghost predicate ArrivedIn(log: seq<Event>, e: InsertParams) {
    exists i :: 0 <= i < |log| && log[i] == Arrived(e)
  }

  function About(proc: Proc): Option<InsertParams> {
    match proc
    case HPublish(e, _) => Some(e)
    case HReply(e, _) => Some(e)
    case WPublish(n) => Some(EventOf(n))
    case WIdle => None
    case _ => Carries(proc)
  }

  ghost predicate Provenance(s: State) {
    && (forall r :: r in s.table ==> ArrivedIn(s.log, EventOf(r)))
    && (forall p :: p in s.procs && About(s.procs[p]).Some? ==> ArrivedIn(s.log, About(s.procs[p]).value))
    && (forall x :: x in s.retry ==> ArrivedIn(s.log, x.event))
    && (forall x :: x in s.dead ==> ArrivedIn(s.log, x.event))
    && (forall i :: 0 <= i < |s.log| && s.log[i].Replied? ==> ArrivedIn(s.log, s.log[i].e))
  }

  lemma ArrivedGrows(log: seq<Event>, ev: Event)
    ensures forall e :: ArrivedIn(log, e) ==> ArrivedIn(log + [ev], e)
    ensures ev.Arrived? ==> ArrivedIn(log + [ev], ev.e)
  {
    forall e | ArrivedIn(log, e)
      ensures ArrivedIn(log + [ev], e)
    {
      var i :| 0 <= i < |log| && log[i] == Arrived(e);
      assert (log + [ev])[i] == Arrived(e);
    }
    assert (log + [ev])[|log|] == ev;
  }

  lemma ProvenanceStep(s: State, a: Action)
    requires Enabled(s, a) && Provenance(s)
    ensures Provenance(Apply(s, a))
  {
    var u := Apply(s, a);
    ArrivedGrows(s.log, u.log[|s.log|]);
    assert u.log == s.log + [u.log[|s.log|]];
    ProvenanceOfRows(s, a);
    ProvenanceOfProcs(s, a);
    QueueOrigin(s, a);
  }

  lemma ProvenanceOfRows(s: State, a: Action)
    requires Enabled(s, a) && Provenance(s)
    ensures forall r :: r in Apply(s, a).table ==> ArrivedIn(s.log, EventOf(r))
  {
    forall r | r in Apply(s, a).table
      ensures ArrivedIn(s.log, EventOf(r))
    {
      RowOrigin(s, a, r);
    }
  }

  lemma ProvenanceOfProcs(s: State, a: Action)
    requires Enabled(s, a) && Provenance(s)
    ensures forall p :: p in Apply(s, a).procs && About(Apply(s, a).procs[p]).Some? ==>
      ArrivedIn(s.log, About(Apply(s, a).procs[p]).value)
      || Apply(s, a).log[|s.log|] == Arrived(About(Apply(s, a).procs[p]).value)
  {
    forall p | p in Apply(s, a).procs && About(Apply(s, a).procs[p]).Some?
      ensures ArrivedIn(s.log, About(Apply(s, a).procs[p]).value)
           || Apply(s, a).log[|s.log|] == Arrived(About(Apply(s, a).procs[p]).value)
    {
      ProcOrigin(s, a, p);
    }
  }

  /** A process is about what it was about before, or about an event of the retry set, or has just
      begun to serve an arrival. */
  lemma ProcOrigin(s: State, a: Action, p: Pid)
    requires Enabled(s, a) && p in Apply(s, a).procs && About(Apply(s, a).procs[p]).Some?
    ensures var e := About(Apply(s, a).procs[p]).value;
      || (p in s.procs && About(s.procs[p]) == Some(e))
      || (exists x :: x in s.retry && x.event == e)
      || Apply(s, a).log[|s.log|] == Arrived(e)
  {
    if a.HandlerInsert? || a.WorkerInsert? {
      InsertKeepsSubject(s, a, p);
    } else {
      OtherProcOrigin(s, a, p);
    }
  }

  lemma InsertKeepsSubject(s: State, a: Action, p: Pid)
    requires Enabled(s, a) && (a.HandlerInsert? || a.WorkerInsert?)
    requires p in Apply(s, a).procs && About(Apply(s, a).procs[p]).Some?
    ensures p in s.procs && About(s.procs[p]) == About(Apply(s, a).procs[p])
  {
    if p == a.p {
      var e := if a.HandlerInsert? then s.procs[p].e else s.procs[p].entry.event;
      InsertResults(s.table, e, a.id, a.at, a.fault);
    }
  }

  lemma OtherProcOrigin(s: State, a: Action, p: Pid)
    requires Enabled(s, a) && !a.HandlerInsert? && !a.WorkerInsert?
    requires p in Apply(s, a).procs && About(Apply(s, a).procs[p]).Some?
    ensures var e := About(Apply(s, a).procs[p]).value;
      || (p in s.procs && About(s.procs[p]) == Some(e))
      || (exists x :: x in s.retry && x.event == e)
      || Apply(s, a).log[|s.log|] == Arrived(e)
  {
  }

  lemma QueueOrigin(s: State, a: Action)
    requires Enabled(s, a)
    ensures forall x :: x in Apply(s, a).retry ==>
      x in s.retry || (a.p in s.procs && About(s.procs[a.p]) == Some(x.event))
    ensures forall x :: x in Apply(s, a).dead ==>
      x in s.dead || (a.p in s.procs && About(s.procs[a.p]) == Some(x.event))
    ensures Apply(s, a).log[|s.log|].Replied? ==>
      a.p in s.procs && About(s.procs[a.p]) == Some(Apply(s, a).log[|s.log|].e)
  {
  }

  lemma RowOrigin(s: State, a: Action, r: Notification)
    requires Enabled(s, a) && r in Apply(s, a).table
    ensures || (exists q :: q in s.table && EventOf(q) == EventOf(r))
            || (exists p :: p in s.procs && About(s.procs[p]) == Some(EventOf(r)))
  {
    var k :| 0 <= k < |Apply(s, a).table| && Apply(s, a).table[k] == r;
    if k < |s.table| {
      OldRow(s, a, k);
      assert s.table[k] in s.table;
    } else {
      NewRow(s, a, k);
    }
  }

  lemma OldRow(s: State, a: Action, k: nat)
    requires Enabled(s, a) && k < |s.table|
    ensures k < |Apply(s, a).table| && EventOf(Apply(s, a).table[k]) == EventOf(s.table[k])
  {
  }

  lemma NewRow(s: State, a: Action, k: nat)
    requires Enabled(s, a) && |s.table| <= k < |Apply(s, a).table|
    ensures (a.HandlerInsert? || a.WorkerInsert?) && About(s.procs[a.p]) == Some(EventOf(Apply(s, a).table[k]))
  {
  }

  lemma {:induction false} ReachableProvenance(actions: seq<Action>)
    requires Run(INIT, actions).Some?
    ensures Provenance(Run(INIT, actions).value)
  {
    if actions == [] {
    } else {
      ReachableProvenance(actions[..|actions| - 1]);
      ProvenanceStep(Run(INIT, actions[..|actions| - 1]).value, actions[|actions| - 1]);
    }
  }

  /** No two different events of the run share a hash: what SHA-256 of the raw body is relied on for. */
  ghost predicate HashDetermines(log: seq<Event>) {
    forall e, f :: ArrivedIn(log, e) && ArrivedIn(log, f) && e.eventHash == f.eventHash ==> e == f
  }

  /** When hashes tell events apart, a 200 too means that the row records the event of the request. */
  lemma DuplicateReplyNamesItsEvent(s: State, i: nat)
    requires Reachable(s) && HashDetermines(s.log)
    requires i < |s.log| && s.log[i].Replied? && s.log[i].code in {200, 201}
    ensures exists r :: r in s.table && EventOf(r) == s.log[i].e
  {
    Safety.ReachableInv(s);
    var actions :| Run(INIT, actions) == Some(s);
    ReachableProvenance(actions);
    var r :| r in s.table && r.eventHash == s.log[i].e.eventHash;
  }

  /** Nothing is on its way: no process carries an event and nothing waits for a retry. */
  ghost predicate Drained(s: State) {
    && s.retry == map[]
    && forall p :: p in s.procs ==> Carries(s.procs[p]).None?
  }

  /** After any run, however faulty, that has drained: an event is persisted exactly when it arrived,
      but for the events that are dead or were lost. */
  lemma DrainedHasPersistedAll(s: State, e: InsertParams)
    requires Reachable(s) && Drained(s) && HashDetermines(s.log)
    requires !Dead(s, e.eventHash)
    requires forall j :: 0 <= j < |s.log| ==> !LosesHash(s.log[j], e.eventHash)
    ensures ArrivedIn(s.log, e) <==> exists r :: r in s.table && EventOf(r) == e
  {
    var actions :| Run(INIT, actions) == Some(s);
    ReachableProvenance(actions);
    if ArrivedIn(s.log, e) {
      var i :| 0 <= i < |s.log| && s.log[i] == Arrived(e);
      Conservation(s, i);
      var r :| r in s.table && r.eventHash == e.eventHash;
    }
  }
}
