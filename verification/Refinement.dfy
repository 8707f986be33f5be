/** The whole faulty system, seen from the table and the publisher, does nothing but add new events and
    publish each of them at most once; a publication that Redis refuses is none. */
module Refinement {
  import opened Domain
  import opened Store
  import opened Protocol
  import opened Safety

  /** The abstract service: the events recorded, the hashes still to be published, the publications. */
  datatype Spec = Spec(events: seq<InsertParams>, pending: set<Bytes>, published: seq<InsertParams>)

  const SPEC_INIT := Spec([], {}, [])

  predicate HashAmong(events: seq<InsertParams>, hash: Bytes) {
    exists e :: e in events && e.eventHash == hash
  }

  /** Record an event whose hash is absent; `announced` when it will be published next. */
  ghost predicate Add(x: Spec, y: Spec) {
    && |y.events| == |x.events| + 1
    && var e := y.events[|x.events|];
    && y.events == x.events + [e] && !HashAmong(x.events, e.eventHash)
    && (y.pending == x.pending || y.pending == x.pending + {e.eventHash})
    && y.published == x.published
  }

  /** Publish a recorded event that is pending; it is pending no more. */
  ghost predicate Publish(x: Spec, y: Spec) {
    && |y.published| == |x.published| + 1
    && var e := y.published[|x.published|];
    && y.published == x.published + [e] && e in x.events
    && e.eventHash in x.pending && !HashAmong(x.published, e.eventHash)
    && y.pending == x.pending - {e.eventHash}
    && y.events == x.events
  }

  /** The process that was to publish is gone, or its call failed: the event will never be published. */
  ghost predicate Forfeit(x: Spec, y: Spec) {
    && |x.pending| == |y.pending| + 1 && y.pending < x.pending
    && y == x.(pending := y.pending)
  }

  ghost predicate Next(x: Spec, y: Spec) {
    Add(x, y) || Publish(x, y) || Forfeit(x, y) || x == y
  }

  function Events(t: Table): (es: seq<InsertParams>)
    ensures |es| == |t|
  {
    seq(|t|, i requires 0 <= i < |t| => EventOf(t[i]))
  }

  function Publications(log: seq<Event>): seq<InsertParams> {
    if log == [] then []
    else
      var ev := log[|log| - 1];
      Publications(log[..|log| - 1]) + if Posts(ev) then [EventOf(ev.n)] else []
  }

  function Pending(procs: map<Pid, Proc>): set<Bytes> {
    set p | p in procs && Permit(procs[p]).Some? :: Permit(procs[p]).value.eventHash
  }

  function Abs(s: State): Spec {
    Spec(Events(s.table), Pending(s.procs), Publications(s.log))
  }

  lemma {:induction false} PublicationsComeFromLog(log: seq<Event>, e: InsertParams)
    ensures e in Publications(log) <==> exists i :: 0 <= i < |log| && Posts(log[i]) && EventOf(log[i].n) == e
  {
    if log == [] {
    } else {
      var init := log[..|log| - 1];
      PublicationsComeFromLog(init, e);
      assert forall i :: 0 <= i < |init| ==> init[i] == log[i];
    }
  }

  lemma EventsOfGrown(t: Table, u: Table)
    requires Grows(t, u)
    ensures Events(t) == Events(u)[..|t|]
  {
  }

  lemma EventsHash(t: Table, hash: Bytes)
    ensures HashAmong(Events(t), hash) <==> HasHash(t, hash)
  {
    if HasHash(t, hash) {
      var i :| 0 <= i < |t| && t[i].eventHash == hash;
      assert Events(t)[i] in Events(t);
    }
    if HashAmong(Events(t), hash) {
      var i :| 0 <= i < |t| && Events(t)[i].eventHash == hash;
      assert t[i] in t;
    }
  }

  /** A process that changes without having or gaining a permit leaves the pending hashes alone. */
  lemma PendingKept(s: State, u: State, p: Pid)
    requires forall q :: q != p ==> (q in s.procs <==> q in u.procs) && (q in s.procs ==> s.procs[q] == u.procs[q])
    requires p in s.procs ==> Permit(s.procs[p]).None?
    ensures p in u.procs && Permit(u.procs[p]).Some? ==>
      Pending(u.procs) == Pending(s.procs) + {Permit(u.procs[p]).value.eventHash}
    ensures !(p in u.procs && Permit(u.procs[p]).Some?) ==> Pending(u.procs) == Pending(s.procs)
  {
  }

  /** Giving up a permit removes exactly its hash, since no other process has one for it. */
  lemma PendingUsed(s: State, u: State, p: Pid)
    requires PermitInv(s)
    requires forall q :: q != p ==> (q in s.procs <==> q in u.procs) && (q in s.procs ==> s.procs[q] == u.procs[q])
    requires p in s.procs && Permit(s.procs[p]).Some?
    requires p in u.procs ==> Permit(u.procs[p]).None?
    ensures Permit(s.procs[p]).value.eventHash in Pending(s.procs)
    ensures Pending(u.procs) == Pending(s.procs) - {Permit(s.procs[p]).value.eventHash}
  {
    forall h | h in Pending(s.procs) && h != Permit(s.procs[p]).value.eventHash
      ensures h in Pending(u.procs)
    {
      var q :| q in s.procs && Permit(s.procs[q]).Some? && Permit(s.procs[q]).value.eventHash == h;
      assert q in u.procs && Permit(u.procs[q]).Some?;
    }
  }

  /** An insert seen from outside: a row for `e` or none, and perhaps a permit for its hash. */
  lemma AddRefines(s: State, u: State, e: InsertParams, id: Uuid, at: int)
    requires u.table == s.table || (u.table == s.table + [RowFor(e, id, at)] && !HasHash(s.table, e.eventHash))
    requires Pending(u.procs) == Pending(s.procs)
      || (u.table != s.table && Pending(u.procs) == Pending(s.procs) + {e.eventHash})
    requires Publications(u.log) == Publications(s.log)
    ensures Next(Abs(s), Abs(u))
  {
    EventsHash(s.table, e.eventHash);
    if u.table != s.table {
      assert Events(u.table) == Events(s.table) + [e];
      assert Add(Abs(s), Abs(u));
    }
  }

  lemma InsertEffect(s: State, a: Action, e: InsertParams)
    requires Enabled(s, a) && (a.HandlerInsert? || a.WorkerInsert?)
    requires e == if a.HandlerInsert? then s.procs[a.p].e else s.procs[a.p].entry.event
    ensures var u := Apply(s, a);
      && (u.table == s.table || (u.table == s.table + [RowFor(e, a.id, a.at)] && !HasHash(s.table, e.eventHash)))
      && (forall q :: q != a.p ==> (q in s.procs <==> q in u.procs) && (q in s.procs ==> s.procs[q] == u.procs[q]))
      && a.p in u.procs
      && (Permit(u.procs[a.p]).Some? ==> u.table != s.table && Permit(u.procs[a.p]).value.eventHash == e.eventHash)
      && |u.log| == |s.log| + 1 && u.log[..|s.log|] == s.log && !u.log[|s.log|].Published?
  {
    InsertResults(s.table, e, a.id, a.at, a.fault);
  }

  lemma InsertRefines(s: State, a: Action)
    requires Enabled(s, a) && (a.HandlerInsert? || a.WorkerInsert?)
    ensures Next(Abs(s), Abs(Apply(s, a)))
  {
    var u := Apply(s, a);
    var e := if a.HandlerInsert? then s.procs[a.p].e else s.procs[a.p].entry.event;
    InsertEffect(s, a, e);
    PendingKept(s, u, a.p);
    AddRefines(s, u, e, a.id, a.at);
  }

  /** What is published is pending, and has not been published before. */
  lemma PermitIsPublishable(s: State, n: Notification, p: Pid)
    requires Inv(s) && p in s.procs && Permit(s.procs[p]) == Some(n)
    ensures EventOf(n) in Events(s.table) && !HashAmong(Publications(s.log), n.eventHash)
  {
    var k :| 0 <= k < |s.table| && OnlyReadMarkChanged(n, s.table[k]);
    assert Events(s.table)[k] == EventOf(n);
    forall e | e in Publications(s.log)
      ensures e.eventHash != n.eventHash
    {
      PublicationsComeFromLog(s.log, e);
    }
  }

  lemma PublishEffect(s: State, a: Action)
    requires Enabled(s, a) && (a.HandlerPublish? || a.WorkerPublish?)
    ensures var u := Apply(s, a);
      && Permit(s.procs[a.p]).Some? && a.p in u.procs && Permit(u.procs[a.p]).None?
      && (forall q :: q != a.p ==> (q in s.procs <==> q in u.procs) && (q in s.procs ==> s.procs[q] == u.procs[q]))
      && u.table == s.table && u.log == s.log + [Published(Permit(s.procs[a.p]).value, a.fault)]
  {
  }

  /** With its permit used, a process has published the event or, if the call failed, forfeited it. */
  lemma PermitUsedUp(s: State, u: State, p: Pid, fault: Fault)
    requires Inv(s) && p in s.procs && Permit(s.procs[p]).Some? && p in u.procs && Permit(u.procs[p]).None?
    requires forall q :: q != p ==> (q in s.procs <==> q in u.procs) && (q in s.procs ==> s.procs[q] == u.procs[q])
    requires u.table == s.table && u.log == s.log + [Published(Permit(s.procs[p]).value, fault)]
    ensures Next(Abs(s), Abs(u))
  {
    PendingUsed(s, u, p);
    assert u.log[..|s.log|] == s.log;
    if fault == FailsBefore {
      assert Forfeit(Abs(s), Abs(u));
    } else {
      PermitIsPublishable(s, Permit(s.procs[p]).value, p);
      assert Publish(Abs(s), Abs(u));
    }
  }

  lemma PublishRefines(s: State, a: Action)
    requires Enabled(s, a) && Inv(s) && (a.HandlerPublish? || a.WorkerPublish?)
    ensures Next(Abs(s), Abs(Apply(s, a)))
  {
    PublishEffect(s, a);
    PermitUsedUp(s, Apply(s, a), a.p, a.fault);
  }

  lemma CrashRefines(s: State, a: Action)
    requires Enabled(s, a) && Inv(s) && a.Crash?
    ensures Next(Abs(s), Abs(Apply(s, a)))
  {
    var u := Apply(s, a);
    assert u.log[..|s.log|] == s.log;
    if Permit(s.procs[a.p]).Some? {
      PendingUsed(s, u, a.p);
      assert Forfeit(Abs(s), Abs(u));
    } else {
      PendingKept(s, u, a.p);
    }
  }

  lemma OtherStepsKeep(s: State, a: Action)
    requires Enabled(s, a)
    requires !a.HandlerInsert? && !a.WorkerInsert? && !a.HandlerPublish? && !a.WorkerPublish? && !a.Crash?
    ensures !Apply(s, a).log[|s.log|].Published?
    ensures Pending(Apply(s, a).procs) == Pending(s.procs)
  {
    if !a.MarkRowRead? {
      PendingKept(s, Apply(s, a), a.p);
    }
  }

  lemma OtherStepsStutter(s: State, a: Action)
    requires Enabled(s, a) && Valid(s.table)
    requires !a.HandlerInsert? && !a.WorkerInsert? && !a.HandlerPublish? && !a.WorkerPublish? && !a.Crash?
    ensures Abs(Apply(s, a)) == Abs(s)
  {
    var u := Apply(s, a);
    StepGrowsTable(s, a);
    OtherStepsKeep(s, a);
    assert |u.table| == |s.table|;
    EventsOfGrown(s.table, u.table);
  }

  /** Each step of the system is a step of the abstract service, or none of its business. */
  lemma StepRefines(s: State, a: Action)
    requires Reachable(s) && Enabled(s, a)
    ensures Next(Abs(s), Abs(Apply(s, a)))
  {
    ReachableInv(s);
    match a {
      case HandlerInsert(_, _, _, _) => InsertRefines(s, a);
      case WorkerInsert(_, _, _, _) => InsertRefines(s, a);
      case HandlerPublish(_, _) => PublishRefines(s, a);
      case WorkerPublish(_, _) => PublishRefines(s, a);
      case Crash(_) => CrashRefines(s, a);
      case _ => OtherStepsStutter(s, a);
    }
  }

  ghost predicate IsSpecRun(trace: seq<Spec>) {
    && |trace| > 0 && trace[0] == SPEC_INIT
    && forall i :: 0 < i < |trace| ==> Next(trace[i - 1], trace[i])
  }

  /** The abstract states along a run. */
  ghost function Trace(actions: seq<Action>): seq<Spec>
    requires Run(INIT, actions).Some?
  {
    seq(|actions| + 1, i requires 0 <= i <= |actions| => (
      PrefixRuns(INIT, actions, i);
      Abs(Run(INIT, actions[..i]).value)))
  }

  lemma TraceStep(actions: seq<Action>, i: nat)
    requires Run(INIT, actions).Some? && i < |actions|
    ensures Next(Trace(actions)[i], Trace(actions)[i + 1])
  {
    PrefixRuns(INIT, actions, i);
    StepRefines(Run(INIT, actions[..i]).value, actions[i]);
  }

  /** Every run of the system, state by state, is a run of the abstract service. */
  lemma RunRefines(actions: seq<Action>)
    requires Run(INIT, actions).Some?
    ensures IsSpecRun(Trace(actions))
    ensures Trace(actions)[|actions|] == Abs(Run(INIT, actions).value)
  {
    assert actions[..0] == [] && actions[..|actions|] == actions;
    forall i | 0 < i < |actions| + 1
      ensures Next(Trace(actions)[i - 1], Trace(actions)[i])
    {
      TraceStep(actions, i - 1);
    }
  }
}
