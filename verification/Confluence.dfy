/** Redelivery: what any fault-free interleaving of any number of requests, identical or not, comes to. */
module Confluence {
  import opened Domain
  import opened Store
  import opened Protocol
  import opened Custody
  import Safety

  /** A step of a run in which no call fails, or only publications, whose failure changes no answer. */
  predicate Clean(ev: Event) {
    || ev.Arrived? || ev.Published? || ev.Replied? || ev.Started? || ev.MarkedRead?
    || (ev.HandlerInserted? && !ev.result.Failed?)
  }

  ghost predicate FaultFree(log: seq<Event>) {
    forall i :: 0 <= i < |log| ==> Clean(log[i])
  }

  function ProcsThat(procs: map<Pid, Proc>, f: Proc -> bool): set<Pid> {
    set p | p in procs && f(procs[p])
  }

  const CREATED := (ev: Event) => ev.HandlerInserted? && ev.result.Created?
  const DUPLICATE := (ev: Event) => ev.HandlerInserted? && ev.result.Duplicate?
  const REPLIED := (code: int) => (ev: Event) => ev.Replied? && ev.code == code

  const INSERTING := (proc: Proc) => proc.HInsert?
  const ANNOUNCING := (proc: Proc) => proc.HPublish? || (proc.HReply? && proc.code == 201)
  const EXCUSING := (proc: Proc) => proc.HReply? && proc.code == 200

  lemma MoveCounts(s: State, p: Pid, next: Proc, ev: Event, f: Proc -> bool)
    ensures |ProcsThat(Move(s, p, next, ev).procs, f)| + (if p in s.procs && f(s.procs[p]) then 1 else 0)
         == |ProcsThat(s.procs, f)| + if f(next) then 1 else 0
  {
    var others := ProcsThat(s.procs, f) - {p};
    assert ProcsThat(Move(s, p, next, ev).procs, f) == if f(next) then others + {p} else others;
  }

  lemma LeaveCounts(s: State, p: Pid, ev: Event, f: Proc -> bool)
    requires p in s.procs
    ensures |ProcsThat(Leave(s, p, ev).procs, f)| + (if f(s.procs[p]) then 1 else 0) == |ProcsThat(s.procs, f)|
  {
    assert ProcsThat(Leave(s, p, ev).procs, f) == ProcsThat(s.procs, f) - {p};
  }

  /** Each request is inserting, or was answered or is about to be answered by what Insert told it; and
      Insert told exactly as many of them "created" as there are rows. */
  ghost predicate Books(s: State) {
    && Count(s.log, ARRIVED)
         == |ProcsThat(s.procs, INSERTING)| + Count(s.log, CREATED) + Count(s.log, DUPLICATE)
    && Count(s.log, CREATED) == |s.table|
    && Count(s.log, CREATED) == |ProcsThat(s.procs, ANNOUNCING)| + Count(s.log, REPLIED(201))
    && Count(s.log, DUPLICATE) == |ProcsThat(s.procs, EXCUSING)| + Count(s.log, REPLIED(200))
  }

  ghost predicate CleanState(s: State) {
    && s.retry == map[]
    && s.dead == []
    && Count(s.log, REPLIED(500)) == 0
    && forall p :: p in s.procs ==>
         INSERTING(s.procs[p]) || ANNOUNCING(s.procs[p]) || EXCUSING(s.procs[p]) || s.procs[p].WIdle?
  }

  /** The counts of the history after one more record. */
  lemma LogCounts(log: seq<Event>, ev: Event)
    ensures Count(log + [ev], ARRIVED) == Count(log, ARRIVED) + if ev.Arrived? then 1 else 0
    ensures Count(log + [ev], CREATED)
         == Count(log, CREATED) + if ev.HandlerInserted? && ev.result.Created? then 1 else 0
    ensures Count(log + [ev], DUPLICATE)
         == Count(log, DUPLICATE) + if ev.HandlerInserted? && ev.result.Duplicate? then 1 else 0
    ensures forall code :: Count(log + [ev], REPLIED(code))
                        == Count(log, REPLIED(code)) + if ev.Replied? && ev.code == code then 1 else 0
  {
    CountSnoc(log, ev, ARRIVED);
    CountSnoc(log, ev, CREATED);
    CountSnoc(log, ev, DUPLICATE);
    forall code
      ensures Count(log + [ev], REPLIED(code))
           == Count(log, REPLIED(code)) + if ev.Replied? && ev.code == code then 1 else 0
    {
      CountSnoc(log, ev, REPLIED(code));
    }
  }

  lemma ProcCounts(s: State, p: Pid, next: Proc, ev: Event)
    requires p in s.procs
    ensures var u := Move(s, p, next, ev);
      && |ProcsThat(u.procs, INSERTING)| + (if INSERTING(s.procs[p]) then 1 else 0)
           == |ProcsThat(s.procs, INSERTING)| + (if INSERTING(next) then 1 else 0)
      && |ProcsThat(u.procs, ANNOUNCING)| + (if ANNOUNCING(s.procs[p]) then 1 else 0)
           == |ProcsThat(s.procs, ANNOUNCING)| + (if ANNOUNCING(next) then 1 else 0)
      && |ProcsThat(u.procs, EXCUSING)| + (if EXCUSING(s.procs[p]) then 1 else 0)
           == |ProcsThat(s.procs, EXCUSING)| + (if EXCUSING(next) then 1 else 0)
  {
    MoveCounts(s, p, next, ev, INSERTING);
    MoveCounts(s, p, next, ev, ANNOUNCING);
    MoveCounts(s, p, next, ev, EXCUSING);
  }

  lemma InsertBooks(s: State, a: Action)
    requires a.HandlerInsert? && Enabled(s, a) && Books(s) && CleanState(s) && Clean(Apply(s, a).log[|s.log|])
    ensures Books(Apply(s, a)) && CleanState(Apply(s, a))
  {
    var e := s.procs[a.p].e;
    var (t, r) := Insert(s.table, e, a.id, a.at, a.fault);
    InsertResults(s.table, e, a.id, a.at, a.fault);
    LogCounts(s.log, HandlerInserted(e, r));
    ProcCounts(s, a.p, AfterHandlerInsert(e, r), HandlerInserted(e, r));
  }

  lemma PublishBooks(s: State, a: Action)
    requires a.HandlerPublish? && Enabled(s, a) && Books(s) && CleanState(s)
    ensures Books(Apply(s, a)) && CleanState(Apply(s, a))
  {
    LogCounts(s.log, Published(s.procs[a.p].n, a.fault));
    ProcCounts(s, a.p, HReply(s.procs[a.p].e, 201), Published(s.procs[a.p].n, a.fault));
  }

  lemma ReplyBooks(s: State, a: Action)
    requires a.Reply? && Enabled(s, a) && Books(s) && CleanState(s)
    ensures Books(Apply(s, a)) && CleanState(Apply(s, a))
  {
    var ev := Replied(s.procs[a.p].e, s.procs[a.p].code);
    LogCounts(s.log, ev);
    LeaveCounts(s, a.p, ev, INSERTING);
    LeaveCounts(s, a.p, ev, ANNOUNCING);
    LeaveCounts(s, a.p, ev, EXCUSING);
  }

  lemma EntryBooks(s: State, p: Pid, next: Proc, ev: Event)
    requires Books(s) && CleanState(s) && p !in s.procs
    requires (ev.Arrived? && next == HInsert(ev.e)) || (ev.Started? && next == WIdle)
    ensures Books(Move(s, p, next, ev)) && CleanState(Move(s, p, next, ev))
  {
    LogCounts(s.log, ev);
    MoveCounts(s, p, next, ev, INSERTING);
    MoveCounts(s, p, next, ev, ANNOUNCING);
    MoveCounts(s, p, next, ev, EXCUSING);
  }

  lemma StepKeepsLog(s: State, a: Action)
    requires Enabled(s, a)
    ensures |Apply(s, a).log| == |s.log| + 1 && Apply(s, a).log[..|s.log|] == s.log
  {
  }

  lemma BooksStep(s: State, a: Action)
    requires Enabled(s, a) && Books(s) && CleanState(s) && Clean(Apply(s, a).log[|s.log|])
    ensures Books(Apply(s, a)) && CleanState(Apply(s, a))
  {
    match a {
      case HandlerInsert(_, _, _, _) => InsertBooks(s, a);
      case HandlerPublish(_, _) => PublishBooks(s, a);
      case Reply(_) => ReplyBooks(s, a);
      case Arrive(p, e) => EntryBooks(s, p, HInsert(e), Arrived(e));
      case WorkerStart(p) => EntryBooks(s, p, WIdle, Started);
      case MarkRowRead(_, _, _) => LogCounts(s.log, MarkedRead);
      case _ =>
    }
  }

  lemma {:induction false} FaultFreeRun(actions: seq<Action>)
    requires Run(INIT, actions).Some? && FaultFree(Run(INIT, actions).value.log)
    ensures Books(Run(INIT, actions).value) && CleanState(Run(INIT, actions).value)
  {
    if actions == [] {
    } else {
      var init, a := actions[..|actions| - 1], actions[|actions| - 1];
      var s := Run(INIT, init).value;
      StepKeepsLog(s, a);
      forall i | 0 <= i < |s.log|
        ensures Clean(s.log[i])
      {
        assert Apply(s, a).log[i] == s.log[i];
      }
      FaultFreeRun(init);
      BooksStep(s, a);
    }
  }

  ghost function ArrivedHashes(log: seq<Event>): set<Bytes> {
    set i | 0 <= i < |log| && log[i].Arrived? :: log[i].e.eventHash
  }

  /** Without faults nothing is lost. */
  lemma FaultFreeLosesNothing(log: seq<Event>, hash: Bytes)
    requires FaultFree(log)
    ensures forall j :: 0 <= j < |log| ==> !LosesHash(log[j], hash)
  {
  }

  lemma NoneLeft(s: State)
    requires CleanState(s)
    requires forall p :: p in s.procs ==> s.procs[p].WIdle?
    ensures ProcsThat(s.procs, INSERTING) == {} && ProcsThat(s.procs, ANNOUNCING) == {}
    ensures ProcsThat(s.procs, EXCUSING) == {} && Drained(s)
  {
  }

  /** Start from an empty table and let any requests arrive, in any numbers, and any interleaving of
      their handlers run to the end without a fault. There is one row for each distinct hash that
      arrived, as many requests were answered 201, all the others were answered 200. */
  lemma RedeliveryConfluence(s: State)
    requires Reachable(s) && FaultFree(s.log)
    requires forall p :: p in s.procs ==> s.procs[p].WIdle?
    ensures RowHashes(s.table) == ArrivedHashes(s.log) && |s.table| == |ArrivedHashes(s.log)|
    ensures Count(s.log, REPLIED(201)) == |ArrivedHashes(s.log)|
    ensures Count(s.log, REPLIED(200)) == Count(s.log, ARRIVED) - |ArrivedHashes(s.log)|
    ensures Count(s.log, REPLIED(500)) == 0
  {
    var actions :| Run(INIT, actions) == Some(s);
    FaultFreeRun(actions);
    NoneLeft(s);
    Safety.ReachableInv(s);
    DistinctRows(s.table);
    ReachableProvenance(actions);
    forall i | 0 <= i < |s.log| && s.log[i].Arrived?
      ensures s.log[i].e.eventHash in RowHashes(s.table)
    {
      FaultFreeLosesNothing(s.log, s.log[i].e.eventHash);
      Conservation(s, i);
    }
    forall r | r in s.table
      ensures r.eventHash in ArrivedHashes(s.log)
    {
      assert ArrivedIn(s.log, EventOf(r));
    }
  }

  /** A faulty run that has drained with nothing dead and nothing lost has persisted what a fault-free
      run of the same arrivals persists, whatever the order of either. */
  lemma FaultsDoNotChangeTheOutcome(s: State, clean: State, e: InsertParams)
    requires Reachable(s) && Drained(s) && s.dead == [] && HashDetermines(s.log)
    requires forall j :: 0 <= j < |s.log| ==> Loses(s.log[j]).None?
    requires Reachable(clean) && FaultFree(clean.log) && forall p :: p in clean.procs ==> clean.procs[p].WIdle?
    requires forall f :: ArrivedIn(clean.log, f) <==> ArrivedIn(s.log, f)
    ensures (exists r :: r in s.table && EventOf(r) == e) <==> (exists r :: r in clean.table && EventOf(r) == e)
  {
    DrainedHasPersistedAll(s, e);
    var actions :| Run(INIT, actions) == Some(clean);
    FaultFreeRun(actions);
    NoneLeft(clean);
    FaultFreeLosesNothing(clean.log, e.eventHash);
    DrainedHasPersistedAll(clean, e);
  }
}
