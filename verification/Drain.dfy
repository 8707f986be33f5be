/** How much work there is left: measures that the inserts by workers, and all steps of handlers and
    workers, use up; and that nobody stops before the work is done. */
module Drain {
  import opened Domain
  import opened Store
  import opened Protocol
  import Custody
  import History

  ghost function Sum<T>(xs: set<T>, f: T -> nat): nat {
    if xs == {} then 0
    else
      var x :| x in xs;
      f(x) + Sum(xs - {x}, f)
  }

  lemma {:induction false} SumWithout<T>(xs: set<T>, f: T -> nat, x: T)
    requires x in xs
    ensures Sum(xs, f) == f(x) + Sum(xs - {x}, f)
  {
    var y :| y in xs && Sum(xs, f) == f(y) + Sum(xs - {y}, f);
    if y != x {
      SumWithout(xs - {y}, f, x);
      SumWithout(xs - {x}, f, y);
      assert xs - {y} - {x} == xs - {x} - {y};
    }
  }

  lemma SumWith<T>(xs: set<T>, f: T -> nat, x: T)
    requires x !in xs
    ensures Sum(xs + {x}, f) == f(x) + Sum(xs, f)
  {
    SumWithout(xs + {x}, f, x);
    assert xs + {x} - {x} == xs;
  }

  lemma {:induction false} SumBound<T>(xs: set<T>, f: T -> nat, bound: nat)
    requires forall x :: x in xs ==> f(x) <= bound
    ensures Sum(xs, f) <= bound * |xs|
  {
    if xs == {} {
    } else {
      var x :| x in xs;
      SumWithout(xs, f, x);
      SumBound(xs - {x}, f, bound);
      assert bound * |xs| == bound * |xs - {x}| + bound by {
        assert |xs| == |xs - {x}| + 1;
        Distribute(bound, |xs - {x}|);
      }
    }
  }

  lemma Distribute(b: nat, n: nat)
    ensures b * (n + 1) == b * n + b
  {
  }

  lemma {:induction false} SumAgrees<T>(xs: set<T>, f: T -> nat, g: T -> nat)
    requires forall x :: x in xs ==> f(x) == g(x)
    ensures Sum(xs, f) == Sum(xs, g)
  {
    if xs == {} {
    } else {
      var x :| x in xs;
      SumWithout(xs, f, x);
      SumWithout(xs, g, x);
      SumAgrees(xs - {x}, f, g);
    }
  }

  // ---- What a step does to a measure of the waiting entries and the processes ----

  ghost function CostIn(procs: map<Pid, Proc>, cost: Proc -> nat): Pid -> nat {
    p => if p in procs then cost(procs[p]) else 0
  }

  ghost function ProcsCost(procs: map<Pid, Proc>, cost: Proc -> nat): nat {
    Sum(procs.Keys, CostIn(procs, cost))
  }

  ghost function Measure(s: State, entryCost: Entry -> nat, procCost: Proc -> nat): nat {
    Sum(s.retry.Keys, entryCost) + ProcsCost(s.procs, procCost)
  }

  lemma CostWithout(procs: map<Pid, Proc>, p: Pid, cost: Proc -> nat)
    requires p in procs
    ensures ProcsCost(procs, cost) == cost(procs[p]) + ProcsCost(procs - {p}, cost)
  {
    SumWithout(procs.Keys, CostIn(procs, cost), p);
    assert (procs - {p}).Keys == procs.Keys - {p};
    SumAgrees(procs.Keys - {p}, CostIn(procs, cost), CostIn(procs - {p}, cost));
  }

  lemma MoveCost(procs: map<Pid, Proc>, p: Pid, next: Proc, cost: Proc -> nat)
    ensures ProcsCost(procs[p := next], cost) + (if p in procs then cost(procs[p]) else 0)
         == ProcsCost(procs, cost) + cost(next)
  {
    CostWithout(procs[p := next], p, cost);
    assert procs[p := next] - {p} == procs - {p};
    if p in procs {
      CostWithout(procs, p, cost);
    } else {
      assert procs - {p} == procs;
    }
  }

  /** Adding a member costs what it costs, or nothing if it was there. */
  lemma ZAddCost(retry: map<Entry, int>, entry: Entry, readyAt: int, fault: Fault, cost: Entry -> nat)
    ensures Sum(ZAdd(retry, entry, readyAt, fault).Keys, cost) <= Sum(retry.Keys, cost) + cost(entry)
  {
    var after := ZAdd(retry, entry, readyAt, fault);
    if after.Keys != retry.Keys {
      assert after.Keys == retry.Keys + {entry};
      SumWith(retry.Keys, cost, entry);
    }
  }

  lemma PopCost(retry: map<Entry, int>, entry: Entry, cost: Entry -> nat)
    requires entry in retry
    ensures Sum((retry - {entry}).Keys, cost) + cost(entry) == Sum(retry.Keys, cost)
  {
    SumWithout(retry.Keys, cost, entry);
    assert (retry - {entry}).Keys == retry.Keys - {entry};
  }

  lemma RetryCost(s: State, a: Action, cost: Entry -> nat)
    requires Enabled(s, a)
    ensures Sum(Apply(s, a).retry.Keys, cost) + (if a.WorkerPop? then cost(a.entry) else 0)
         <= Sum(s.retry.Keys, cost) + (if a.HandlerAdd? || a.WorkerAdd? then cost(s.procs[a.p].entry) else 0)
  {
    match a {
      case HandlerAdd(p, fault) => ZAddCost(s.retry, s.procs[p].entry, s.procs[p].readyAt, fault, cost);
      case WorkerAdd(p, fault) => ZAddCost(s.retry, s.procs[p].entry, s.procs[p].readyAt, fault, cost);
      case WorkerPop(p, entry, _, _) => PopCost(s.retry, entry, cost);
      case _ => assert Apply(s, a).retry == s.retry;
    }
  }

  lemma ProcsAfter(s: State, a: Action)
    requires Enabled(s, a)
    ensures a.Reply? || a.Crash? ==> a.p in s.procs && Apply(s, a).procs == s.procs - {a.p}
    ensures a.MarkRowRead? ==> Apply(s, a).procs == s.procs
    ensures !a.Reply? && !a.Crash? && !a.MarkRowRead? ==>
      a.p in Apply(s, a).procs && Apply(s, a).procs == s.procs[a.p := Apply(s, a).procs[a.p]]
  {
  }

  /** The process that moves pays `used`, and for the entry it adds if it adds one, out of what it cost
      before, the cost of the entry it pops and what the step brings in, `added`. */
  ghost predicate Pays(
    s: State, a: Action, entryCost: Entry -> nat, procCost: Proc -> nat, used: nat, added: nat)
    requires Enabled(s, a)
  {
    if a.MarkRowRead? then used == 0
    else
      var before := if a.p in s.procs then procCost(s.procs[a.p]) else 0;
      var after := if a.p in Apply(s, a).procs then procCost(Apply(s, a).procs[a.p]) else 0;
      after + used + (if a.HandlerAdd? || a.WorkerAdd? then entryCost(s.procs[a.p].entry) else 0)
        <= before + added + (if a.WorkerPop? then entryCost(a.entry) else 0)
  }

  /** What the one process pays is what the measure loses. */
  lemma PaidByMeasure(s: State, a: Action, entryCost: Entry -> nat, procCost: Proc -> nat, used: nat, added: nat)
    requires Enabled(s, a) && Pays(s, a, entryCost, procCost, used, added)
    ensures Measure(Apply(s, a), entryCost, procCost) + used <= Measure(s, entryCost, procCost) + added
  {
    RetryCost(s, a, entryCost);
    ProcsAfter(s, a);
    if a.Reply? || a.Crash? {
      CostWithout(s.procs, a.p, procCost);
    } else if !a.MarkRowRead? {
      MoveCost(s.procs, a.p, Apply(s, a).procs[a.p], procCost);
    }
  }

  // ---- Inserts by workers ----

  /** The worker inserts an entry can still cost. */
  function AttemptsLeft(entry: Entry): nat {
    if entry.attempts <= MAX_ATTEMPTS then MAX_ATTEMPTS + 1 - entry.attempts else 0
  }

  function Raised(entry: Entry): Entry {
    entry.(attempts := entry.attempts + 1)
  }

  function ProcCost(proc: Proc): nat {
    match proc
    case HInsert(_) => MAX_ATTEMPTS
    case HEnqueue(_) => MAX_ATTEMPTS
    case HAdd(entry, _) => AttemptsLeft(entry)
    case WHold(entry, _) => AttemptsLeft(entry)
    case WBackoff(entry, _) => AttemptsLeft(Raised(entry))
    case WAdd(entry, _) => AttemptsLeft(entry)
    case _ => 0
  }

  const ENTRY_COST := (entry: Entry) => AttemptsLeft(entry)
  const PROC_COST := (proc: Proc) => ProcCost(proc)

  /** The worker inserts everything in the retry set and in flight can still cost. */
  ghost function Potential(s: State): nat {
    Measure(s, ENTRY_COST, PROC_COST)
  }

  const BY_WORKER := (ev: Event) => ev.WorkerInserted?

  lemma LogCosts(s: State, a: Action)
    requires Enabled(s, a)
    ensures Count(Apply(s, a).log, BY_WORKER) == Count(s.log, BY_WORKER) + if a.WorkerInsert? then 1 else 0
    ensures Count(Apply(s, a).log, ARRIVED) == Count(s.log, ARRIVED) + if a.Arrive? then 1 else 0
  {
    assert Apply(s, a).log[..|s.log|] == s.log;
  }

  function InsertsOf(a: Action): nat {
    if a.WorkerInsert? then 1 else 0
  }

  lemma WorkerPaysPotential(s: State, a: Action)
    requires Enabled(s, a) && History.HistoryInv(s)
    requires a.WorkerPop? || a.WorkerInsert? || a.WorkerStamp? || a.WorkerAdd? || a.WorkerBury? || a.WorkerPublish?
    ensures Pays(s, a, ENTRY_COST, PROC_COST, InsertsOf(a), 0)
  {
    assert History.ProcOk(s.log, s.procs[a.p]);
  }

  lemma OthersPayPotential(s: State, a: Action)
    requires Enabled(s, a) && History.HistoryInv(s)
    requires !a.WorkerPop? && !a.WorkerInsert? && !a.WorkerStamp?
    requires !a.WorkerAdd? && !a.WorkerBury? && !a.WorkerPublish?
    ensures Pays(s, a, ENTRY_COST, PROC_COST, 0, if a.Arrive? then MAX_ATTEMPTS else 0)
  {
    if a.HandlerAdd? {
      assert History.ProcOk(s.log, s.procs[a.p]);
    }
  }

  /** Only an arrival adds work, five inserts' worth; every insert by a worker uses some up. */
  lemma StepUsesPotential(s: State, a: Action)
    requires Enabled(s, a) && History.HistoryInv(s)
    ensures Potential(Apply(s, a)) + (if a.WorkerInsert? then 1 else 0)
         <= Potential(s) + (if a.Arrive? then MAX_ATTEMPTS else 0)
  {
    if a.WorkerPop? || a.WorkerInsert? || a.WorkerStamp? || a.WorkerAdd? || a.WorkerBury? || a.WorkerPublish? {
      WorkerPaysPotential(s, a);
      PaidByMeasure(s, a, ENTRY_COST, PROC_COST, InsertsOf(a), 0);
    } else {
      OthersPayPotential(s, a);
      PaidByMeasure(s, a, ENTRY_COST, PROC_COST, 0, if a.Arrive? then MAX_ATTEMPTS else 0);
    }
  }

  lemma {:induction false} RunUsesPotential(s: State, actions: seq<Action>)
    requires Run(s, actions).Some? && History.HistoryInv(s)
    ensures History.HistoryInv(Run(s, actions).value)
    ensures var u := Run(s, actions).value;
      Potential(u) + Count(u.log, BY_WORKER) - Count(s.log, BY_WORKER)
        <= Potential(s) + MAX_ATTEMPTS * (Count(u.log, ARRIVED) - Count(s.log, ARRIVED))
  {
    if actions == [] {
    } else {
      var init, a := actions[..|actions| - 1], actions[|actions| - 1];
      var mid := Run(s, init).value;
      RunUsesPotential(s, init);
      History.HistoryStep(mid, a);
      StepUsesPotential(mid, a);
      LogCosts(mid, a);
    }
  }

  /** In any run whatever, workers call Insert at most five times as often as requests arrived. */
  lemma InsertsBoundedByArrivals(s: State)
    requires Reachable(s)
    ensures Count(s.log, BY_WORKER) + Potential(s) <= MAX_ATTEMPTS * Count(s.log, ARRIVED)
  {
    var actions :| Run(INIT, actions) == Some(s);
    RunUsesPotential(INIT, actions);
  }

  // ---- All steps of handlers and workers ----

  /** A step of a handler or a worker, other than starting and crashing. */
  predicate IsWork(a: Action) {
    !a.Arrive? && !a.WorkerStart? && !a.Crash? && !a.MarkRowRead?
  }

  const STEPS_PER_ATTEMPT := 4
  const STEPS_PER_ARRIVAL := 24

  /** A bound on the steps a process still has before it, and those it leaves to others in the retry set:
      four for each attempt left, and what remains of the attempt or request it is at. */
  function ProcSteps(proc: Proc): nat {
    match proc
    case HInsert(_) => STEPS_PER_ARRIVAL
    case HEnqueue(_) => STEPS_PER_ARRIVAL - 1
    case HAdd(entry, _) => STEPS_PER_ATTEMPT * AttemptsLeft(entry) + 2
    case HPublish(_, _) => 2
    case HReply(_, _) => 1
    case WIdle => 0
    case WHold(entry, _) => STEPS_PER_ATTEMPT * AttemptsLeft(Raised(entry)) + 3
    case WBackoff(entry, _) => STEPS_PER_ATTEMPT * AttemptsLeft(Raised(entry)) + 2
    case WAdd(entry, _) => STEPS_PER_ATTEMPT * AttemptsLeft(entry) + 1
    case WBury(_, _) => 1
    case WPublish(_) => 1
  }

  const ENTRY_STEPS := (entry: Entry) => STEPS_PER_ATTEMPT * AttemptsLeft(entry)
  const PROC_STEPS := (proc: Proc) => ProcSteps(proc)

  ghost function Work(s: State): nat {
    Measure(s, ENTRY_STEPS, PROC_STEPS)
  }

  function WorkSteps(actions: seq<Action>): nat {
    if actions == [] then 0
    else WorkSteps(actions[..|actions| - 1]) + if IsWork(actions[|actions| - 1]) then 1 else 0
  }

  lemma PopPaysWork(s: State, a: Action)
    requires Enabled(s, a) && History.HistoryInv(s) && a.WorkerPop?
    ensures Pays(s, a, ENTRY_STEPS, PROC_STEPS, 1, 0)
  {
    assert History.Queued(s.log, a.entry, s.retry[a.entry]);
  }

  lemma WorkerPaysWork(s: State, a: Action)
    requires Enabled(s, a) && History.HistoryInv(s)
    requires a.WorkerInsert? || a.WorkerStamp? || a.WorkerAdd? || a.WorkerBury? || a.WorkerPublish?
    ensures Pays(s, a, ENTRY_STEPS, PROC_STEPS, 1, 0)
  {
    assert History.ProcOk(s.log, s.procs[a.p]);
  }

  lemma HandlerPaysWork(s: State, a: Action)
    requires Enabled(s, a) && History.HistoryInv(s)
    requires a.HandlerInsert? || a.HandlerStamp? || a.HandlerAdd? || a.HandlerPublish? || a.Reply?
    ensures Pays(s, a, ENTRY_STEPS, PROC_STEPS, 1, 0)
  {
    assert History.ProcOk(s.log, s.procs[a.p]);
  }

  lemma OthersPayWork(s: State, a: Action)
    requires Enabled(s, a) && !IsWork(a)
    ensures Pays(s, a, ENTRY_STEPS, PROC_STEPS, 0, if a.Arrive? then STEPS_PER_ARRIVAL else 0)
  {
  }

  /** Every step of a handler or a worker uses up work; only an arrival brings some; starts, crashes and
      read marks bring none. */
  lemma StepUsesWork(s: State, a: Action)
    requires Enabled(s, a) && History.HistoryInv(s)
    ensures Work(Apply(s, a)) + (if IsWork(a) then 1 else 0)
         <= Work(s) + (if a.Arrive? then STEPS_PER_ARRIVAL else 0)
  {
    if !IsWork(a) {
      OthersPayWork(s, a);
      PaidByMeasure(s, a, ENTRY_STEPS, PROC_STEPS, 0, if a.Arrive? then STEPS_PER_ARRIVAL else 0);
    } else {
      if a.WorkerPop? {
        PopPaysWork(s, a);
      } else if a.WorkerInsert? || a.WorkerStamp? || a.WorkerAdd? || a.WorkerBury? || a.WorkerPublish? {
        WorkerPaysWork(s, a);
      } else {
        HandlerPaysWork(s, a);
      }
      PaidByMeasure(s, a, ENTRY_STEPS, PROC_STEPS, 1, 0);
    }
  }

  lemma {:induction false} RunUsesWork(s: State, actions: seq<Action>)
    requires Run(s, actions).Some? && History.HistoryInv(s)
    ensures History.HistoryInv(Run(s, actions).value)
    ensures var u := Run(s, actions).value;
      Work(u) + WorkSteps(actions) <= Work(s) + STEPS_PER_ARRIVAL * (Count(u.log, ARRIVED) - Count(s.log, ARRIVED))
  {
    if actions == [] {
    } else {
      var init, a := actions[..|actions| - 1], actions[|actions| - 1];
      var mid := Run(s, init).value;
      RunUsesWork(s, init);
      History.HistoryStep(mid, a);
      StepUsesWork(mid, a);
      LogCosts(mid, a);
    }
  }

  /** In any run whatever, the steps of handlers and workers are at most 24 for each request. */
  lemma StepsBoundedByArrivals(actions: seq<Action>)
    requires Run(INIT, actions).Some?
    ensures WorkSteps(actions) + Work(Run(INIT, actions).value)
         <= STEPS_PER_ARRIVAL * Count(Run(INIT, actions).value.log, ARRIVED)
  {
    RunUsesWork(INIT, actions);
  }

  lemma ReachableHistory(s: State)
    requires Reachable(s)
    ensures History.HistoryInv(s)
  {
    var past :| Run(INIT, past) == Some(s);
    History.RunHistory(past);
  }

  lemma IdleMeasure(s: State, entryCost: Entry -> nat, procCost: Proc -> nat, bound: nat)
    requires forall p :: p in s.procs ==> s.procs[p].WIdle?
    requires procCost(WIdle) == 0 && forall x :: x in s.retry ==> entryCost(x) <= bound
    ensures Measure(s, entryCost, procCost) <= bound * |s.retry|
  {
    SumBound(s.retry.Keys, entryCost, bound);
    SumBound(s.procs.Keys, CostIn(s.procs, procCost), 0);
  }

  /** From a state with n entries waiting and nobody busy, n entries cost at most 5n worker inserts, and
      20n steps of any kind, until new requests arrive, whatever fails and however many workers there are. */
  lemma DrainingCost(s: State, actions: seq<Action>)
    requires Reachable(s) && Run(s, actions).Some?
    requires forall p :: p in s.procs ==> s.procs[p].WIdle?
    requires Count(Run(s, actions).value.log, ARRIVED) == Count(s.log, ARRIVED)
    ensures Count(Run(s, actions).value.log, BY_WORKER) - Count(s.log, BY_WORKER) <= MAX_ATTEMPTS * |s.retry|
    ensures WorkSteps(actions) <= STEPS_PER_ATTEMPT * MAX_ATTEMPTS * |s.retry|
  {
    History.CountersInRange(s);
    IdleMeasure(s, ENTRY_COST, PROC_COST, MAX_ATTEMPTS);
    IdleMeasure(s, ENTRY_STEPS, PROC_STEPS, STEPS_PER_ATTEMPT * MAX_ATTEMPTS);
    ReachableHistory(s);
    RunUsesPotential(s, actions);
    RunUsesWork(s, actions);
  }

  // ---- Where the work stops ----

  predicate IsWorker(proc: Proc) {
    proc.WIdle? || proc.WHold? || proc.WBackoff? || proc.WAdd? || proc.WBury? || proc.WPublish?
  }

  ghost predicate HasWorker(s: State) {
    exists p :: p in s.procs && IsWorker(s.procs[p])
  }

  /** Some handler or worker can take a step, at some reading of the clock. */
  ghost predicate CanWork(s: State) {
    exists a :: IsWork(a) && Enabled(s, a)
  }

  /** The next step of a process that is not an idle worker. */
  function NextStep(p: Pid, proc: Proc): Action
    requires !proc.WIdle?
  {
    match proc
    case HInsert(_) => HandlerInsert(p, 0, 0, NoFault)
    case HEnqueue(_) => HandlerStamp(p, 0, 0)
    case HAdd(_, _) => HandlerAdd(p, NoFault)
    case HPublish(_, _) => HandlerPublish(p, NoFault)
    case HReply(_, _) => Reply(p)
    case WHold(_, _) => WorkerInsert(p, 0, 0, NoFault)
    case WBackoff(_, _) => WorkerStamp(p, 0)
    case WAdd(_, _) => WorkerAdd(p, NoFault)
    case WBury(_, _) => WorkerBury(p, 0, NoFault)
    case WPublish(_) => WorkerPublish(p, NoFault)
  }

  lemma IdleCanPop(s: State, p: Pid)
    requires p in s.procs && s.procs[p].WIdle? && s.retry != map[]
    ensures CanWork(s)
  {
    assert s.retry.Keys != {} by {
      var x :| x in s.retry;
    }
    var sooner := (x, y) => x in s.retry && y in s.retry && s.retry[x] < s.retry[y];
    SomeMinimal(s.retry.Keys, sooner);
    var first :| Minimal(s.retry.Keys, sooner, first);
    forall x | x in s.retry
      ensures s.retry[first] <= s.retry[x]
    {
      assert !sooner(x, first);
    }
    var now := s.retry[first] * NANOS_PER_MILLI;
    assert Millis(now) == s.retry[first];
    var a := WorkerPop(p, first, now, PopOk);
    assert IsWork(a) && Enabled(s, a);
  }

  lemma CanWorkIff(s: State)
    requires History.HistoryInv(s)
    ensures !CanWork(s) <==> (forall p :: p in s.procs ==> s.procs[p].WIdle?) && (s.retry == map[] || s.procs == map[])
  {
    if p :| p in s.procs && !s.procs[p].WIdle? {
      assert History.ProcOk(s.log, s.procs[p]);
      assert IsWork(NextStep(p, s.procs[p])) && Enabled(s, NextStep(p, s.procs[p]));
    } else if p :| p in s.procs && s.retry != map[] {
      IdleCanPop(s, p);
    }
  }

  /** Nobody can move exactly when there are none but idle workers, and nothing waits for them or there is
      not even one. */
  lemma StuckIff(s: State)
    requires Reachable(s)
    ensures !CanWork(s) <==> (forall p :: p in s.procs ==> s.procs[p].WIdle?) && (s.retry == map[] || s.procs == map[])
  {
    ReachableHistory(s);
    CanWorkIff(s);
  }

  ghost predicate SettledOrLost(s: State, i: nat)
    requires i < |s.log| && s.log[i].Arrived?
  {
    var hash := s.log[i].e.eventHash;
    HasHash(s.table, hash) || Custody.Dead(s, hash) || exists j :: i < j < |s.log| && Custody.LosesHash(s.log[j], hash)
  }

  /** A run without new requests takes boundedly many steps of handlers and workers; and if it stops where
      nobody can take another, with a worker still alive, the system has drained: every event that ever
      arrived is then in the table or dead, or a named fault has hit it. */
  lemma StopsOnlyDrained(s: State, actions: seq<Action>)
    requires Reachable(s) && Run(s, actions).Some?
    requires Count(Run(s, actions).value.log, ARRIVED) == Count(s.log, ARRIVED)
    ensures WorkSteps(actions) <= Work(s)
    ensures var t := Run(s, actions).value;
      HasWorker(t) && !CanWork(t) ==> Custody.Drained(t) && forall i :: 0 <= i < |t.log| && t.log[i].Arrived? ==>
        SettledOrLost(t, i)
  {
    var past :| Run(INIT, past) == Some(s);
    History.RunHistory(past);
    RunUsesWork(s, actions);
    var t := Run(s, actions).value;
    RunAppend(INIT, past, actions);
    CanWorkIff(t);
    if HasWorker(t) && !CanWork(t) {
      forall i | 0 <= i < |t.log| && t.log[i].Arrived?
        ensures SettledOrLost(t, i)
      {
        Custody.Conservation(t, i);
      }
    }
  }

  lemma WorkerStays(s: State, a: Action)
    requires Enabled(s, a) && IsWork(a) && HasWorker(s)
    ensures HasWorker(Apply(s, a))
  {
    var p :| p in s.procs && IsWorker(s.procs[p]);
    assert p in Apply(s, a).procs && IsWorker(Apply(s, a).procs[p]);
  }

  /** And from wherever it is, a system with a worker can drain by its own steps alone. */
  lemma CanDrain(s: State) returns (actions: seq<Action>)
    requires Reachable(s) && HasWorker(s)
    ensures Run(s, actions).Some? && WorkSteps(actions) == |actions| <= Work(s)
    ensures Custody.Drained(Run(s, actions).value) && HasWorker(Run(s, actions).value)
  {
    ReachableHistory(s);
    actions := [];
    var t := s;
    while CanWork(t)
      invariant Run(s, actions) == Some(t) && History.HistoryInv(t) && HasWorker(t)
      invariant WorkSteps(actions) == |actions| && |actions| + Work(t) <= Work(s)
      decreases Work(t)
    {
      var a :| IsWork(a) && Enabled(t, a);
      RunSnoc(s, actions, a);
      WorkerStays(t, a);
      StepUsesWork(t, a);
      History.HistoryStep(t, a);
      assert (actions + [a])[..|actions|] == actions;
      actions, t := actions + [a], Apply(t, a);
    }
    CanWorkIff(t);
  }
}
