/** One line of history for each entry. If no two stamps make the same entry, an entry is in one place at a time,
    and its pops, inserts, reschedulings and burial come one after the other, each once for each counter. */
module Lineage {
  import opened Domain
  import opened Store
  import opened Protocol
  import History
  import B = Backoff

  /** What stays of an entry as its counter is raised. */
  datatype Root = Root(event: InsertParams, failedAt: int)

  function RootOf(entry: Entry): Root {
    Root(entry.event, entry.failedAt)
  }

  /** No two stamps make the same entry: identical events fail at different instants. */
  ghost predicate DistinctStamps(log: seq<Event>) {
    forall i, j :: 0 <= i < j < |log| && log[i].Stamped? && log[j].Stamped? ==>
      RootOf(log[i].entry) != RootOf(log[j].entry)
  }

  ghost predicate StampedRoot(log: seq<Event>, root: Root) {
    exists i :: 0 <= i < |log| && log[i].Stamped? && RootOf(log[i].entry) == root
  }

  /** A place where an entry can be. */
  datatype Place = AtProc(p: Pid) | InRetry(x: Entry)

  /** The entry a process alone may be holding. */
  function Holding(proc: Proc): Option<Entry> {
    match proc
    case HAdd(entry, _) => Some(entry)
    case WHold(entry, _) => Some(entry)
    case WBackoff(entry, _) => Some(entry)
    case WAdd(entry, _) => Some(entry)
    case WBury(entry, _) => Some(entry)
    case _ => None
  }

  function EntryAt(s: State, l: Place): Option<Entry> {
    match l
    case AtProc(p) => if p in s.procs then Holding(s.procs[p]) else None
    case InRetry(x) => if x in s.retry then Some(x) else None
  }

  /** The stages of an entry, in their order: popped with counter c, inserted with it, rescheduled with the next
      or buried. */
  function StageOf(ev: Event): Option<int> {
    match ev
    case Popped(entry, _, _, _) => Some(3 * entry.attempts)
    case WorkerInserted(entry, _, _) => Some(3 * entry.attempts + 1)
    case Rescheduled(entry, _, _) => Some(3 * entry.attempts - 1)
    case Buried(entry, _, _, _) => Some(3 * entry.attempts + 2)
    case _ => None
  }

  function NextStage(proc: Proc): int {
    match proc
    case HAdd(entry, _) => 3 * entry.attempts
    case WHold(entry, _) => 3 * entry.attempts + 1
    case WBackoff(entry, _) => 3 * entry.attempts + 2
    case WAdd(entry, _) => 3 * entry.attempts
    case WBury(entry, _) => 3 * entry.attempts + 2
    case _ => 0
  }

  /** The stage that comes next for the entry at this place. */
  function StageAt(s: State, l: Place): int {
    match l
    case AtProc(p) => if p in s.procs then NextStage(s.procs[p]) else 0
    case InRetry(x) => 3 * x.attempts
  }

  predicate IsOf(ev: Event, root: Root) {
    StageOf(ev).Some? && RootOf(ev.entry) == root
  }

  /** Everything in the history of this root comes before stage `n`. */
  ghost predicate Before(log: seq<Event>, root: Root, n: int) {
    forall i :: 0 <= i < |log| && IsOf(log[i], root) ==> StageOf(log[i]).value < n
  }

  ghost predicate Apart(s: State) {
    forall l, m :: l != m && EntryAt(s, l).Some? && EntryAt(s, m).Some? ==>
      RootOf(EntryAt(s, l).value) != RootOf(EntryAt(s, m).value)
  }

  ghost predicate Behind(s: State) {
    forall l :: EntryAt(s, l).Some? ==> Before(s.log, RootOf(EntryAt(s, l).value), StageAt(s, l))
  }

  ghost predicate AllStamped(s: State) {
    && (forall l :: EntryAt(s, l).Some? ==> StampedRoot(s.log, RootOf(EntryAt(s, l).value)))
    && forall i :: 0 <= i < |s.log| && StageOf(s.log[i]).Some? ==> StampedRoot(s.log, RootOf(s.log[i].entry))
  }

  /** Of two records of one root the later one is of a later stage. */
  ghost predicate InLine(log: seq<Event>) {
    forall i, j :: 0 <= i < j < |log| && StageOf(log[i]).Some? && IsOf(log[j], RootOf(log[i].entry)) ==>
      StageOf(log[i]).value < StageOf(log[j]).value
  }

  ghost predicate LineInv(s: State) {
    Apart(s) && Behind(s) && AllStamped(s) && InLine(s.log)
  }

  // ---- Where an entry was before a step ----

  function Origin(s: State, a: Action, l: Place): Place {
    match l
    case AtProc(p) => if a.WorkerPop? && a.p == p then InRetry(a.entry) else l
    case InRetry(x) =>
      if (a.HandlerAdd? || a.WorkerAdd?) && a.fault != FailsBefore
         && a.p in s.procs && Holding(s.procs[a.p]) == Some(x)
      then AtProc(a.p) else l
  }

  /** A new entry is a new stamp; every other was somewhere, with the same root and at no later stage. */
  lemma OriginHolds(s: State, a: Action, l: Place)
    requires Enabled(s, a) && EntryAt(Apply(s, a), l).Some? && !(a.HandlerStamp? && l == AtProc(a.p))
    ensures var m := Origin(s, a, l);
      && EntryAt(s, m).Some? && RootOf(EntryAt(s, m).value) == RootOf(EntryAt(Apply(s, a), l).value)
      && StageAt(s, m) <= StageAt(Apply(s, a), l)
  {
  }

  lemma OriginsDiffer(s: State, a: Action, l: Place, m: Place)
    requires Enabled(s, a) && l != m && EntryAt(Apply(s, a), l).Some? && EntryAt(Apply(s, a), m).Some?
    ensures Origin(s, a, l) != Origin(s, a, m)
  {
  }

  /** Where the entry is that a step's record is about. */
  function Actor(a: Action): Place
    requires !a.MarkRowRead?
  {
    if a.WorkerPop? then InRetry(a.entry) else AtProc(a.p)
  }

  /** The record is of the stage that was next, and what comes of the entry is past that stage. */
  lemma RecordIsNext(s: State, a: Action)
    requires Enabled(s, a) && StageOf(Apply(s, a).log[|s.log|]).Some?
    ensures var ev := Apply(s, a).log[|s.log|];
      && !a.MarkRowRead? && !a.HandlerStamp?
      && EntryAt(s, Actor(a)).Some? && RootOf(EntryAt(s, Actor(a)).value) == RootOf(ev.entry)
      && StageAt(s, Actor(a)) == StageOf(ev).value
      && forall l :: EntryAt(Apply(s, a), l).Some? && Origin(s, a, l) == Actor(a) ==>
           StageOf(ev).value < StageAt(Apply(s, a), l)
  {
  }

  lemma LogGrows(s: State, a: Action)
    requires Enabled(s, a)
    ensures |Apply(s, a).log| == |s.log| + 1 && Apply(s, a).log[..|s.log|] == s.log
    ensures Apply(s, a).log[|s.log|].Stamped? <==> a.HandlerStamp?
    ensures a.HandlerStamp? ==>
      EntryAt(Apply(s, a), AtProc(a.p)) == Some(Apply(s, a).log[|s.log|].entry)
  {
  }

  /** A stamp makes an entry of which there is no trace. */
  lemma StampIsNew(s: State, a: Action)
    requires Enabled(s, a) && a.HandlerStamp? && LineInv(s) && DistinctStamps(Apply(s, a).log)
    ensures var root := RootOf(Apply(s, a).log[|s.log|].entry);
      && (forall l :: EntryAt(s, l).Some? ==> RootOf(EntryAt(s, l).value) != root)
      && (forall i :: 0 <= i < |s.log| ==> !IsOf(s.log[i], root))
  {
    LogGrows(s, a);
    var u := Apply(s, a);
    var root := RootOf(u.log[|s.log|].entry);
    assert forall i :: 0 <= i < |s.log| ==> u.log[..|s.log|][i] == u.log[i];
    assert !StampedRoot(s.log, root);
  }

  lemma ApartStep(s: State, a: Action)
    requires Enabled(s, a) && LineInv(s) && DistinctStamps(Apply(s, a).log)
    ensures Apart(Apply(s, a))
  {
    var u := Apply(s, a);
    LogGrows(s, a);
    if a.HandlerStamp? {
      StampIsNew(s, a);
    }
    forall l, m | l != m && EntryAt(u, l).Some? && EntryAt(u, m).Some?
      ensures RootOf(EntryAt(u, l).value) != RootOf(EntryAt(u, m).value)
    {
      OriginsDiffer(s, a, l, m);
      if !(a.HandlerStamp? && l == AtProc(a.p)) {
        OriginHolds(s, a, l);
      }
      if !(a.HandlerStamp? && m == AtProc(a.p)) {
        OriginHolds(s, a, m);
      }
    }
  }

  lemma BehindAt(s: State, a: Action, l: Place)
    requires Enabled(s, a) && LineInv(s) && DistinctStamps(Apply(s, a).log)
    requires EntryAt(Apply(s, a), l).Some?
    ensures Before(Apply(s, a).log, RootOf(EntryAt(Apply(s, a), l).value), StageAt(Apply(s, a), l))
  {
    var u := Apply(s, a);
    var root, ev := RootOf(EntryAt(u, l).value), u.log[|s.log|];
    LogGrows(s, a);
    assert forall i :: 0 <= i < |s.log| ==> u.log[..|s.log|][i] == u.log[i];
    if a.HandlerStamp? && l == AtProc(a.p) {
      StampIsNew(s, a);
    } else {
      OriginHolds(s, a, l);
      if IsOf(ev, root) {
        RecordIsNext(s, a);
      }
    }
  }

  lemma StampsStay(log: seq<Event>, longer: seq<Event>)
    requires log <= longer
    ensures forall root :: StampedRoot(log, root) ==> StampedRoot(longer, root)
  {
    forall root | StampedRoot(log, root)
      ensures StampedRoot(longer, root)
    {
      var i :| 0 <= i < |log| && log[i].Stamped? && RootOf(log[i].entry) == root;
      assert longer[i] == log[i];
    }
  }

  lemma StampedStep(s: State, a: Action)
    requires Enabled(s, a) && LineInv(s)
    ensures AllStamped(Apply(s, a))
  {
    var u := Apply(s, a);
    LogGrows(s, a);
    StampsStay(s.log, u.log);
    forall l | EntryAt(u, l).Some?
      ensures StampedRoot(u.log, RootOf(EntryAt(u, l).value))
    {
      if !(a.HandlerStamp? && l == AtProc(a.p)) {
        OriginHolds(s, a, l);
      }
    }
    forall i | 0 <= i < |u.log| && StageOf(u.log[i]).Some?
      ensures StampedRoot(u.log, RootOf(u.log[i].entry))
    {
      if i < |s.log| {
        assert u.log[..|s.log|][i] == u.log[i];
      } else {
        RecordIsNext(s, a);
      }
    }
  }

  lemma InLineSnoc(log: seq<Event>, ev: Event)
    requires InLine(log) && (StageOf(ev).Some? ==> Before(log, RootOf(ev.entry), StageOf(ev).value))
    ensures InLine(log + [ev])
  {
  }

  lemma InLineStep(s: State, a: Action)
    requires Enabled(s, a) && LineInv(s)
    ensures InLine(Apply(s, a).log)
  {
    LogGrows(s, a);
    var ev := Apply(s, a).log[|s.log|];
    if StageOf(ev).Some? {
      RecordIsNext(s, a);
    }
    InLineSnoc(s.log, ev);
    assert Apply(s, a).log == s.log + [ev];
  }

  lemma LineStep(s: State, a: Action)
    requires Enabled(s, a) && LineInv(s) && DistinctStamps(Apply(s, a).log)
    ensures LineInv(Apply(s, a))
  {
    ApartStep(s, a);
    forall l | EntryAt(Apply(s, a), l).Some?
      ensures Before(Apply(s, a).log, RootOf(EntryAt(Apply(s, a), l).value), StageAt(Apply(s, a), l))
    {
      BehindAt(s, a, l);
    }
    StampedStep(s, a);
    InLineStep(s, a);
  }

  lemma {:induction false} RunInLine(actions: seq<Action>)
    requires Run(INIT, actions).Some? && DistinctStamps(Run(INIT, actions).value.log)
    ensures LineInv(Run(INIT, actions).value)
  {
    if actions == [] {
      assert Run(INIT, actions) == Some(INIT);
    } else {
      var init, a := actions[..|actions| - 1], actions[|actions| - 1];
      var s := Run(INIT, init).value;
      LogGrows(s, a);
      assert forall i :: 0 <= i < |s.log| ==> Apply(s, a).log[..|s.log|][i] == Apply(s, a).log[i];
      RunInLine(init);
      LineStep(s, a);
    }
  }

  // ---- What follows ----

  /** An entry is in one place at a time: no two workers hold it, at one counter or at different ones, and none
      holds it while it waits. */
  lemma OnePlaceAtATime(s: State, l: Place, m: Place)
    requires Reachable(s) && DistinctStamps(s.log)
    requires EntryAt(s, l).Some? && EntryAt(s, m).Some? && RootOf(EntryAt(s, l).value) == RootOf(EntryAt(s, m).value)
    ensures l == m
  {
    var actions :| Run(INIT, actions) == Some(s);
    RunInLine(actions);
  }

  /** Of the pops, inserts, reschedulings and the burial of one entry, later ones are of later stages: none
      happens twice with one counter. */
  lemma EachStageOnce(s: State, i: nat, j: nat)
    requires Reachable(s) && DistinctStamps(s.log) && i < |s.log| && j < |s.log|
    requires StageOf(s.log[i]).Some? && IsOf(s.log[j], RootOf(s.log[i].entry))
    ensures i < j <==> StageOf(s.log[i]).value < StageOf(s.log[j]).value
    ensures i == j <==> StageOf(s.log[i]) == StageOf(s.log[j])
  {
    var actions :| Run(INIT, actions) == Some(s);
    RunInLine(actions);
  }

  /** A dead entry has been inserted by workers exactly five times, once with each counter, and each time in vain:
      `at` has the place in the history of every insert of it. */
  lemma ExactlyFiveInserts(s: State, x: Entry) returns (at: seq<nat>)
    requires Reachable(s) && DistinctStamps(s.log) && x in s.dead
    ensures x.attempts == MAX_ATTEMPTS && |at| == 6 && History.FailureTrail(s.log, x, at)
    ensures forall i :: 0 <= i < |s.log| && s.log[i].WorkerInserted? && RootOf(s.log[i].entry) == RootOf(x) ==>
      1 <= s.log[i].entry.attempts <= MAX_ATTEMPTS && i == at[s.log[i].entry.attempts]
  {
    at := History.DeadLetterHistory(s, x);
    forall i | 0 <= i < |s.log| && s.log[i].WorkerInserted? && RootOf(s.log[i].entry) == RootOf(x)
      ensures 1 <= s.log[i].entry.attempts <= MAX_ATTEMPTS && i == at[s.log[i].entry.attempts]
    {
      History.RecordedCounters(s, i);
      EachStageOnce(s, i, at[s.log[i].entry.attempts]);
    }
  }

  /** Every pop of a retried entry comes later, by more than the backoff less a millisecond, than every
      rescheduling that made the entry. */
  lemma EveryPopIsSpaced(s: State, k: nat, j: nat)
    requires Reachable(s) && DistinctStamps(s.log) && k < |s.log| && j < |s.log|
    requires s.log[k].Rescheduled? && s.log[j].Popped? && s.log[j].entry == s.log[k].entry
    ensures k < j && 2 <= s.log[j].entry.attempts <= MAX_ATTEMPTS
    ensures s.log[j].at > s.log[k].now + B.Delay(s.log[j].entry.attempts) - NANOS_PER_MILLI
  {
    History.RecordedCounters(s, k);
    var i := History.BackoffSpacing(s, j);
    EachStageOnce(s, i, k);
  }

  /** And no worker gives up on an entry until more than 30s - 4ms after every first pop of it. */
  lemma EveryFirstPopIsLongBefore(s: State, first: nat, b: nat)
    requires Reachable(s) && DistinctStamps(s.log) && History.ClocksRunOn(s.log)
    requires first < |s.log| && b < |s.log| && s.log[b].Buried? && s.log[first].Popped?
    requires s.log[first].entry == s.log[b].entry.(attempts := 1)
    ensures first < b && s.log[b].now - s.log[first].at > 30_000_000_000 - 4 * NANOS_PER_MILLI
  {
    var i := History.DeadNoSoonerThan30s(s, b);
    EachStageOnce(s, i, first);
  }

  // ---- Where the hypothesis fails ----

  /** Two deliveries of one event, both failing and stamped with one instant. */
  lemma TwoStamps(e: InsertParams) returns (actions: seq<Action>, s: State)
    ensures Run(INIT, actions) == Some(s)
    ensures s == State([], map[], [], map[1 := HAdd(Entry(e, 0, 1), 0), 2 := HAdd(Entry(e, 0, 1), 0)], s.log)
    ensures forall i :: 0 <= i < |s.log| ==> !s.log[i].WorkerInserted?
  {
    var entry := Entry(e, 0, 1);
    var l1 := [Arrived(e)];
    var l2 := l1 + [HandlerInserted(e, Failed)];
    var l3 := l2 + [Stamped(entry, 0)];
    var s1 := State([], map[], [], map[1 := HInsert(e)], l1);
    var s2 := State([], map[], [], map[1 := HEnqueue(e)], l2);
    var s3 := State([], map[], [], map[1 := HAdd(entry, 0)], l3);
    assert Run(INIT, []) == Some(INIT);
    Step([], INIT, Arrive(1, e), s1);
    Step([Arrive(1, e)], s1, HandlerInsert(1, 0, 0, FailsBefore), s2);
    actions := [Arrive(1, e)] + [HandlerInsert(1, 0, 0, FailsBefore)];
    Step(actions, s2, HandlerStamp(1, 0, 0), s3);
    actions := actions + [HandlerStamp(1, 0, 0)];
    var l4 := l3 + [Arrived(e)];
    var l5 := l4 + [HandlerInserted(e, Failed)];
    var s4 := State([], map[], [], map[1 := HAdd(entry, 0), 2 := HInsert(e)], l4);
    var s5 := State([], map[], [], map[1 := HAdd(entry, 0), 2 := HEnqueue(e)], l5);
    s := State([], map[], [], map[1 := HAdd(entry, 0), 2 := HAdd(entry, 0)], l5 + [Stamped(entry, 0)]);
    Step(actions, s3, Arrive(2, e), s4);
    actions := actions + [Arrive(2, e)];
    Step(actions, s4, HandlerInsert(2, 0, 0, FailsBefore), s5);
    actions := actions + [HandlerInsert(2, 0, 0, FailsBefore)];
    Step(actions, s5, HandlerStamp(2, 0, 0), s);
    actions := actions + [HandlerStamp(2, 0, 0)];
  }

  /** A new worker pops the one entry that waits, and fails to insert it. */
  lemma PopInsert(actions: seq<Action>, s: State, w: Pid, entry: Entry) returns (more: seq<Action>, u: State)
    requires Run(INIT, actions) == Some(s) && s.retry == map[entry := 0] && w !in s.procs && entry.attempts == 1
    ensures Run(INIT, more) == Some(u)
    ensures u == s.(retry := map[], procs := s.procs[w := WBackoff(entry, 0)],
                    log := s.log + [Started] + [Popped(entry, 0, 0, PopOk)] + [WorkerInserted(entry, 0, Failed)])
  {
    var l1 := s.log + [Started];
    var l2 := l1 + [Popped(entry, 0, 0, PopOk)];
    var s1 := s.(procs := s.procs[w := WIdle], log := l1);
    var s2 := s.(retry := map[], procs := s.procs[w := WHold(entry, 0)], log := l2);
    u := s2.(procs := s.procs[w := WBackoff(entry, 0)], log := l2 + [WorkerInserted(entry, 0, Failed)]);
    Step(actions, s, WorkerStart(w), s1);
    more := actions + [WorkerStart(w)];
    assert s1.retry - {entry} == map[] && s1.procs[w := WHold(entry, 0)] == s2.procs;
    Step(more, s1, WorkerPop(w, entry, 0, PopOk), s2);
    more := more + [WorkerPop(w, entry, 0, PopOk)];
    assert s2.procs[w := WBackoff(entry, 0)] == u.procs;
    Step(more, s2, WorkerInsert(w, 0, 0, FailsBefore), u);
    more := more + [WorkerInsert(w, 0, 0, FailsBefore)];
  }

  /** A handler adds its entry, and a new worker pops it and fails to insert it. */
  lemma AddPopInsert(actions: seq<Action>, s: State, h: Pid, w: Pid, entry: Entry)
    returns (more: seq<Action>, u: State)
    requires Run(INIT, actions) == Some(s) && s.retry == map[]
    requires h in s.procs && s.procs[h] == HAdd(entry, 0) && w !in s.procs && entry.attempts == 1
    ensures Run(INIT, more) == Some(u)
    ensures u == s.(procs := s.procs[h := HReply(entry.event, 500)][w := WBackoff(entry, 0)], log := u.log)
    ensures |u.log| == |s.log| + 4 && u.log[..|s.log|] == s.log
    ensures u.log[|s.log| + 3] == WorkerInserted(entry, 0, Failed)
  {
    var procs := s.procs[h := HReply(entry.event, 500)];
    var s1 := s.(retry := map[entry := 0], procs := procs, log := s.log + [Enqueued(entry, NoFault)]);
    Step(actions, s, HandlerAdd(h, NoFault), s1);
    more, u := PopInsert(actions + [HandlerAdd(h, NoFault)], s1, w, entry);
  }

  /** Two deliveries of one event that fail and are stamped with one instant make one entry twice, and workers
      can insert it twice with one counter: the hypothesis on stamps is needed. */
  lemma TwinStampsRunTwice(e: InsertParams) returns (actions: seq<Action>, i: nat, j: nat)
    ensures Run(INIT, actions).Some?
    ensures var log := Run(INIT, actions).value.log;
      && !DistinctStamps(log)
      && i < j < |log| && log[i] == log[j] == WorkerInserted(Entry(e, 0, 1), 0, Failed)
  {
    var entry := Entry(e, 0, 1);
    var s, u, v;
    actions, s := TwoStamps(e);
    i := |s.log| + 3;
    actions, u := AddPopInsert(actions, s, 1, 3, entry);
    j := |u.log| + 3;
    actions, v := AddPopInsert(actions, u, 2, 4, entry);
    assert v.log[..|u.log|][i] == v.log[i];
    if DistinctStamps(v.log) {
      EachStageOnce(v, i, j);
    }
  }
}
