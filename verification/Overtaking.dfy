/** Fairness of the retry set: how many pops can come before the pop of an entry whose time has come. */
module Overtaking {
  import opened Domain
  import opened Store
  import Backoff
  import opened Protocol

  /** The order of a ZSET: by score, and between equal scores by member, which is `lt`. */
  predicate Before(score: int, x: Entry, k: int, e: Entry, lt: (Entry, Entry) -> bool) {
    score < k || (score == k && lt(x, e))
  }

  /** The entries that sort before `e`, whose score is `k`. */
  function Ahead(s: State, e: Entry, k: int, lt: (Entry, Entry) -> bool): set<Entry> {
    set x | x in s.retry && x != e && Before(s.retry[x], x, k, e, lt)
  }

  /** The processes that have read the clock and will add an entry that sorts before `e`. */
  function Landing(s: State, e: Entry, k: int, lt: (Entry, Entry) -> bool): set<Pid> {
    set p | p in s.procs && (s.procs[p].HAdd? || s.procs[p].WAdd?)
            && Before(Millis(s.procs[p].readyAt), s.procs[p].entry, k, e, lt)
  }

  function Position(s: State, e: Entry, k: int, lt: (Entry, Entry) -> bool): nat {
    |Ahead(s, e, k, lt)| + |Landing(s, e, k, lt)|
  }

  /** An entry stamped in this step is to be ready after millisecond `k`: for a new entry that is when the clock has
      passed `k`, for a retried one when the clock and the backoff have. Pops may go by any reading. */
  ghost predicate StampsLater(s: State, a: Action, k: int)
    requires Enabled(s, a)
  {
    match a
    case HandlerStamp(_, _, readyAt) => Millis(readyAt) > k
    case WorkerStamp(p, now) => Millis(now + Backoff.Delay(s.procs[p].entry.attempts + 1)) > k
    case _ => true
  }

  /** A pop takes the first of the members with equal scores. */
  ghost predicate TieBroken(s: State, a: Action, lt: (Entry, Entry) -> bool)
    requires Enabled(s, a)
  {
    a.WorkerPop? ==>
      forall x :: x in s.retry && x != a.entry && s.retry[x] == s.retry[a.entry] ==> lt(a.entry, x)
  }

  /** The step neither pops `e` nor adds that very member again. */
  ghost predicate Spares(s: State, a: Action, e: Entry)
    requires Enabled(s, a)
  {
    && (a.WorkerPop? ==> a.entry != e)
    && (a.HandlerAdd? || a.WorkerAdd? ==> s.procs[a.p].entry != e || a.fault == FailsBefore)
  }

  ghost predicate Passes(s: State, a: Action, e: Entry, k: int, lt: (Entry, Entry) -> bool) {
    Enabled(s, a) && StampsLater(s, a, k) && TieBroken(s, a, lt) && Spares(s, a, e)
  }

  lemma PopOvertakes(s: State, a: Action, e: Entry, k: int, lt: (Entry, Entry) -> bool)
    requires Passes(s, a, e, k, lt) && a.WorkerPop?
    requires e in s.retry && s.retry[e] == k
    ensures Ahead(Apply(s, a), e, k, lt) == Ahead(s, e, k, lt) - {a.entry} && a.entry in Ahead(s, e, k, lt)
    ensures Landing(Apply(s, a), e, k, lt) == Landing(s, e, k, lt)
  {
  }

  lemma AddLands(s: State, a: Action, e: Entry, k: int, lt: (Entry, Entry) -> bool)
    requires Passes(s, a, e, k, lt) && (a.HandlerAdd? || a.WorkerAdd?)
    requires e in s.retry && s.retry[e] == k
    ensures Position(Apply(s, a), e, k, lt) <= Position(s, e, k, lt)
  {
    var u, x := Apply(s, a), s.procs[a.p].entry;
    assert Landing(u, e, k, lt) == Landing(s, e, k, lt) - {a.p};
    if a.p in Landing(s, e, k, lt) {
      Shrinks(Ahead(u, e, k, lt), Ahead(s, e, k, lt) + {x});
    } else {
      Shrinks(Ahead(u, e, k, lt), Ahead(s, e, k, lt));
    }
  }

  lemma OthersPass(s: State, a: Action, e: Entry, k: int, lt: (Entry, Entry) -> bool)
    requires Passes(s, a, e, k, lt) && !a.WorkerPop? && !a.HandlerAdd? && !a.WorkerAdd?
    requires e in s.retry && s.retry[e] == k
    ensures Position(Apply(s, a), e, k, lt) <= Position(s, e, k, lt)
  {
    var u := Apply(s, a);
    assert Ahead(u, e, k, lt) == Ahead(s, e, k, lt);
    forall p | p in Landing(u, e, k, lt)
      ensures p in Landing(s, e, k, lt)
    {
      assert a.WorkerStamp? && a.p == p ==> Millis(u.procs[p].readyAt) > k;
    }
    Shrinks(Landing(u, e, k, lt), Landing(s, e, k, lt));
  }

  /** A pop of another entry uses up a place of the queue before `e`; nothing adds one. */
  lemma StepAdvances(s: State, a: Action, e: Entry, k: int, lt: (Entry, Entry) -> bool)
    requires Passes(s, a, e, k, lt)
    requires e in s.retry && s.retry[e] == k
    ensures e in Apply(s, a).retry && Apply(s, a).retry[e] == k
    ensures Position(Apply(s, a), e, k, lt) + (if a.WorkerPop? then 1 else 0) <= Position(s, e, k, lt)
  {
    if a.WorkerPop? {
      PopOvertakes(s, a, e, k, lt);
    } else if a.HandlerAdd? || a.WorkerAdd? {
      AddLands(s, a, e, k, lt);
    } else {
      OthersPass(s, a, e, k, lt);
    }
  }

  /** A run during which `e` keeps waiting although its time has come. */
  ghost predicate KeepsWaiting(s: State, actions: seq<Action>, e: Entry, k: int, lt: (Entry, Entry) -> bool) {
    actions == [] ||
    var init := actions[..|actions| - 1];
    && KeepsWaiting(s, init, e, k, lt)
    && Run(s, init).Some? && Passes(Run(s, init).value, actions[|actions| - 1], e, k, lt)
  }

  function Pops(actions: seq<Action>): nat {
    if actions == [] then 0
    else Pops(actions[..|actions| - 1]) + if actions[|actions| - 1].WorkerPop? then 1 else 0
  }

  /** Once whatever is stamped is stamped for later than an entry's score, at most so many pops come before
      its own as there are entries ahead of it, in the set or already stamped and about to land. Entries
      whose score is later, in backoff or new, do not delay it, whatever the workers and handlers do and
      whichever readings the pops go by. */
  lemma {:induction false} BoundedOvertaking(
    s: State, actions: seq<Action>, e: Entry, k: int, lt: (Entry, Entry) -> bool)
    requires e in s.retry && s.retry[e] == k && KeepsWaiting(s, actions, e, k, lt)
    ensures Run(s, actions).Some? && e in Run(s, actions).value.retry && Run(s, actions).value.retry[e] == k
    ensures Pops(actions) + Position(Run(s, actions).value, e, k, lt) <= Position(s, e, k, lt)
  {
    if actions == [] {
    } else {
      var init, a := actions[..|actions| - 1], actions[|actions| - 1];
      BoundedOvertaking(s, init, e, k, lt);
      StepAdvances(Run(s, init).value, a, e, k, lt);
    }
  }
}
