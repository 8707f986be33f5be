/** What the processes of the deployment share, and the others at work on it: what connects the code of a handler or
    a worker, statement by statement, with the interleavings of the protocol. */
module Deployment {
  import opened Broadcasting
  import opened Domain
  import Store
  import P = Protocol
  import R = Repository
  import Q = RetryQueue

  /** The posts of a history that Redis got. */
  function Announced(log: seq<P.Event>): seq<Post> {
    if log == [] then []
    else
      var ev := log[|log| - 1];
      Announced(log[..|log| - 1]) + if P.Posts(ev) then [PostOf(ev.n)] else []
  }

  lemma AnnouncedSnoc(log: seq<P.Event>, ev: P.Event)
    ensures Announced(log + [ev]) == Announced(log) + if P.Posts(ev) then [PostOf(ev.n)] else []
  {
    assert (log + [ev])[..|log|] == log;
  }

  /** Posts the message of a notification on its citizen's channel. */
  class Publisher {
    /** What Redis has got. */
    var posts: seq<Post>

    constructor ()
      ensures posts == []
    {
      posts := [];
    }

    method Publish(n: Notification, fault: Store.Fault) returns (ok: bool)
      modifies this
      ensures posts == old(posts) + if fault == Store.FailsBefore then [] else [PostOf(n)]
      ensures ok <==> fault == Store.NoFault
    {
      var message := ToMessage(n);
      if fault != Store.FailsBefore {
        posts := posts + [Post(ChannelFor(n.citizenRef), message)];
      }
      ok := fault == Store.NoFault;
    }
  }

  predicate IsBy(a: P.Action, me: P.Pid) {
    !a.MarkRowRead? && a.p == me
  }

  /** The steps among these that process `me` takes. */
  function Own(actions: seq<P.Action>, me: P.Pid): seq<P.Action> {
    if actions == [] then []
    else
      var init, a := actions[..|actions| - 1], actions[|actions| - 1];
      Own(init, me) + if IsBy(a, me) then [a] else []
  }

  lemma OwnSnoc(actions: seq<P.Action>, a: P.Action, me: P.Pid)
    ensures Own(actions + [a], me) == Own(actions, me) + if IsBy(a, me) then [a] else []
  {
    assert (actions + [a])[..|actions|] == actions;
  }

  /** What has been done since `before` is what `a` does. */
  lemma Follow(past: seq<P.Action>, before: P.State, a: P.Action, after: P.State, me: P.Pid)
    requires P.Run(P.INIT, past) == Some(before)
    requires P.Enabled(before, a) && after == P.Apply(before, a)
    ensures P.Run(P.INIT, past + [a]) == Some(after)
    ensures Own(past + [a], me) == Own(past, me) + if IsBy(a, me) then [a] else []
    ensures |after.log| == |before.log| + 1 && after.log == before.log + [after.log[|before.log|]]
    ensures Announced(after.log)
         == Announced(before.log)
            + if P.Posts(after.log[|before.log|]) then [PostOf(after.log[|before.log|].n)] else []
  {
    P.RunSnoc(P.INIT, past, a);
    OwnSnoc(past, a, me);
    AnnouncedSnoc(before.log, after.log[|before.log|]);
  }

  /** Where `me` is, as far as the others are concerned. */
  predicate SamePlace(s: P.State, t: P.State, me: P.Pid) {
    (me in t.procs <==> me in s.procs) && (me in s.procs ==> t.procs[me] == s.procs[me])
  }

  lemma OthersStayAway(s: P.State, a: P.Action, me: P.Pid)
    requires P.Enabled(s, a) && !IsBy(a, me)
    ensures SamePlace(s, P.Apply(s, a), me)
  {
  }

  /** Of `others`, each in turn takes its step if it can and the step is not one of `me`. */
  function Around(s: P.State, others: seq<P.Action>, me: P.Pid): P.State {
    if others == [] then s
    else
      var t, a := Around(s, others[..|others| - 1], me), others[|others| - 1];
      if P.Enabled(t, a) && !IsBy(a, me) then P.Apply(t, a) else t
  }

  /** Nothing a process does depends on the history. */
  lemma HistoryDecidesNothing(s: P.State, log: seq<P.Event>, a: P.Action)
    requires s.log == []
    ensures P.Enabled(s, a) <==> P.Enabled(s.(log := log), a)
    ensures P.Enabled(s, a) ==>
      var t := P.Apply(s, a);
      |t.log| == 1 && P.Apply(s.(log := log), a) == t.(log := log + [t.log[0]])
  {
  }

  /** The table, the retry set and the dead list, the channel to the connections, and where everybody is. */
  class System {
    const db: R.CbQuerier
    const queue: Q.Queue
    const pub: Publisher
    var procs: map<P.Pid, P.Proc>
    ghost var log: seq<P.Event>
    /** Everybody's steps from the beginning. */
    ghost var steps: seq<P.Action>

    constructor (db: R.CbQuerier, queue: Q.Queue, pub: Publisher)
      requires queue.Valid() && db.table == [] && queue.retry == map[] && queue.dead == [] && pub.posts == []
      ensures this.db == db && this.queue == queue && this.pub == pub && Abs() == P.INIT && Valid()
    {
      this.db, this.queue, this.pub := db, queue, pub;
      procs, log, steps := map[], [], [];
    }

    function Now(): P.State
      reads this, db, queue
    {
      P.State(db.table, queue.retry, queue.dead, procs, [])
    }

    /** The state of the protocol that these objects are in. */
    ghost function Abs(): P.State
      reads this, db, queue
    {
      Now().(log := log)
    }

    /** The steps so far are a run of the protocol, and Redis has got the posts of its history. */
    ghost predicate Valid()
      reads this, db, queue, pub
    {
      P.Run(P.INIT, steps) == Some(Abs()) && pub.posts == Announced(log) && queue.Valid()
    }

    /** Since `past` process `me` has taken the steps `mine`, among those of the others. */
    ghost predicate Took(past: seq<P.Action>, me: P.Pid, mine: seq<P.Action>)
      reads this
    {
      past <= steps && Own(steps, me) == Own(past, me) + mine
    }

    /** Process `me` has taken step `a` and is now at `next`. */
    method Goto(me: P.Pid, next: P.Proc, ghost a: P.Action, ghost ev: P.Event)
      modifies this
      ensures procs == old(procs)[me := next] && log == old(log) + [ev] && steps == old(steps) + [a]
    {
      procs := procs[me := next];
      log, steps := log + [ev], steps + [a];
    }

    /** Process `me` has taken its last step. */
    method Leave(me: P.Pid, ghost a: P.Action, ghost ev: P.Event)
      modifies this
      ensures procs == old(procs) - {me} && log == old(log) + [ev] && steps == old(steps) + [a]
    {
      procs := procs - {me};
      log, steps := log + [ev], steps + [a];
    }

    /** Somebody else's step. */
    method Other(a: P.Action, me: P.Pid)
      requires Valid() && P.Enabled(Abs(), a) && !IsBy(a, me)
      modifies this, db, queue, pub
      ensures Valid() && SamePlace(old(Abs()), Abs(), me) && Took(old(steps), me, [])
      ensures Abs() == P.Apply(old(Abs()), a)
    {
      HistoryDecidesNothing(Now(), log, a);
      OthersStayAway(Abs(), a, me);
      Follow(steps, Abs(), a, P.Apply(Abs(), a), me);
      var t := P.Apply(Now(), a);
      var ev := t.log[0];
      if P.Posts(ev) {
        pub.posts := pub.posts + [PostOf(ev.n)];
      }
      db.table := t.table;
      queue.retry, queue.dead := t.retry, t.dead;
      procs := t.procs;
      log, steps := log + [ev], steps + [a];
      assert Now() == t.(log := []);
    }

    /** Everybody but `me` does what of `others` can be done. */
    method AllBut(me: P.Pid, others: seq<P.Action>)
      requires Valid()
      modifies this, db, queue, pub
      ensures Valid() && SamePlace(old(Abs()), Abs(), me) && Took(old(steps), me, [])
      ensures Abs() == Around(old(Abs()), others, me)
    {
      for i := 0 to |others|
        invariant Valid() && SamePlace(old(Abs()), Abs(), me) && Took(old(steps), me, [])
        invariant Abs() == Around(old(Abs()), others[..i], me)
      {
        assert others[..i + 1][..i] == others[..i];
        HistoryDecidesNothing(Now(), log, others[i]);
        if P.Enabled(Now(), others[i]) && !IsBy(others[i], me) {
          Other(others[i], me);
        }
      }
      assert others[..|others|] == others;
    }
  }
}
