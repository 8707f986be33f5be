/** The other half of at-most-once: what is published at all, and what alone can keep a row from it. */
module Announcing {
  import opened Domain
  import opened Store
  import opened Protocol
  import Safety
  import Custody

  /** Redis got a post for this hash. */
  predicate PublishedAt(log: seq<Event>, i: int, hash: Bytes) {
    0 <= i < |log| && Posts(log[i]) && log[i].n.eventHash == hash
  }

  ghost predicate PublishedHash(log: seq<Event>, hash: Bytes) {
    exists i :: PublishedAt(log, i, hash)
  }

  predicate PermitFor(proc: Proc, hash: Bytes) {
    Safety.Permit(proc).Some? && Safety.Permit(proc).value.eventHash == hash
  }

  ghost predicate Pending(s: State, hash: Bytes) {
    exists p :: p in s.procs && PermitFor(s.procs[p], hash)
  }

  /** The event a step inserts. */
  function Inserting(s: State, a: Action): Option<InsertParams> {
    match a
    case HandlerInsert(p, _, _, _) => if p in s.procs && s.procs[p].HInsert? then Some(s.procs[p].e) else None
    case WorkerInsert(p, _, _, _) => if p in s.procs && s.procs[p].WHold? then Some(s.procs[p].entry.event) else None
    case _ => None
  }

  /** The three ways a row can escape being announced: the insert that stores it reports a failure, or the
      process that was told of it crashes before it publishes, or its call to Publish fails without effect. */
  predicate Hides(s: State, a: Action, hash: Bytes) {
    || (Inserting(s, a).Some? && Inserting(s, a).value.eventHash == hash
        && a.fault == FailsAfter && !HasHash(s.table, hash) && !HasId(s.table, a.id))
    || GivesUp(s, a, hash)
  }

  /** The process that was told of the row loses it without a post. */
  predicate GivesUp(s: State, a: Action, hash: Bytes) {
    && (a.Crash? || ((a.HandlerPublish? || a.WorkerPublish?) && a.fault == FailsBefore))
    && a.p in s.procs && PermitFor(s.procs[a.p], hash)
  }

  /** Only an insert of an event with that hash brings a new hash into the table. */
  lemma OnlyInsertsStore(s: State, a: Action, hash: Bytes)
    requires Enabled(s, a) && HasHash(Apply(s, a).table, hash) && !HasHash(s.table, hash)
    ensures (a.HandlerInsert? || a.WorkerInsert?) && Inserting(s, a).Some?
    ensures Inserting(s, a).value.eventHash == hash
  {
    var u := Apply(s, a);
    forall k | 0 <= k < |s.table|
      ensures k < |u.table| && u.table[k].eventHash != hash
    {
      Custody.OldRow(s, a, k);
      assert s.table[k] in s.table;
    }
    var k :| 0 <= k < |u.table| && u.table[k].eventHash == hash;
    Custody.NewRow(s, a, k);
  }

  /** A row just stored will be published by the process that stored it, unless its insert hid it. */
  lemma NewHash(s: State, a: Action, hash: Bytes)
    requires Enabled(s, a) && HasHash(Apply(s, a).table, hash) && !HasHash(s.table, hash)
    ensures Pending(Apply(s, a), hash) || Hides(s, a, hash)
  {
    OnlyInsertsStore(s, a, hash);
    InsertResults(s.table, Inserting(s, a).value, a.id, a.at, a.fault);
    if a.fault == NoFault {
      assert PermitFor(Apply(s, a).procs[a.p], hash);
    }
  }

  /** Who was to publish a row publishes it, or fails to, or crashes. */
  lemma PermitIsUsed(s: State, a: Action, hash: Bytes)
    requires Enabled(s, a) && Pending(s, hash)
    ensures || Pending(Apply(s, a), hash)
            || PublishedAt(Apply(s, a).log, |s.log|, hash)
            || Hides(s, a, hash)
  {
    var u := Apply(s, a);
    var p :| p in s.procs && PermitFor(s.procs[p], hash);
    if p in u.procs && u.procs[p] == s.procs[p] {
      assert PermitFor(u.procs[p], hash);
    }
  }

  /** Some step of the run hid the row with this hash. */
  ghost predicate Hidden(actions: seq<Action>, hash: Bytes)
    requires Run(INIT, actions).Some?
  {
    exists i :: 0 <= i < |actions| && HiddenAt(actions, i, hash)
  }

  ghost predicate HiddenAt(actions: seq<Action>, i: nat, hash: Bytes)
    requires i < |actions|
  {
    Run(INIT, actions[..i]).Some? && Hides(Run(INIT, actions[..i]).value, actions[i], hash)
  }

  lemma HiddenStays(actions: seq<Action>, hash: Bytes)
    requires actions != [] && Run(INIT, actions).Some? && Hidden(actions[..|actions| - 1], hash)
    ensures Hidden(actions, hash)
  {
    var init := actions[..|actions| - 1];
    var i :| 0 <= i < |init| && HiddenAt(init, i, hash);
    assert init[..i] == actions[..i];
    assert HiddenAt(actions, i, hash);
  }

  lemma PublishedStays(log: seq<Event>, longer: seq<Event>, hash: Bytes)
    requires log <= longer && PublishedHash(log, hash)
    ensures PublishedHash(longer, hash)
  {
    var i :| PublishedAt(log, i, hash);
    assert PublishedAt(longer, i, hash);
  }

  lemma {:induction false} AnnouncedOrHidden(actions: seq<Action>, hash: Bytes)
    requires Run(INIT, actions).Some? && HasHash(Run(INIT, actions).value.table, hash)
    ensures var s := Run(INIT, actions).value;
      PublishedHash(s.log, hash) || Pending(s, hash) || Hidden(actions, hash)
  {
    var init, a := actions[..|actions| - 1], actions[|actions| - 1];
    var s := Run(INIT, init).value;
    var u := Apply(s, a);
    assert u.log[..|s.log|] == s.log by {
      Safety.RunInv(INIT, init);
      StepGrowsTable(s, a);
    }
    assert actions[..|init|] == init;
    if Hides(s, a, hash) {
      assert HiddenAt(actions, |init|, hash);
    } else if !HasHash(s.table, hash) {
      NewHash(s, a, hash);
    } else {
      AnnouncedOrHidden(init, hash);
      if PublishedHash(s.log, hash) {
        PublishedStays(s.log, u.log, hash);
      } else if Hidden(init, hash) {
        HiddenStays(actions, hash);
      } else {
        PermitIsUsed(s, a, hash);
      }
    }
  }

  /** The row is there, and nobody has told of it or is about to. */
  ghost predicate Silenced(s: State, hash: Bytes) {
    HasHash(s.table, hash) && !PublishedHash(s.log, hash) && !Pending(s, hash)
  }

  /** The step that hides posts nothing and gives nobody a permit. */
  lemma NobodyIsTold(s: State, a: Action, hash: Bytes)
    requires Enabled(s, a) && Hides(s, a, hash)
    ensures Apply(s, a).log[..|s.log|] == s.log
    ensures forall i :: PublishedAt(Apply(s, a).log, i, hash) ==> PublishedAt(s.log, i, hash)
    ensures forall p :: p in Apply(s, a).procs && PermitFor(Apply(s, a).procs[p], hash) ==>
      p in s.procs && PermitFor(s.procs[p], hash) && (GivesUp(s, a, hash) ==> p != a.p)
  {
  }

  /** A hash new to the table has neither been posted nor is there a permit for it. */
  lemma StoringSilences(s: State, a: Action, hash: Bytes)
    requires Enabled(s, a) && Safety.Inv(s) && Hides(s, a, hash) && !GivesUp(s, a, hash)
    ensures Silenced(Apply(s, a), hash)
  {
    forall i | PublishedAt(s.log, i, hash)
      ensures false
    {
      Safety.RecordedGrows(s.table, s.table, s.log[i].n);
    }
    forall p | p in s.procs && PermitFor(s.procs[p], hash)
      ensures false
    {
      Safety.RecordedGrows(s.table, s.table, Safety.Permit(s.procs[p]).value);
    }
    NobodyIsTold(s, a, hash);
    var row := RowFor(Inserting(s, a).value, a.id, a.at);
    assert row in Apply(s, a).table && row.eventHash == hash;
  }

  /** The permit given up is the only one for its hash, and no post has been made on it. */
  lemma GivingUpSilences(s: State, a: Action, hash: Bytes)
    requires Enabled(s, a) && Safety.Inv(s) && GivesUp(s, a, hash)
    ensures Silenced(Apply(s, a), hash)
  {
    StepGrowsTable(s, a);
    NobodyIsTold(s, a, hash);
    Safety.RecordedGrows(s.table, Apply(s, a).table, Safety.Permit(s.procs[a.p]).value);
  }

  /** Hiding acts on a row that nobody else can announce. */
  lemma HidingSilences(s: State, a: Action, hash: Bytes)
    requires Enabled(s, a) && Safety.Inv(s) && Hides(s, a, hash)
    ensures Silenced(Apply(s, a), hash)
  {
    if GivesUp(s, a, hash) {
      GivingUpSilences(s, a, hash);
    } else {
      StoringSilences(s, a, hash);
    }
  }

  /** And once silenced, always silenced: publishing takes a permit, and a permit a hash new to the table. */
  lemma SilenceLasts(s: State, a: Action, hash: Bytes)
    requires Enabled(s, a) && Safety.Inv(s) && Silenced(s, hash)
    ensures Silenced(Apply(s, a), hash)
  {
    var u := Apply(s, a);
    StepGrowsTable(s, a);
    GrowsKeepsHash(s.table, u.table, hash);
    Safety.PublishUsesPermit(s, a);
    forall i | 0 <= i < |s.log|
      ensures PublishedAt(u.log, i, hash) ==> PublishedAt(s.log, i, hash)
    {
      assert u.log[..|s.log|][i] == u.log[i];
    }
  }

  lemma {:induction false} HiddenIsSilenced(actions: seq<Action>, hash: Bytes)
    requires Run(INIT, actions).Some? && Hidden(actions, hash)
    ensures Silenced(Run(INIT, actions).value, hash)
  {
    var init, a := actions[..|actions| - 1], actions[|actions| - 1];
    var s := Run(INIT, init).value;
    Safety.RunInv(INIT, init);
    var i :| 0 <= i < |actions| && HiddenAt(actions, i, hash);
    if i == |init| {
      HidingSilences(s, a, hash);
    } else {
      assert init[..i] == actions[..i];
      assert HiddenAt(init, i, hash);
      HiddenIsSilenced(init, hash);
      SilenceLasts(s, a, hash);
    }
  }

  /** In any run, a stored row has neither been published nor is about to be by a process that holds it
      exactly when one of the three faults has hidden it. */
  lemma UnannouncedIff(actions: seq<Action>, hash: Bytes)
    requires Run(INIT, actions).Some?
    ensures var s := Run(INIT, actions).value;
      Hidden(actions, hash) <==> HasHash(s.table, hash) && !PublishedHash(s.log, hash) && !Pending(s, hash)
  {
    if Hidden(actions, hash) {
      HiddenIsSilenced(actions, hash);
    } else if HasHash(Run(INIT, actions).value.table, hash) {
      AnnouncedOrHidden(actions, hash);
    }
  }

  /** Such a row is never announced, however the run goes on. */
  lemma {:induction false} HiddenForGood(actions: seq<Action>, more: seq<Action>, hash: Bytes)
    requires Run(INIT, actions).Some? && Hidden(actions, hash) && Run(INIT, actions + more).Some?
    ensures var s := Run(INIT, actions + more).value;
      HasHash(s.table, hash) && !PublishedHash(s.log, hash) && !Pending(s, hash)
  {
    var all := actions + more;
    var i :| 0 <= i < |actions| && HiddenAt(actions, i, hash);
    assert all[..i] == actions[..i];
    assert HiddenAt(all, i, hash);
    HiddenIsSilenced(all, hash);
  }

  /** The run has stored a row that has not been announced and that nobody is going to announce. */
  ghost predicate Unannounced(actions: seq<Action>, hash: Bytes) {
    Run(INIT, actions).Some? &&
    var s := Run(INIT, actions).value;
    HasHash(s.table, hash) && !PublishedHash(s.log, hash) && !Pending(s, hash)
  }

  /** A handler has stored the row of an event. */
  lemma Stores(e: InsertParams, fault: Fault) returns (actions: seq<Action>, s: State)
    requires fault != FailsBefore
    ensures actions == [Arrive(0, e), HandlerInsert(0, 0, 0, fault)] && Run(INIT, actions) == Some(s)
    ensures s.table == [RowFor(e, 0, 0)] && s.procs.Keys == {0} && (forall i :: 0 <= i < |s.log| ==> !Posts(s.log[i]))
    ensures s.procs[0] == if fault == NoFault then HPublish(e, RowFor(e, 0, 0)) else HEnqueue(e)
  {
    var a, b := Arrive(0, e), HandlerInsert(0, 0, 0, fault);
    var s1 := Apply(INIT, a);
    s := Apply(s1, b);
    Step([], INIT, a, s1);
    Step([a], s1, b, s);
    assert [] + [a] == [a];
    actions := [a] + [b];
  }

  /** And each of the three does hide rows, with a handler alone and an empty table to begin with: the insert that
      reports a failure, the crash, the call to Publish without effect. */
  lemma EachFaultCanHide(e: InsertParams)
    ensures Unannounced([Arrive(0, e), HandlerInsert(0, 0, 0, FailsAfter)], e.eventHash)
    ensures Unannounced([Arrive(0, e), HandlerInsert(0, 0, 0, NoFault)] + [Crash(0)], e.eventHash)
    ensures Unannounced([Arrive(0, e), HandlerInsert(0, 0, 0, NoFault)] + [HandlerPublish(0, FailsBefore)], e.eventHash)
  {
    var failed, s := Stores(e, FailsAfter);
    assert RowFor(e, 0, 0) in s.table;
    assert Unannounced(failed, e.eventHash);
    var stored, t := Stores(e, NoFault);
    assert RowFor(e, 0, 0) in t.table;
    Step(stored, t, Crash(0), Apply(t, Crash(0)));
    Step(stored, t, HandlerPublish(0, FailsBefore), Apply(t, HandlerPublish(0, FailsBefore)));
  }

  /** A step of one of the kinds that can hide a row. */
  predicate Obscures(a: Action) {
    || a.Crash?
    || ((a.HandlerInsert? || a.WorkerInsert?) && a.fault == FailsAfter)
    || ((a.HandlerPublish? || a.WorkerPublish?) && a.fault == FailsBefore)
  }

  /** Exactly once: in a run in which no process crashes, no insert fails after it has taken effect and no
      publication fails before, once nobody is left with a row to publish, the hashes published are those of
      the rows, and each is published by one record of the history only. */
  lemma ExactlyOnce(actions: seq<Action>, hash: Bytes)
    requires Run(INIT, actions).Some?
    requires forall i :: 0 <= i < |actions| ==> !Obscures(actions[i])
    requires forall p :: p in Run(INIT, actions).value.procs ==>
      Safety.Permit(Run(INIT, actions).value.procs[p]).None?
    ensures var s := Run(INIT, actions).value;
      && (HasHash(s.table, hash) <==> PublishedHash(s.log, hash))
      && (forall i, j :: PublishedAt(s.log, i, hash) && PublishedAt(s.log, j, hash) ==> i == j)
  {
    var s := Run(INIT, actions).value;
    Safety.RunInv(INIT, actions);
    UnannouncedIff(actions, hash);
    if PublishedHash(s.log, hash) {
      var i :| PublishedAt(s.log, i, hash);
      Safety.RecordedGrows(s.table, s.table, s.log[i].n);
    }
  }

  /** Who was answered 201 has had Publish called for the event before. */
  ghost predicate AnsweredAfterPublishing(s: State) {
    && (forall i :: 0 <= i < |s.log| && s.log[i].Replied? && s.log[i].code == 201 ==> Told(s.log[..i], s.log[i].e))
    && (forall p :: p in s.procs && s.procs[p].HReply? && s.procs[p].code == 201 ==> Told(s.log, s.procs[p].e))
    && (forall p :: p in s.procs && s.procs[p].HPublish? ==> EventOf(s.procs[p].n) == s.procs[p].e)
  }

  ghost predicate Told(log: seq<Event>, e: InsertParams) {
    exists i :: 0 <= i < |log| && log[i].Published? && EventOf(log[i].n) == e
  }

  lemma ToldGrows(log: seq<Event>, longer: seq<Event>, e: InsertParams)
    requires log <= longer && Told(log, e)
    ensures Told(longer, e)
  {
    var i :| 0 <= i < |log| && log[i].Published? && EventOf(log[i].n) == e;
    assert longer[i] == log[i];
  }

  lemma AnswerStep(s: State, a: Action, p: Pid)
    requires Enabled(s, a) && AnsweredAfterPublishing(s) && p in Apply(s, a).procs
    ensures var proc := Apply(s, a).procs[p];
      && (proc.HReply? && proc.code == 201 ==> Told(Apply(s, a).log, proc.e))
      && (proc.HPublish? ==> EventOf(proc.n) == proc.e)
  {
    var u := Apply(s, a);
    if p in s.procs && s.procs[p] == u.procs[p] {
      if u.procs[p].HReply? && u.procs[p].code == 201 {
        ToldGrows(s.log, u.log, u.procs[p].e);
      }
    } else if a.HandlerPublish? {
      assert u.log[|s.log|].Published? && EventOf(u.log[|s.log|].n) == u.procs[p].e;
    } else if a.HandlerInsert? {
      InsertResults(s.table, s.procs[p].e, a.id, a.at, a.fault);
    }
  }

  lemma {:induction false} RunAnswers(actions: seq<Action>)
    requires Run(INIT, actions).Some?
    ensures AnsweredAfterPublishing(Run(INIT, actions).value)
  {
    if actions == [] {
    } else {
      var init, a := actions[..|actions| - 1], actions[|actions| - 1];
      var s := Run(INIT, init).value;
      RunAnswers(init);
      var u := Apply(s, a);
      forall p | p in u.procs
        ensures u.procs[p].HReply? && u.procs[p].code == 201 ==> Told(u.log, u.procs[p].e)
        ensures u.procs[p].HPublish? ==> EventOf(u.procs[p].n) == u.procs[p].e
      {
        AnswerStep(s, a, p);
      }
      LogAnswers(s, a);
    }
  }

  lemma LogAnswers(s: State, a: Action)
    requires Enabled(s, a) && AnsweredAfterPublishing(s)
    ensures forall i :: 0 <= i < |Apply(s, a).log| && Apply(s, a).log[i].Replied? && Apply(s, a).log[i].code == 201 ==>
      Told(Apply(s, a).log[..i], Apply(s, a).log[i].e)
  {
    var u := Apply(s, a);
    assert u.log[..|s.log|] == s.log;
    forall i | 0 <= i < |u.log| && u.log[i].Replied? && u.log[i].code == 201
      ensures Told(u.log[..i], u.log[i].e)
    {
      if i < |s.log| {
        assert u.log[i] == s.log[i] && u.log[..i] == s.log[..i];
      }
    }
  }

  /** The call to Publish for `e`. */
  predicate CallFor(log: seq<Event>, k: int, e: InsertParams) {
    0 <= k < |log| && log[k].Published? && EventOf(log[k].n) == e
  }

  /** A 201 is answered only after Publish has been called for the event of the request; and Redis has then
      got a post of that event, or ever will, exactly if this call did not fail without effect. */
  lemma CreatedMeansAnnounced(s: State, i: nat) returns (k: nat)
    requires Reachable(s) && i < |s.log| && s.log[i].Replied? && s.log[i].code == 201
    ensures k < i && CallFor(s.log, k, s.log[i].e)
    ensures PublishedHash(s.log, s.log[i].e.eventHash) <==> s.log[k].fault != FailsBefore
  {
    var actions :| Run(INIT, actions) == Some(s);
    RunAnswers(actions);
    assert Told(s.log[..i], s.log[i].e);
    k :| 0 <= k < i && s.log[..i][k].Published? && EventOf(s.log[..i][k].n) == s.log[i].e;
    Safety.AtMostOncePublish(s);
    if PublishedHash(s.log, s.log[i].e.eventHash) {
      var j :| PublishedAt(s.log, j, s.log[i].e.eventHash);
      assert j == k;
    } else {
      assert !PublishedAt(s.log, k, s.log[i].e.eventHash);
    }
  }
}
