/** What holds in every state the protocol can reach: publishing and acknowledging. */
module Safety {
  import opened Domain
  import opened Store
  import opened Protocol

  /** The row this process has been told it created, and has yet to publish. */
  function Permit(proc: Proc): Option<Notification> {
    match proc
    case HPublish(_, n) => Some(n)
    case WPublish(n) => Some(n)
    case _ => None
  }

  predicate IsCreation(ev: Event, n: Notification) {
    (ev.HandlerInserted? || ev.WorkerInserted?) && ev.result == Created(n)
  }

  ghost predicate CreatedIn(log: seq<Event>, n: Notification) {
    exists i :: 0 <= i < |log| && IsCreation(log[i], n)
  }

  /** The table still holds the row `n` was, with at most its read mark changed. */
  ghost predicate Recorded(t: Table, n: Notification) {
    exists r :: r in t && OnlyReadMarkChanged(n, r)
  }

  ghost predicate PermitInv(s: State) {
    && Valid(s.table)
    && (forall p :: p in s.procs && Permit(s.procs[p]).Some? ==>
          Recorded(s.table, Permit(s.procs[p]).value) && CreatedIn(s.log, Permit(s.procs[p]).value))
    && (forall p, q ::
          p in s.procs && q in s.procs && p != q && Permit(s.procs[p]).Some? && Permit(s.procs[q]).Some? ==>
          Permit(s.procs[p]).value.eventHash != Permit(s.procs[q]).value.eventHash)
  }

  ghost predicate PublishedRows(s: State) {
    forall i :: 0 <= i < |s.log| && s.log[i].Published? ==>
      Recorded(s.table, s.log[i].n) && CreatedIn(s.log[..i], s.log[i].n)
  }

  ghost predicate PublishedApart(s: State) {
    && (forall i, j :: 0 <= i < j < |s.log| && s.log[i].Published? && s.log[j].Published? ==>
          s.log[i].n.eventHash != s.log[j].n.eventHash)
    && (forall i, p :: 0 <= i < |s.log| && s.log[i].Published? && p in s.procs && Permit(s.procs[p]).Some? ==>
          s.log[i].n.eventHash != Permit(s.procs[p]).value.eventHash)
  }

  ghost predicate PublishInv(s: State) {
    PublishedRows(s) && PublishedApart(s)
  }

  lemma RecordedGrows(t: Table, u: Table, n: Notification)
    requires Recorded(t, n) && Grows(t, u)
    ensures Recorded(u, n) && HasHash(u, n.eventHash)
  {
    var i :| 0 <= i < |t| && OnlyReadMarkChanged(n, t[i]);
    assert u[i] in u;
  }

  lemma CreatedGrows(log: seq<Event>, longer: seq<Event>, n: Notification)
    requires CreatedIn(log, n) && log <= longer
    ensures CreatedIn(longer, n)
  {
    var i :| 0 <= i < |log| && IsCreation(log[i], n);
    assert longer[i] == log[i];
  }

  /** Every process but `p` is where it was. */
  ghost predicate OnlyMoved(s: State, u: State, p: Pid) {
    forall q :: q in u.procs && q != p ==> q in s.procs && s.procs[q] == u.procs[q]
  }

  /** A process gains a permit only from an Insert that found the hash absent. */
  lemma NewPermit(s: State, a: Action, p: Pid)
    requires Enabled(s, a) && Valid(s.table)
    requires p in Apply(s, a).procs && Permit(Apply(s, a).procs[p]).Some?
    requires !(p in s.procs && s.procs[p] == Apply(s, a).procs[p])
    ensures var n := Permit(Apply(s, a).procs[p]).value;
      && !HasHash(s.table, n.eventHash)
      && Recorded(Apply(s, a).table, n) && CreatedIn(Apply(s, a).log, n)
      && OnlyMoved(s, Apply(s, a), p)
      && !Apply(s, a).log[|s.log|].Published?
  {
    var u, n := Apply(s, a), Permit(Apply(s, a).procs[p]).value;
    match a {
      case HandlerInsert(_, id, at, fault) => InsertResults(s.table, s.procs[p].e, id, at, fault);
      case WorkerInsert(_, id, at, fault) => InsertResults(s.table, s.procs[p].entry.event, id, at, fault);
      case _ =>
    }
    assert IsCreation(u.log[|s.log|], n);
    assert n in u.table;
  }

  lemma PermitStep(s: State, a: Action)
    requires Enabled(s, a) && PermitInv(s)
    ensures PermitInv(Apply(s, a))
  {
    var u := Apply(s, a);
    StepGrowsTable(s, a);
    forall p | p in u.procs && Permit(u.procs[p]).Some?
      ensures Recorded(u.table, Permit(u.procs[p]).value) && CreatedIn(u.log, Permit(u.procs[p]).value)
    {
      if p in s.procs && s.procs[p] == u.procs[p] {
        RecordedGrows(s.table, u.table, Permit(u.procs[p]).value);
        CreatedGrows(s.log, u.log, Permit(u.procs[p]).value);
      } else {
        NewPermit(s, a, p);
      }
    }
    forall p, q | p in u.procs && q in u.procs && p != q && Permit(u.procs[p]).Some? && Permit(u.procs[q]).Some?
      ensures Permit(u.procs[p]).value.eventHash != Permit(u.procs[q]).value.eventHash
    {
      PermitsDiffer(s, a, p, q);
    }
  }

  /** A new permit is for a hash that no permit was for. */
  lemma NewPermitDiffers(s: State, a: Action, p: Pid, q: Pid)
    requires Enabled(s, a) && PermitInv(s)
    requires p in Apply(s, a).procs && Permit(Apply(s, a).procs[p]).Some?
    requires !(p in s.procs && s.procs[p] == Apply(s, a).procs[p])
    requires q in s.procs && Permit(s.procs[q]).Some?
    ensures Permit(Apply(s, a).procs[p]).value.eventHash != Permit(s.procs[q]).value.eventHash
  {
    NewPermit(s, a, p);
    RecordedGrows(s.table, s.table, Permit(s.procs[q]).value);
  }

  lemma PermitsDiffer(s: State, a: Action, p: Pid, q: Pid)
    requires Enabled(s, a) && PermitInv(s)
    requires var u := Apply(s, a);
      p in u.procs && q in u.procs && p != q && Permit(u.procs[p]).Some? && Permit(u.procs[q]).Some?
    ensures Permit(Apply(s, a).procs[p]).value.eventHash != Permit(Apply(s, a).procs[q]).value.eventHash
  {
    var u := Apply(s, a);
    if !(p in s.procs && s.procs[p] == u.procs[p]) {
      NewPermit(s, a, p);
      NewPermitDiffers(s, a, p, q);
    } else if !(q in s.procs && s.procs[q] == u.procs[q]) {
      NewPermitDiffers(s, a, q, p);
    }
  }

  /** A permit of `u` is one of `s`, or is for a hash the table of `s` did not have. */
  ghost predicate PermitOldOrNew(s: State, u: State, p: Pid)
    requires p in u.procs
  {
    Permit(u.procs[p]).Some? ==>
      (p in s.procs && s.procs[p] == u.procs[p]) || !HasHash(s.table, Permit(u.procs[p]).value.eventHash)
  }

  /** `p` held the permit for `n` and has given it up; nobody has gained one. */
  ghost predicate PermitUsed(s: State, u: State, p: Pid, n: Notification) {
    && p in s.procs && Permit(s.procs[p]) == Some(n)
    && forall q :: q in u.procs && Permit(u.procs[q]).Some? ==> q != p && q in s.procs && s.procs[q] == u.procs[q]
  }

  /** Only the holder of a permit publishes, and gives the permit up in doing so. */
  lemma PublishUsesPermit(s: State, a: Action)
    requires Enabled(s, a) && PermitInv(s)
    ensures Apply(s, a).log[|s.log|].Published? ==>
              exists p :: PermitUsed(s, Apply(s, a), p, Apply(s, a).log[|s.log|].n)
    ensures forall p :: p in Apply(s, a).procs ==> PermitOldOrNew(s, Apply(s, a), p)
  {
    var u := Apply(s, a);
    forall p | p in u.procs
      ensures PermitOldOrNew(s, u, p)
    {
      if Permit(u.procs[p]).Some? && !(p in s.procs && s.procs[p] == u.procs[p]) {
        NewPermit(s, a, p);
      }
    }
    if u.log[|s.log|].Published? {
      assert PermitUsed(s, u, a.p, u.log[|s.log|].n);
    }
  }

  /** The published hashes stay apart from each other and from the permits still out. */
  lemma PublishedStayApart(s: State, u: State)
    requires PermitInv(s) && PublishInv(s)
    requires |u.log| == |s.log| + 1 && u.log[..|s.log|] == s.log
    requires forall p :: p in u.procs ==> PermitOldOrNew(s, u, p)
    requires u.log[|s.log|].Published? ==> exists p :: PermitUsed(s, u, p, u.log[|s.log|].n)
    ensures PublishedApart(u)
  {
    forall i | 0 <= i < |s.log|
      ensures u.log[i] == s.log[i] && (s.log[i].Published? ==> HasHash(s.table, s.log[i].n.eventHash))
    {
      assert u.log[..|s.log|][i] == u.log[i];
    }
  }

  lemma PublishedKeepRows(s: State, u: State)
    requires PermitInv(s) && PublishInv(s) && Grows(s.table, u.table)
    requires |u.log| == |s.log| + 1 && u.log[..|s.log|] == s.log
    requires u.log[|s.log|].Published? ==> exists p :: PermitUsed(s, u, p, u.log[|s.log|].n)
    ensures PublishedRows(u)
  {
    forall i | 0 <= i < |u.log| && u.log[i].Published?
      ensures Recorded(u.table, u.log[i].n) && CreatedIn(u.log[..i], u.log[i].n)
    {
      if i < |s.log| {
        assert u.log[..|s.log|][i] == u.log[i] && u.log[..i] == s.log[..i];
      }
      RecordedGrows(s.table, u.table, u.log[i].n);
    }
  }

  lemma PublishStep(s: State, a: Action)
    requires Enabled(s, a) && PermitInv(s) && PublishInv(s)
    ensures PublishInv(Apply(s, a))
  {
    StepGrowsTable(s, a);
    PublishUsesPermit(s, a);
    PublishedStayApart(s, Apply(s, a));
    PublishedKeepRows(s, Apply(s, a));
  }

  /** A 200 or 201 is only ever given, or about to be given, for an event whose row is there. */
  ghost predicate Acknowledged(t: Table, e: InsertParams, code: int) {
    && (code == 200 || code == 201 ==> HasHash(t, e.eventHash))
    && (code == 201 ==> exists r :: r in t && EventOf(r) == e)
  }

  ghost predicate ReplyInv(s: State) {
    && (forall i :: 0 <= i < |s.log| && s.log[i].Replied? ==> Acknowledged(s.table, s.log[i].e, s.log[i].code))
    && (forall p :: p in s.procs && s.procs[p].HReply? ==> Acknowledged(s.table, s.procs[p].e, s.procs[p].code))
    && (forall p :: p in s.procs && s.procs[p].HPublish? ==>
          Acknowledged(s.table, s.procs[p].e, 201) && EventOf(s.procs[p].n) == s.procs[p].e)
  }

  lemma AcknowledgedGrows(t: Table, u: Table, e: InsertParams, code: int)
    requires Acknowledged(t, e, code) && Grows(t, u)
    ensures Acknowledged(u, e, code)
  {
    if code == 200 || code == 201 {
      GrowsKeepsHash(t, u, e.eventHash);
    }
    if code == 201 {
      var i :| 0 <= i < |t| && EventOf(t[i]) == e;
      assert u[i] in u;
    }
  }

  lemma ReplyStep(s: State, a: Action)
    requires Enabled(s, a) && Valid(s.table) && ReplyInv(s)
    ensures ReplyInv(Apply(s, a))
  {
    var u := Apply(s, a);
    StepGrowsTable(s, a);
    forall i | 0 <= i < |s.log| && s.log[i].Replied?
      ensures Acknowledged(u.table, s.log[i].e, s.log[i].code)
    {
      AcknowledgedGrows(s.table, u.table, s.log[i].e, s.log[i].code);
    }
    forall p | p in s.procs && s.procs[p].HReply?
      ensures Acknowledged(u.table, s.procs[p].e, s.procs[p].code)
    {
      AcknowledgedGrows(s.table, u.table, s.procs[p].e, s.procs[p].code);
    }
    forall p | p in s.procs && s.procs[p].HPublish?
      ensures Acknowledged(u.table, s.procs[p].e, 201)
    {
      AcknowledgedGrows(s.table, u.table, s.procs[p].e, 201);
    }
    if a.HandlerInsert? {
      var e := s.procs[a.p].e;
      InsertResults(s.table, e, a.id, a.at, a.fault);
      if u.procs[a.p].HPublish? {
        assert u.procs[a.p].n in u.table;
      }
    }
  }

  ghost predicate Inv(s: State) {
    PermitInv(s) && PublishInv(s) && ReplyInv(s)
  }

  lemma {:induction false} RunInv(s: State, actions: seq<Action>)
    requires Inv(s) && Run(s, actions).Some?
    ensures Inv(Run(s, actions).value)
  {
    if actions == [] {
    } else {
      RunInv(s, actions[..|actions| - 1]);
      var before, a := Run(s, actions[..|actions| - 1]).value, actions[|actions| - 1];
      PermitStep(before, a);
      PublishStep(before, a);
      ReplyStep(before, a);
    }
  }

  lemma ReachableInv(s: State)
    requires Reachable(s)
    ensures Inv(s)
  {
    var actions :| Run(INIT, actions) == Some(s);
    RunInv(INIT, actions);
  }

  /** However handlers, redeliveries, workers, crashes and failing calls interleave, no event hash is
      published twice; each publication comes after the Insert that created its row, and carries what
      that row holds to this day. */
  lemma AtMostOncePublish(s: State)
    requires Reachable(s)
    ensures forall i, j :: 0 <= i < j < |s.log| && s.log[i].Published? && s.log[j].Published? ==>
      s.log[i].n.eventHash != s.log[j].n.eventHash
    ensures forall i :: 0 <= i < |s.log| && s.log[i].Published? ==>
      CreatedIn(s.log[..i], s.log[i].n) && Recorded(s.table, s.log[i].n)
  {
    ReachableInv(s);
  }

  ghost predicate OnlyRowOf(t: Table, k: int, hash: Bytes) {
    && 0 <= k < |t|
    && forall j :: 0 <= j < |t| ==> (t[j].eventHash == hash <==> j == k)
  }

  /** Whoever was answered 200 or 201 has exactly one row; after a 201 that row records the very event
      of the request. Being true of every reachable state, it stays true for the rest of the run. */
  lemma AcknowledgedIsDurable(s: State, i: nat)
    requires Reachable(s)
    requires i < |s.log| && s.log[i].Replied? && s.log[i].code in {200, 201}
    ensures exists k :: OnlyRowOf(s.table, k, s.log[i].e.eventHash)
                     && (s.log[i].code == 201 ==> EventOf(s.table[k]) == s.log[i].e)
  {
    ReachableInv(s);
    var e := s.log[i].e;
    if s.log[i].code == 201 {
      var k :| 0 <= k < |s.table| && EventOf(s.table[k]) == e;
      assert OnlyRowOf(s.table, k, e.eventHash);
    } else {
      var k :| 0 <= k < |s.table| && s.table[k].eventHash == e.eventHash;
      assert OnlyRowOf(s.table, k, e.eventHash);
    }
  }

  /** Along any run the rows already there stay at their places, and nothing in them changes but a
      read mark being set; the history only gets longer. */
  lemma {:induction false} RowsAreFrozen(s: State, actions: seq<Action>)
    requires Reachable(s) && Run(s, actions).Some?
    ensures Grows(s.table, Run(s, actions).value.table)
    ensures s.log <= Run(s, actions).value.log
  {
    ReachableInv(s);
    if actions != [] {
      var init := actions[..|actions| - 1];
      RowsAreFrozen(s, init);
      RunInv(s, init);
      StepGrowsTable(Run(s, init).value, actions[|actions| - 1]);
      GrowsTransitive(s.table, Run(s, init).value.table, Run(s, actions).value.table);
    }
  }
}
