/** What follows when the parts are put together: from posted bodies to the protocol's assumptions, and from
    the protocol's publications to what a connection shows. */
module EndToEnd {
  import opened Broadcasting
  import opened Deployment
  import opened Domain
  import P = Protocol
  import W = Webhook
  import C = Connection
  import Confluence
  import Custody
  import O = Overtaking
  import Q = RetryQueue
  import Safety
  import Service
  import Store

  /** `e` is what the webhook makes of an accepted request with one of these bodies. */
  ghost predicate FromBody(cfg: W.Config, bodies: iset<Bytes>, e: InsertParams) {
    exists req: W.Request :: req.body.Some? && req.body.value in bodies && W.Decide(cfg, req) == W.Accept(e)
  }

  lemma SameHashSameEvent(cfg: W.Config, bodies: iset<Bytes>, e: InsertParams, f: InsertParams)
    requires W.TellsApart(cfg.sha256, bodies)
    requires FromBody(cfg, bodies, e) && FromBody(cfg, bodies, f) && e.eventHash == f.eventHash
    ensures e == f
  {
    var r1: W.Request :| r1.body.Some? && r1.body.value in bodies && W.Decide(cfg, r1) == W.Accept(e);
    var r2: W.Request :| r2.body.Some? && r2.body.value in bodies && W.Decide(cfg, r2) == W.Accept(f);
    W.HashDeterminesEvent(cfg, bodies, r1, r2);
  }

  /** If SHA-256 tells the posted bodies apart, hashes determine the events of the run. */
  lemma BodiesDetermineEvents(cfg: W.Config, bodies: iset<Bytes>, log: seq<P.Event>)
    requires W.TellsApart(cfg.sha256, bodies)
    requires forall i :: 0 <= i < |log| && log[i].Arrived? ==> FromBody(cfg, bodies, log[i].e)
    ensures Custody.HashDetermines(log)
  {
    forall e, f | Custody.ArrivedIn(log, e) && Custody.ArrivedIn(log, f) && e.eventHash == f.eventHash
      ensures e == f
    {
      SameHashSameEvent(cfg, bodies, e, f);
    }
  }

  /** And then they name the citizen. */
  lemma BodiesNameOwners(cfg: W.Config, bodies: iset<Bytes>, ops: seq<Service.Op>)
    requires W.TellsApart(cfg.sha256, bodies)
    requires forall i :: 0 <= i < |ops| && ops[i].Ingest? ==> FromBody(cfg, bodies, ops[i].e)
    ensures Service.HashNamesOwner(ops)
  {
    forall i, j | 0 <= i < |ops| && 0 <= j < |ops| && Service.SameHash(ops[i], ops[j])
      ensures Service.Owner(ops[i]) == Service.Owner(ops[j])
    {
      SameHashSameEvent(cfg, bodies, ops[i].e, ops[j].e);
    }
  }

  /** So leaving out everybody else's requests changes none of a citizen's replies. */
  lemma BodiesIsolateCitizens(cfg: W.Config, bodies: iset<Bytes>, ops: seq<Service.Op>, citizen: Bytes)
    requires W.TellsApart(cfg.sha256, bodies) && Service.FreshIds(ops)
    requires forall i :: 0 <= i < |ops| && ops[i].Ingest? ==> FromBody(cfg, bodies, ops[i].e)
    ensures Service.After([], Service.OnlyOf(ops, citizen)) == Store.View(Service.After([], ops), citizen)
    ensures Service.RepliesTo(Service.OnlyOf(ops, citizen), citizen) == Service.RepliesTo(ops, citizen)
  {
    BodiesNameOwners(cfg, bodies, ops);
    Service.NamedHashesAreOwnFirst(ops, citizen);
    Service.NonInterference(ops, citizen);
  }

  // ---- The table of a run ----

  /** The statement a step executes, if it executes one. */
  function StatementOf(s: P.State, a: P.Action): seq<Service.Op>
    requires P.Enabled(s, a)
  {
    match a
    case HandlerInsert(p, id, at, fault) => [Service.Ingest(s.procs[p].e, id, at, fault)]
    case WorkerInsert(p, id, at, fault) => [Service.Ingest(s.procs[p].entry.event, id, at, fault)]
    case MarkRowRead(id, citizen, at) => [Service.MarkOneRead(citizen, id, at, Store.NoFault)]
    case _ => []
  }

  /** All statements of a run, by whichever handler or worker. */
  ghost function Statements(actions: seq<P.Action>): seq<Service.Op>
    requires P.Run(P.INIT, actions).Some?
  {
    if actions == [] then []
    else
      var init := actions[..|actions| - 1];
      Statements(init) + StatementOf(P.Run(P.INIT, init).value, actions[|actions| - 1])
  }

  /** The table of any run, with its retries and races, is what its statements make of an empty one. */
  lemma {:induction false} TableIsAfterStatements(actions: seq<P.Action>)
    requires P.Run(P.INIT, actions).Some?
    ensures P.Run(P.INIT, actions).value.table == Service.After([], Statements(actions))
  {
    if actions == [] {
    } else {
      var init, a := actions[..|actions| - 1], actions[|actions| - 1];
      TableIsAfterStatements(init);
      var before, ops := Statements(init), Statements(actions);
      if StatementOf(P.Run(P.INIT, init).value, a) == [] {
        assert ops == before;
      } else {
        assert ops[..|before|] == before;
      }
    }
  }

  /** A handler inserts, and crashes. */
  lemma InsertRuns(actions: seq<P.Action>, s: P.State, op: Service.Op) returns (more: seq<P.Action>, u: P.State)
    requires P.Run(P.INIT, actions) == Some(s) && s.procs == map[] && op.Ingest?
    ensures P.Run(P.INIT, more) == Some(u) && u.procs == map[] && u.table == Service.Effect(s.table, op)
  {
    var a, b, c := P.Arrive(0, op.e), P.HandlerInsert(0, op.id, op.at, op.fault), P.Crash(0);
    var s1 := P.Apply(s, a);
    var s2 := P.Apply(s1, b);
    u := P.Apply(s2, c);
    P.Step(actions, s, a, s1);
    P.Step(actions + [a], s1, b, s2);
    P.Step(actions + [a] + [b], s2, c, u);
    more := actions + [a] + [b] + [c];
  }

  /** And the other way round: whatever inserts and marks one can think of, in whatever order and with whatever
      faults, some run of the protocol has their table. */
  lemma {:induction false} StatementsRun(ops: seq<Service.Op>) returns (actions: seq<P.Action>, s: P.State)
    ensures P.Run(P.INIT, actions) == Some(s) && s.table == Service.After([], ops) && s.procs == map[]
  {
    if ops == [] {
      actions, s := [], P.INIT;
    } else {
      var op := ops[|ops| - 1];
      actions, s := StatementsRun(ops[..|ops| - 1]);
      if op.Ingest? {
        actions, s := InsertRuns(actions, s, op);
      } else if op.MarkOneRead? && op.fault != Store.FailsBefore {
        var a := P.MarkRowRead(op.id, op.citizen, op.at);
        P.Step(actions, s, a, P.Apply(s, a));
        actions, s := actions + [a], P.Apply(s, a);
      }
    }
  }

  /** In every run, however handlers, workers and marks interleave and whatever fails, a citizen's unread count
      is the notifications stored for the citizen less the different ones the citizen has marked. */
  lemma UnreadInEveryRun(actions: seq<P.Action>, citizen: Bytes)
    requires P.Run(P.INIT, actions).Some?
    ensures var t, ops := P.Run(P.INIT, actions).value.table, Statements(actions);
      Store.CountUnread(t, citizen) == |Service.CreatedIds(ops, citizen)| - |Service.MarkedIds(ops, citizen)|
  {
    TableIsAfterStatements(actions);
    Service.UnreadAccounting(Statements(actions), citizen);
  }

  lemma {:induction false} StatementsArrived(actions: seq<P.Action>, i: nat)
    requires P.Run(P.INIT, actions).Some? && i < |Statements(actions)| && Statements(actions)[i].Ingest?
    ensures Custody.ArrivedIn(P.Run(P.INIT, actions).value.log, Statements(actions)[i].e)
  {
    var init, a := actions[..|actions| - 1], actions[|actions| - 1];
    var s := P.Run(P.INIT, init).value;
    var u := P.Apply(s, a);
    assert u.log == s.log + [u.log[|s.log|]];
    Custody.ArrivedGrows(s.log, u.log[|s.log|]);
    if i < |Statements(init)| {
      StatementsArrived(init, i);
    } else {
      Custody.ReachableProvenance(init);
      assert Custody.About(s.procs[a.p]) == Some(Statements(actions)[i].e);
    }
  }

  /** In every run a citizen's notifications are what that citizen's own statements alone would have made: nobody
      else's requests, retries or races show, if SHA-256 tells the posted bodies apart. */
  lemma CitizensAreIsolated(cfg: W.Config, bodies: iset<Bytes>, actions: seq<P.Action>, citizen: Bytes)
    requires P.Run(P.INIT, actions).Some? && Service.FreshIds(Statements(actions))
    requires var log := P.Run(P.INIT, actions).value.log;
      forall i :: 0 <= i < |log| && log[i].Arrived? ==> FromBody(cfg, bodies, log[i].e)
    requires W.TellsApart(cfg.sha256, bodies)
    ensures Store.View(P.Run(P.INIT, actions).value.table, citizen)
         == Service.After([], Service.OnlyOf(Statements(actions), citizen))
  {
    var ops := Statements(actions);
    forall i | 0 <= i < |ops| && ops[i].Ingest?
      ensures FromBody(cfg, bodies, ops[i].e)
    {
      StatementsArrived(actions, i);
    }
    BodiesIsolateCitizens(cfg, bodies, ops, citizen);
    TableIsAfterStatements(actions);
  }

  // ---- Redelivery, body by body ----

  /** The events of the requests that have arrived, in their order. */
  function ArrivedEvents(log: seq<P.Event>): seq<InsertParams> {
    if log == [] then []
    else
      var ev := log[|log| - 1];
      ArrivedEvents(log[..|log| - 1]) + if ev.Arrived? then [ev.e] else []
  }

  lemma {:induction false} ArrivedEventsIff(log: seq<P.Event>, e: InsertParams)
    ensures e in ArrivedEvents(log) <==> Custody.ArrivedIn(log, e)
  {
    if log == [] {
    } else {
      var init, last := log[..|log| - 1], log[|log| - 1];
      ArrivedEventsIff(init, e);
      assert log == init + [last];
      Custody.ArrivedGrows(init, last);
      if i :| 0 <= i < |log| && log[i] == P.Arrived(e) {
        assert i < |init| ==> init[i] == P.Arrived(e);
      }
    }
  }

  /** The requests that were accepted, in the order in which their events arrived. */
  ghost predicate AcceptedInOrder(cfg: W.Config, reqs: seq<W.Request>, log: seq<P.Event>) {
    && |reqs| == |ArrivedEvents(log)|
    && forall i :: 0 <= i < |reqs| ==> W.Decide(cfg, reqs[i]) == W.Accept(ArrivedEvents(log)[i])
  }

  function Bodies(reqs: seq<W.Request>): set<Bytes> {
    set i | 0 <= i < |reqs| && reqs[i].body.Some? :: reqs[i].body.value
  }

  lemma {:induction false} InjectiveImage(xs: set<Bytes>, f: Bytes -> Bytes)
    requires forall a, b :: a in xs && b in xs && f(a) == f(b) ==> a == b
    ensures |set x | x in xs :: f(x)| == |xs|
  {
    if xs == {} {
    } else {
      var x :| x in xs;
      var rest := xs - {x};
      InjectiveImage(rest, f);
      assert (set y | y in xs :: f(y)) == (set y | y in rest :: f(y)) + {f(x)};
      assert f(x) !in (set y | y in rest :: f(y));
    }
  }

  lemma HashesAreOfBodies(cfg: W.Config, reqs: seq<W.Request>, log: seq<P.Event>)
    requires AcceptedInOrder(cfg, reqs, log)
    ensures Confluence.ArrivedHashes(log) == set b | b in Bodies(reqs) :: cfg.sha256(b)
  {
    var hashes := set b | b in Bodies(reqs) :: cfg.sha256(b);
    forall hash | hash in Confluence.ArrivedHashes(log)
      ensures hash in hashes
    {
      var i :| 0 <= i < |log| && log[i].Arrived? && log[i].e.eventHash == hash;
      assert log[i] == P.Arrived(log[i].e);
      ArrivedEventsIff(log, log[i].e);
      var k :| 0 <= k < |reqs| && ArrivedEvents(log)[k] == log[i].e;
      assert reqs[k].body.value in Bodies(reqs);
    }
    forall b | b in Bodies(reqs)
      ensures cfg.sha256(b) in Confluence.ArrivedHashes(log)
    {
      var k :| 0 <= k < |reqs| && reqs[k].body == Some(b);
      var e := ArrivedEvents(log)[k];
      ArrivedEventsIff(log, e);
      var i :| 0 <= i < |log| && log[i] == P.Arrived(e);
      assert log[i].e.eventHash == cfg.sha256(b);
    }
  }

  lemma ArrivedCount(log: seq<P.Event>)
    ensures |ArrivedEvents(log)| == P.Count(log, P.ARRIVED)
  {
    if log == [] {
    } else {
      ArrivedCount(log[..|log| - 1]);
    }
  }

  lemma RequestHasRow(cfg: W.Config, reqs: seq<W.Request>, s: P.State, i: nat)
    requires P.Reachable(s) && Confluence.FaultFree(s.log) && i < |reqs|
    requires forall p :: p in s.procs ==> s.procs[p].WIdle?
    requires AcceptedInOrder(cfg, reqs, s.log) && W.TellsApart(cfg.sha256, iset b | b in Bodies(reqs))
    ensures exists r :: r in s.table && W.Decide(cfg, reqs[i]) == W.Accept(EventOf(r))
  {
    var e := ArrivedEvents(s.log)[i];
    var bodies := iset b | b in Bodies(reqs);
    forall j | 0 <= j < |s.log| && s.log[j].Arrived?
      ensures FromBody(cfg, bodies, s.log[j].e)
    {
      assert s.log[j] == P.Arrived(s.log[j].e);
      ArrivedEventsIff(s.log, s.log[j].e);
      var k :| 0 <= k < |reqs| && ArrivedEvents(s.log)[k] == s.log[j].e;
      assert reqs[k].body.value in Bodies(reqs);
    }
    BodiesDetermineEvents(cfg, bodies, s.log);
    ArrivedEventsIff(s.log, e);
    var actions :| P.Run(P.INIT, actions) == Some(s);
    Confluence.FaultFreeRun(actions);
    Confluence.NoneLeft(s);
    Confluence.FaultFreeLosesNothing(s.log, e.eventHash);
    Custody.DrainedHasPersistedAll(s, e);
  }

  /** Post any requests, any of them any number of times, let their handlers interleave as they will, and let
      no call fail. There is then one row for each distinct body, recording the event of every request with that
      body; as many requests as there are distinct bodies were answered 201, and all the others 200. */
  lemma OneRowForEachBody(cfg: W.Config, reqs: seq<W.Request>, s: P.State)
    requires P.Reachable(s) && Confluence.FaultFree(s.log)
    requires forall p :: p in s.procs ==> s.procs[p].WIdle?
    requires AcceptedInOrder(cfg, reqs, s.log) && W.TellsApart(cfg.sha256, iset b | b in Bodies(reqs))
    ensures |s.table| == |Bodies(reqs)|
    ensures P.Count(s.log, Confluence.REPLIED(201)) == |Bodies(reqs)|
    ensures P.Count(s.log, Confluence.REPLIED(200)) == |reqs| - |Bodies(reqs)|
    ensures P.Count(s.log, Confluence.REPLIED(500)) == 0
    ensures forall i :: 0 <= i < |reqs| ==>
      exists r :: r in s.table && W.Decide(cfg, reqs[i]) == W.Accept(EventOf(r))
  {
    Confluence.RedeliveryConfluence(s);
    HashesAreOfBodies(cfg, reqs, s.log);
    InjectiveImage(Bodies(reqs), cfg.sha256);
    forall i | 0 <= i < |reqs|
      ensures exists r :: r in s.table && W.Decide(cfg, reqs[i]) == W.Accept(EventOf(r))
    {
      RequestHasRow(cfg, reqs, s, i);
    }
    ArrivedCount(s.log);
  }

  // ---- From the queue to the protocol, and from the protocol to the connections ----

  /** What the queue's pop promises of the entry it returns is what the protocol asks of a pop, and what the
      overtaking bound asks of the order among equal scores. */
  lemma QueuePopsInOrder(s: P.State, p: P.Pid, entry: Entry, now: int, lt: (Entry, Entry) -> bool)
    requires p in s.procs && s.procs[p].WIdle?
    requires P.FirstReady(s.retry, entry, now) && Q.First(s.retry, lt, s.retry.Keys, entry)
    ensures var a := P.WorkerPop(p, entry, now, P.PopOk);
      P.Enabled(s, a) && O.TieBroken(s, a, lt)
  {
    forall x | x in s.retry && x != entry && s.retry[x] == s.retry[entry]
      ensures lt(entry, x)
    {
      assert x in s.retry.Keys;
      assert Q.Sooner(s.retry, lt, entry, x);
    }
  }

  /** Redis carries each post at most once and in order: broadcast m, if it is one of ours, is post
      `at[m]`. */
  ghost predicate Carried(broadcasts: seq<C.Broadcast>, posts: seq<Post>, at: seq<nat>) {
    && |at| == |broadcasts|
    && (forall m :: 0 <= m < |at| && broadcasts[m].Posted? ==> at[m] < |posts| && broadcasts[m].post == posts[at[m]])
    && forall m, n :: 0 <= m < n < |at| && broadcasts[m].Posted? && broadcasts[n].Posted? ==> at[m] < at[n]
  }

  /** Where in the history post `k` was published. */
  function PublishedAt(log: seq<P.Event>, k: nat): (i: nat)
    requires k < |Announced(log)|
    ensures i < |log| && P.Posts(log[i]) && Announced(log)[k] == PostOf(log[i].n)
  {
    var init := log[..|log| - 1];
    if k < |Announced(init)| then PublishedAt(init, k) else |init|
  }

  lemma {:induction false} PublishedInOrder(log: seq<P.Event>, k: nat, l: nat)
    requires k < l < |Announced(log)|
    ensures PublishedAt(log, k) < PublishedAt(log, l)
  {
    var init := log[..|log| - 1];
    if l < |Announced(init)| {
      PublishedInOrder(init, k, l);
    }
  }

  /** The post went to this citizen and tells, column by column, of this row of the citizen's. */
  ghost predicate Shows(t: Store.Table, citizen: Bytes, post: Post, r: Notification) {
    && r in t && post.channel == ChannelFor(citizen)
    && RowOf(post.message, citizen, r.eventHash, r.read, r.readAt) == r
  }

  /** No row is shown by both posts, nor are two rows of one event. */
  ghost predicate DifferentEvents(t: Store.Table, citizen: Bytes, post: Post, other: Post) {
    forall q, r :: Shows(t, citizen, post, q) && Shows(t, citizen, other, r) ==> q.eventHash != r.eventHash
  }

  /** The post of a recorded notification shows its row, and no other. */
  lemma PostShowsRow(t: Store.Table, n: Notification)
    requires Store.Valid(t) && Safety.Recorded(t, n)
    ensures exists r :: Shows(t, n.citizenRef, PostOf(n), r)
    ensures forall r, citizen :: Shows(t, citizen, PostOf(n), r) ==> r.eventHash == n.eventHash
  {
    var row :| row in t && OnlyReadMarkChanged(n, row);
    PostStaysTrue(n, row);
    MessageRoundTrip(row, PostOf(n).message);
    assert Shows(t, n.citizenRef, PostOf(n), row);
    forall r, citizen | Shows(t, citizen, PostOf(n), r)
      ensures r == row
    {
      assert r.id == PostOf(n).message.id == row.id;
    }
  }

  lemma PostsDiffer(s: P.State, k: nat, l: nat, citizen: Bytes)
    requires P.Reachable(s) && k < l < |Announced(s.log)|
    ensures DifferentEvents(s.table, citizen, Announced(s.log)[k], Announced(s.log)[l])
  {
    Safety.ReachableInv(s);
    Safety.AtMostOncePublish(s);
    PublishedInOrder(s.log, k, l);
    PostShowsRow(s.table, s.log[PublishedAt(s.log, k)].n);
    PostShowsRow(s.table, s.log[PublishedAt(s.log, l)].n);
  }

  /** Through redeliveries, retries, races and crashes, no connection ever writes two messages for one
      event; each is, to the letter, the message of a row of the connection's own citizen as that row is now. */
  lemma ConnectionsShowEventsOnce(s: P.State, c: C.State, at: seq<nat>)
    requires P.Reachable(s) && C.Reachable(c) && Carried(c.broadcasts, Announced(s.log), at)
    ensures forall i :: 0 <= i < |c.written| ==>
      c.written[i] < |c.broadcasts| && c.broadcasts[c.written[i]].Posted?
      && exists r :: Shows(s.table, c.citizen, c.broadcasts[c.written[i]].post, r)
    ensures forall i, j :: 0 <= i < j < |c.written| ==>
      DifferentEvents(s.table, c.citizen, c.broadcasts[c.written[i]].post, c.broadcasts[c.written[j]].post)
  {
    Safety.ReachableInv(s);
    C.DeliveryOrderAndIsolation(c);
    forall i | 0 <= i < |c.written|
      ensures c.written[i] < |c.broadcasts| && c.broadcasts[c.written[i]].Posted?
      ensures exists r :: Shows(s.table, c.citizen, c.broadcasts[c.written[i]].post, r)
    {
      assert c.written[i] in c.written;
      var n := s.log[PublishedAt(s.log, at[c.written[i]])].n;
      assert c.broadcasts[c.written[i]] == C.Posted(PostOf(n));
      PostShowsRow(s.table, n);
    }
    forall i, j | 0 <= i < j < |c.written|
      ensures DifferentEvents(s.table, c.citizen, c.broadcasts[c.written[i]].post, c.broadcasts[c.written[j]].post)
    {
      assert c.written[i] in c.written && c.written[j] in c.written;
      PostsDiffer(s, at[c.written[i]], at[c.written[j]], c.citizen);
    }
  }
}
