/** What the statements of the notification repository do to the table, one by one. */
module Store {
  import opened Domain

  /** The rows, in the order they were inserted. */
  type Table = seq<Notification>

  /** How a call to a service can go wrong: not at all, before it took effect, or after. */
  datatype Fault = NoFault | FailsBefore | FailsAfter

  datatype InsertResult = Created(row: Notification) | Duplicate | Failed

  predicate HasHash(t: Table, hash: Bytes) {
    exists r :: r in t && r.eventHash == hash
  }

  predicate HasId(t: Table, id: Uuid) {
    exists r :: r in t && r.id == id
  }

  /** The PRIMARY KEY and UNIQUE constraints of the schema. */
  ghost predicate Valid(t: Table) {
    forall i, j :: 0 <= i < j < |t| ==> t[i].eventHash != t[j].eventHash && t[i].id != t[j].id
  }

  /** A new row: the event's columns, and the defaults of the other four. */
  function RowFor(p: InsertParams, id: Uuid, at: int): (n: Notification)
    ensures EventOf(n) == p && n.id == id && n.receivedAt == at && !n.read && n.readAt == None
  {
    Notification(id, p.ticketID, p.kind, p.citizenRef, p.previousStatus, p.newStatus, p.title,
                 p.description, p.eventTimestamp, at, false, None, p.eventHash)
  }

  /** The insert statement: an event whose hash is taken is passed over without a row to return, and a taken
      id is an error. */
  function InsertStatement(t: Table, p: InsertParams, id: Uuid, at: int): (Table, InsertResult) {
    if HasHash(t, p.eventHash) then (t, Duplicate)
    else if HasId(t, id) then (t, Failed)
    else (t + [RowFor(p, id, at)], Created(RowFor(p, id, at)))
  }

  /** The statement as a caller sees it over a faulty connection. */
  function Insert(t: Table, p: InsertParams, id: Uuid, at: int, fault: Fault): (Table, InsertResult) {
    match fault
    case NoFault => InsertStatement(t, p, id, at)
    case FailsBefore => (t, Failed)
    case FailsAfter => (InsertStatement(t, p, id, at).0, Failed)
  }

  /** The mark-read statement: the row with this id, if it is the citizen's, gets its read mark and the
      instant of it. */
  function MarkRead(t: Table, id: Uuid, citizen: Bytes, at: int): (u: Table)
    ensures |u| == |t|
    ensures forall i :: 0 <= i < |t| ==> u[i] == Marked(t[i], id, citizen, at)
  {
    seq(|t|, i requires 0 <= i < |t| => Marked(t[i], id, citizen, at))
  }

  function Marked(n: Notification, id: Uuid, citizen: Bytes, at: int): Notification {
    if n.id == id && n.citizenRef == citizen then n.(read := true, readAt := Some(at)) else n
  }

  /** The rows of one citizen, in the order of the table. */
  function View(t: Table, citizen: Bytes): Table {
    if t == [] then []
    else
      var rest := View(t[..|t| - 1], citizen);
      if t[|t| - 1].citizenRef == citizen then rest + [t[|t| - 1]] else rest
  }

  function CountUnreadRows(t: Table): nat {
    if t == [] then 0
    else CountUnreadRows(t[..|t| - 1]) + if t[|t| - 1].read then 0 else 1
  }

  function CountAll(t: Table, citizen: Bytes): nat {
    |View(t, citizen)|
  }

  function CountUnread(t: Table, citizen: Bytes): nat {
    CountUnreadRows(View(t, citizen))
  }

  /** The row MarkRead returns, if there is one. */
  function Find(t: Table, id: Uuid, citizen: Bytes): Option<Notification> {
    FindRow(View(t, citizen), id)
  }

  function FindRow(t: Table, id: Uuid): Option<Notification> {
    if t == [] then None
    else if t[|t| - 1].id == id then Some(t[|t| - 1])
    else FindRow(t[..|t| - 1], id)
  }

  /** How a table can change over time: rows are added at the end, and read marks are set. */
  ghost predicate Grows(t: Table, u: Table) {
    && |t| <= |u|
    && forall i :: 0 <= i < |t| ==> OnlyReadMarkChanged(t[i], u[i])
  }

  /** An insert keeps the constraints and only ever appends, whatever happens to the connection. */
  lemma InsertKeepsRows(t: Table, p: InsertParams, id: Uuid, at: int, fault: Fault)
    requires Valid(t)
    ensures Valid(Insert(t, p, id, at, fault).0)
    ensures Grows(t, Insert(t, p, id, at, fault).0)
    ensures t <= Insert(t, p, id, at, fault).0
  {
    var u := Insert(t, p, id, at, fault).0;
    if u != t {
      assert forall i :: 0 <= i < |t| ==> t[i] in t;
    }
  }

  /** What the three results say about the table. */
  lemma InsertResults(t: Table, p: InsertParams, id: Uuid, at: int, fault: Fault)
    ensures var (u, r) := Insert(t, p, id, at, fault);
      && (r.Created? ==> !HasHash(t, p.eventHash) && EventOf(r.row) == p && u == t + [r.row])
      && (r.Duplicate? ==> HasHash(t, p.eventHash) && u == t)
      && (r.Failed? ==> u == t || (!HasHash(t, p.eventHash) && u == t + [RowFor(p, id, at)]))
      && (!r.Failed? ==> HasHash(u, p.eventHash))
  {
    var (u, r) := Insert(t, p, id, at, fault);
    if r.Created? {
      assert r.row in u;
    }
  }

  lemma MarkReadKeepsRows(t: Table, id: Uuid, citizen: Bytes, at: int)
    requires Valid(t)
    ensures Valid(MarkRead(t, id, citizen, at))
    ensures Grows(t, MarkRead(t, id, citizen, at))
  {
  }

  lemma {:induction false} FindRowFinds(t: Table, id: Uuid)
    ensures FindRow(t, id).Some? <==> HasId(t, id)
    ensures FindRow(t, id).Some? ==> FindRow(t, id).value in t && FindRow(t, id).value.id == id
  {
    if t == [] {
    } else {
      var init := t[..|t| - 1];
      FindRowFinds(init, id);
      assert t == init + [t[|t| - 1]];
    }
  }

  /** Marking finds the citizen's row with that id if there is one; the row it returns is that row, read
      as of now and otherwise unchanged, and every other row is left alone. */
  lemma MarkReadIff(t: Table, id: Uuid, citizen: Bytes, at: int)
    requires Valid(t)
    ensures var u := MarkRead(t, id, citizen, at);
      && (Find(u, id, citizen).Some? <==> Find(t, id, citizen).Some?)
      && (Find(t, id, citizen).Some? ==>
            Find(u, id, citizen).value == Find(t, id, citizen).value.(read := true, readAt := Some(at)))
      && (forall k :: 0 <= k < |t| && (Find(t, id, citizen).None? || t[k].id != id) ==> u[k] == t[k])
  {
    var u := MarkRead(t, id, citizen, at);
    var v, w := View(t, citizen), View(u, citizen);
    ViewOfMarkRead(t, id, citizen, at, citizen);
    FindRowFinds(v, id);
    FindRowFinds(w, id);
    forall r
      ensures r in v <==> r in t && r.citizenRef == citizen
      ensures r in w <==> r in u && r.citizenRef == citizen
    {
      ViewMembers(t, citizen, r);
      ViewMembers(u, citizen, r);
    }
    MarkReadKeepsRows(t, id, citizen, at);
    if Find(t, id, citizen).Some? {
      var k :| 0 <= k < |t| && t[k] == Find(t, id, citizen).value;
      assert u[k] in u && u[k] in w;
    }
  }

  function RowHashes(t: Table): set<Bytes> {
    set r | r in t :: r.eventHash
  }

  /** No two rows share a hash. */
  lemma {:induction false} DistinctRows(t: Table)
    requires Valid(t)
    ensures |RowHashes(t)| == |t|
  {
    if t == [] {
    } else {
      var init, last := t[..|t| - 1], t[|t| - 1];
      DistinctRows(init);
      assert t == init + [last];
      assert RowHashes(t) == RowHashes(init) + {last.eventHash};
      assert last.eventHash !in RowHashes(init);
    }
  }

  lemma GrowsKeepsHash(t: Table, u: Table, hash: Bytes)
    requires Grows(t, u) && HasHash(t, hash)
    ensures HasHash(u, hash)
  {
    var i :| 0 <= i < |t| && t[i].eventHash == hash;
    assert u[i] in u;
  }

  lemma GrowsTransitive(t: Table, u: Table, v: Table)
    requires Grows(t, u) && Grows(u, v)
    ensures Grows(t, v)
  {
  }

  lemma ViewOfAppend(t: Table, n: Notification, citizen: Bytes)
    ensures View(t + [n], citizen) == if n.citizenRef == citizen then View(t, citizen) + [n] else View(t, citizen)
  {
    assert (t + [n])[..|t|] == t;
  }

  /** A citizen's view holds exactly that citizen's rows. */
  lemma {:induction false} ViewMembers(t: Table, citizen: Bytes, n: Notification)
    ensures n in View(t, citizen) <==> n in t && n.citizenRef == citizen
  {
    if t == [] {
    } else {
      var init := t[..|t| - 1];
      assert t == init + [t[|t| - 1]];
      ViewMembers(init, citizen, n);
    }
  }

  lemma {:induction false} ViewValid(t: Table, citizen: Bytes)
    requires Valid(t)
    ensures Valid(View(t, citizen))
  {
    if t == [] {
    } else {
      var init, last := t[..|t| - 1], t[|t| - 1];
      ViewValid(init, citizen);
      forall n | n in View(init, citizen)
        ensures n.id != last.id && n.eventHash != last.eventHash
      {
        ViewMembers(init, citizen, n);
      }
    }
  }

  /** Marking a row shows in its owner's view and in nobody else's. */
  lemma {:induction false} ViewOfMarkRead(t: Table, id: Uuid, owner: Bytes, at: int, citizen: Bytes)
    ensures View(MarkRead(t, id, owner, at), citizen)
         == if citizen == owner then MarkRead(View(t, citizen), id, owner, at) else View(t, citizen)
  {
    if t == [] {
    } else {
      var init := t[..|t| - 1];
      ViewOfMarkRead(init, id, owner, at, citizen);
      assert MarkRead(t, id, owner, at)[..|t| - 1] == MarkRead(init, id, owner, at);
    }
  }

  /** As the table grows, so does every citizen's view of it; no row changes hands. */
  lemma {:induction false} ViewGrows(t: Table, u: Table, citizen: Bytes)
    requires Grows(t, u)
    ensures |View(t, citizen)| <= |View(u, citizen)|
    decreases |u|
  {
    if u == [] {
    } else {
      if |t| == |u| {
        ViewGrows(t[..|t| - 1], u[..|u| - 1], citizen);
      } else {
        ViewGrows(t, u[..|u| - 1], citizen);
      }
    }
  }
}
