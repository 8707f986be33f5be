/** The notification repository over a circuit-breaking connection to the database. */
module Repository {
  import opened Domain
  import Store
  import opened Paging
  import opened Service

  datatype Statement =
    | InsertRow(p: InsertParams, id: Uuid, at: int)
    | UpdateRead(id: Uuid, citizen: Bytes, at: int)
    | SelectCount(citizen: Bytes)
    | SelectUnreadCount(citizen: Bytes)

  /** What scanning the one row of a statement gives. */
  datatype RowResult = OneRow(n: Notification) | OneCount(count: nat) | NoRows | RowError

  /** The pgx.Row a querier hands out: an error row, or one whose statement has been issued. */
  datatype Row = ErrRow | CbRow(inner: RowResult)

  /** How the environment treats one QueryRow and its Scan: whether the breaker is open when QueryRow
      looks, what happens on the wire, and whether the breaker refuses to run the scan. */
  datatype CallIO = CallIO(open: bool, wire: Store.Fault, refused: bool)

  function Execute(t: Store.Table, q: Statement): (Store.Table, RowResult) {
    match q
    case InsertRow(p, id, at) =>
      var (u, r) := Store.InsertStatement(t, p, id, at);
      (u, match r case Created(n) => OneRow(n) case Duplicate => NoRows case Failed => RowError)
    case UpdateRead(id, c, at) =>
      var u := Store.MarkRead(t, id, c, at);
      (u, FoundOrNot(Store.Find(u, id, c)))
    case SelectCount(c) => (t, OneCount(Store.CountAll(t, c)))
    case SelectUnreadCount(c) => (t, OneCount(Store.CountUnread(t, c)))
  }

  function FoundOrNot(r: Option<Notification>): RowResult {
    match r
    case Some(n) => OneRow(n)
    case None => NoRows
  }

  /** What a QueryRow-then-Scan amounts to: the statement is already executed when the breaker refuses
      the scan. */
  function FaultOf(io: CallIO): Store.Fault {
    if io.open then Store.FailsBefore
    else if io.wire != Store.NoFault then io.wire
    else if io.refused then Store.FailsAfter
    else Store.NoFault
  }

  /** The database behind its circuit breaker. */
  class CbQuerier {
    var table: Store.Table
    /** What the breaker has been told of each scan it ran: true for a success. */
    var reported: seq<bool>

    constructor ()
      ensures table == [] && reported == []
    {
      table, reported := [], [];
    }

    /** Look at the breaker, then issue the statement: it runs here, before any Scan. */
    method QueryRow(q: Statement, io: CallIO) returns (row: Row)
      modifies this`table
      ensures row == ErrRow <==> io.open
      ensures row.CbRow? ==>
        row.inner == if io.wire == Store.NoFault then Execute(old(table), q).1 else RowError
      ensures table == if io.open || io.wire == Store.FailsBefore then old(table) else Execute(old(table), q).0
    {
      if io.open {
        return ErrRow;
      }
      if io.wire == Store.FailsBefore {
        return CbRow(RowError);
      }
      var (after, result) := Execute(table, q);
      table := after;
      row := CbRow(if io.wire == Store.FailsAfter then RowError else result);
    }

    /** Scan inside the breaker: it may refuse to run it; if it runs, having no rows is a success. */
    method Scan(row: Row, refused: bool) returns (result: RowResult)
      modifies this`reported
      ensures result == if row.ErrRow? || refused then RowError else row.inner
      ensures reported == old(reported) + if row.ErrRow? || refused then [] else [row.inner != RowError]
    {
      if row.ErrRow? || refused {
        return RowError;
      }
      reported := reported + [row.inner != RowError];
      result := row.inner;
    }
  }

  datatype ListResult = Listed(items: Store.Table, total: nat) | ListError

  /** What can go wrong with the two queries of List: the first refused or failing, its rows breaking
      off after some number of them, the count failing. */
  datatype ListIO = ListIO(queryFails: bool, breaksAfter: Option<nat>, count: CallIO)

  datatype CountResult = Counted(n: nat) | CountError

  datatype RowLookup = Found(n: Notification) | NotFound | LookupError

  // What the handlers answer to the results of the repository.

  function InsertReply(r: Store.InsertResult): Reply {
    match r
    case Created(_) => Status(201)
    case Duplicate => Status(200)
    case Failed => Status(500)
  }

  function LookupReply(r: RowLookup): Reply {
    match r
    case Found(n) => ARow(Some(n))
    case NotFound => ARow(None)
    case LookupError => Status(500)
  }

  function CountReply(r: CountResult): Reply {
    match r
    case Counted(n) => ANumber(n)
    case CountError => Status(500)
  }

  class NotificationRepo {
    const db: CbQuerier

    constructor (db: CbQuerier)
      ensures this.db == db
    {
      this.db := db;
    }

    /** Created, duplicate or failed: exactly what the faulty statement does; and a duplicate never
        counts against the breaker. */
    method Insert(p: InsertParams, id: Uuid, at: int, io: CallIO) returns (r: Store.InsertResult)
      modifies db
      ensures (db.table, r) == Store.Insert(old(db.table), p, id, at, FaultOf(io))
      ensures InsertReply(r) == Answer(old(db.table), Ingest(p, id, at, FaultOf(io)))
      ensures db.table == Effect(old(db.table), Ingest(p, id, at, FaultOf(io)))
      ensures db.reported == old(db.reported)
                             + if io.open || io.refused then [] else [!r.Failed?]
    {
      var row := db.QueryRow(InsertRow(p, id, at), io);
      var result := db.Scan(row, io.refused);
      match result
      case OneRow(n) => return Store.Created(n);
      case NoRows => return Store.Duplicate;
      case _ => return Store.Failed;
    }

    method MarkRead(id: Uuid, citizen: Bytes, at: int, io: CallIO) returns (r: RowLookup)
      modifies db
      ensures db.table == if FaultOf(io) == Store.FailsBefore then old(db.table)
                          else Store.MarkRead(old(db.table), id, citizen, at)
      ensures LookupReply(r) == Answer(old(db.table), MarkOneRead(citizen, id, at, FaultOf(io)))
      ensures db.table == Effect(old(db.table), MarkOneRead(citizen, id, at, FaultOf(io)))
      ensures r == if FaultOf(io) != Store.NoFault then LookupError
                   else match Store.Find(db.table, id, citizen) case Some(n) => Found(n) case None => NotFound
    {
      var row := db.QueryRow(UpdateRead(id, citizen, at), io);
      var result := db.Scan(row, io.refused);
      match result
      case OneRow(n) => return Found(n);
      case NoRows => return NotFound;
      case _ => return LookupError;
    }

    method CountAll(citizen: Bytes, io: CallIO) returns (r: CountResult)
      modifies db
      ensures db.table == old(db.table)
      ensures r == if FaultOf(io) != Store.NoFault then CountError
                   else Counted(Store.CountAll(old(db.table), citizen))
      ensures CountReply(r) == Answer(old(db.table), CountQuery(citizen, FaultOf(io)))
    {
      var row := db.QueryRow(SelectCount(citizen), io);
      var result := db.Scan(row, io.refused);
      if result.OneCount? {
        return Counted(result.count);
      }
      return CountError;
    }

    method CountUnread(citizen: Bytes, io: CallIO) returns (r: CountResult)
      modifies db
      ensures db.table == old(db.table)
      ensures r == if FaultOf(io) != Store.NoFault then CountError
                   else Counted(Store.CountUnread(old(db.table), citizen))
      ensures CountReply(r) == Answer(old(db.table), UnreadCount(citizen, FaultOf(io)))
    {
      var row := db.QueryRow(SelectUnreadCount(citizen), io);
      var result := db.Scan(row, io.refused);
      if result.OneCount? {
        return Counted(result.count);
      }
      return CountError;
    }

    /** Two queries, with whatever other requests do to the table (`between`) in the meantime. A listing
        that is returned is the page of the first moment and the total of the second, and a page that is
        not empty fits under that total; everything short of two complete answers is an error. */
    method List(citizen: Bytes, limit: nat, offset: nat, io: ListIO, between: seq<Op>) returns (r: ListResult)
      requires Store.Valid(db.table)
      modifies db
      ensures r.Listed? ==>
        && r.items == Page(old(db.table), citizen, limit, offset)
        && db.table == After(old(db.table), between)
        && r.total == Store.CountAll(db.table, citizen)
        && Rows(r.items) == Answer(old(db.table), PageQuery(citizen, limit, offset, Store.NoFault))
        && ANumber(r.total) == Answer(db.table, CountQuery(citizen, Store.NoFault))
        && (r.items != [] ==> offset + |r.items| <= r.total)
      ensures r.ListError? <==>
        || io.queryFails
        || (io.breaksAfter.Some? && io.breaksAfter.value <= |Page(old(db.table), citizen, limit, offset)|)
        || FaultOf(io.count) != Store.NoFault
      ensures Store.Valid(db.table) && Store.Grows(old(db.table), db.table)
    {
      if io.queryFails {
        return ListError;
      }
      var rows := Page(db.table, citizen, limit, offset);
      var items: Store.Table := [];
      var next := 0;
      while next < |rows| && io.breaksAfter != Some(next)
        invariant 0 <= next <= |rows| && items == rows[..next]
        invariant db.table == old(db.table)
        invariant io.breaksAfter.Some? ==> next <= io.breaksAfter.value
      {
        items := items + [rows[next]];
        next := next + 1;
      }
      if io.breaksAfter == Some(next) {
        return ListError;
      }
      AfterGrows(db.table, between);
      TwoQueriesAgree(db.table, After(db.table, between), citizen, limit, offset);
      db.table := After(db.table, between);
      var total := CountAll(citizen, io.count);
      if total.CountError? {
        return ListError;
      }
      r := Listed(items, total.n);
    }
  }

  /** Exactly when an insert stores its row and yet fails: the hash and the id are free, the breaker lets
      the statement through, and then the answer is lost on the wire or the breaker refuses the scan. */
  lemma FailedYetStoredIff(t: Store.Table, p: InsertParams, id: Uuid, at: int, io: CallIO)
    ensures var (u, r) := Store.Insert(t, p, id, at, FaultOf(io));
      r.Failed? && Store.HasHash(u, p.eventHash) && !Store.HasHash(t, p.eventHash)
      <==> !Store.HasHash(t, p.eventHash) && !Store.HasId(t, id)
           && !io.open && (io.wire == Store.FailsAfter || (io.wire == Store.NoFault && io.refused))
  {
    assert Store.RowFor(p, id, at) in t + [Store.RowFor(p, id, at)];
  }

  /** A retry of such an insert, and every insert of that hash ever after, is at best a duplicate: no caller
      is told of a new row again, whatever has been inserted and marked in between. */
  lemma NoSecondCreation(
    t: Store.Table, later: Store.Table, p: InsertParams, id: Uuid, at: int, io: CallIO)
    requires Store.HasHash(t, p.eventHash) && Store.Grows(t, later)
    ensures Store.Insert(later, p, id, at, FaultOf(io)) == (later, if FaultOf(io) == Store.NoFault
                                                                   then Store.Duplicate else Store.Failed)
  {
    Store.GrowsKeepsHash(t, later, p.eventHash);
  }
}
