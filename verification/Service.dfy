/** The requests the service answers from the table, one after the other, and their replies. */
module Service {
  import opened Domain
  import opened Store
  import opened Paging

  /** One statement each, with the fault that strikes it: a listing is a page query and, after whatever comes in
      between, a count query. */
  datatype Op =
    | Ingest(e: InsertParams, id: Uuid, at: int, fault: Fault)       // an accepted webhook, or its retry
    | MarkOneRead(citizen: Bytes, id: Uuid, at: int, fault: Fault)   // PATCH /notifications/:id/read
    | PageQuery(citizen: Bytes, limit: nat, offset: nat, fault: Fault)
    | CountQuery(citizen: Bytes, fault: Fault)
    | UnreadCount(citizen: Bytes, fault: Fault)                      // GET /notifications/unread-count

  datatype Reply =
    | Status(code: int)
    | ARow(row: Option<Notification>)
    | Rows(items: Table)
    | ANumber(n: nat)

  /** Whose request it is: the citizen the event is about, or who is logged in. */
  function Owner(op: Op): Bytes {
    if op.Ingest? then op.e.citizenRef else op.citizen
  }

  function Effect(t: Table, op: Op): Table {
    match op
    case Ingest(e, id, at, fault) => Insert(t, e, id, at, fault).0
    case MarkOneRead(c, id, at, fault) => if fault == FailsBefore then t else MarkRead(t, id, c, at)
    case _ => t
  }

  function Answer(t: Table, op: Op): Reply {
    if op.fault != NoFault then Status(500)
    else
      match op
      case Ingest(e, id, at, _) =>
        Status(match InsertStatement(t, e, id, at).1 case Created(_) => 201 case Duplicate => 200 case Failed => 500)
      case MarkOneRead(c, id, at, _) => ARow(Find(MarkRead(t, id, c, at), id, c))
      case PageQuery(c, limit, offset, _) => Rows(Page(t, c, limit, offset))
      case CountQuery(c, _) => ANumber(CountAll(t, c))
      case UnreadCount(c, _) => ANumber(CountUnread(t, c))
  }

  function After(t: Table, ops: seq<Op>): Table {
    if ops == [] then t
    else Effect(After(t, ops[..|ops| - 1]), ops[|ops| - 1])
  }

  /** The replies that citizen's own requests get in a run of everybody's requests. */
  function RepliesTo(ops: seq<Op>, citizen: Bytes): seq<Reply> {
    if ops == [] then []
    else
      var init, op := ops[..|ops| - 1], ops[|ops| - 1];
      RepliesTo(init, citizen) + if Owner(op) == citizen then [Answer(After([], init), op)] else []
  }

  /** The same run with everybody else's requests left out. */
  function OnlyOf(ops: seq<Op>, citizen: Bytes): seq<Op> {
    if ops == [] then []
    else
      var init, op := ops[..|ops| - 1], ops[|ops| - 1];
      OnlyOf(init, citizen) + if Owner(op) == citizen then [op] else []
  }

  lemma EffectGrows(t: Table, op: Op)
    requires Valid(t)
    ensures Valid(Effect(t, op)) && Grows(t, Effect(t, op))
  {
    match op {
      case Ingest(e, id, at, fault) => InsertKeepsRows(t, e, id, at, fault);
      case MarkOneRead(c, id, at, _) => MarkReadKeepsRows(t, id, c, at);
      case _ =>
    }
  }

  lemma {:induction false} AfterGrows(t: Table, ops: seq<Op>)
    requires Valid(t)
    ensures Valid(After(t, ops)) && Grows(t, After(t, ops))
  {
    if ops == [] {
    } else {
      var init, op := ops[..|ops| - 1], ops[|ops| - 1];
      AfterGrows(t, init);
      EffectGrows(After(t, init), op);
      GrowsTransitive(t, After(t, init), After(t, ops));
    }
  }

  // ---- Which hashes are stored ----

  /** An insert that gets as far as the table. */
  predicate Lands(op: Op) {
    op.Ingest? && op.fault != FailsBefore
  }

  predicate LandsWith(op: Op, hash: Bytes) {
    Lands(op) && op.e.eventHash == hash
  }

  /** Each insert draws an id of its own. */
  ghost predicate FreshIds(ops: seq<Op>) {
    forall i, j :: 0 <= i < j < |ops| && ops[i].Ingest? && ops[j].Ingest? ==> ops[i].id != ops[j].id
  }

  ghost predicate CameFrom(op: Op, r: Notification) {
    Lands(op) && op.id == r.id && op.e.eventHash == r.eventHash && op.e.citizenRef == r.citizenRef
  }

  /** Every row was stored by an insert that found its hash absent. */
  lemma {:induction false} RowsComeFromOps(ops: seq<Op>, r: Notification) returns (i: nat)
    requires r in After([], ops)
    ensures i < |ops| && CameFrom(ops[i], r) && !HasHash(After([], ops[..i]), r.eventHash)
  {
    var init, op := ops[..|ops| - 1], ops[|ops| - 1];
    var t := After([], init);
    var k :| 0 <= k < |After([], ops)| && After([], ops)[k] == r;
    if k < |t| {
      i := RowsComeFromOps(init, t[k]);
      assert init[..i] == ops[..i];
    } else {
      i := |init|;
    }
  }

  /** No insert finds its id taken. */
  lemma IdIsFree(ops: seq<Op>)
    requires ops != [] && FreshIds(ops) && ops[|ops| - 1].Ingest?
    ensures !HasId(After([], ops[..|ops| - 1]), ops[|ops| - 1].id)
  {
    var init := ops[..|ops| - 1];
    forall r | r in After([], init)
      ensures r.id != ops[|ops| - 1].id
    {
      var i := RowsComeFromOps(init, r);
      assert ops[i] == init[i];
    }
  }

  /** Once an insert has got as far as the table, its hash is there. */
  lemma {:induction false} LandedIsStored(ops: seq<Op>, i: nat, hash: Bytes)
    requires FreshIds(ops) && i < |ops| && LandsWith(ops[i], hash)
    ensures HasHash(After([], ops), hash)
  {
    var init, op := ops[..|ops| - 1], ops[|ops| - 1];
    var t := After([], init);
    if i < |init| {
      LandedIsStored(init, i, hash);
      AfterGrows([], init);
      EffectGrows(t, op);
      GrowsKeepsHash(t, After([], ops), hash);
    } else if !HasHash(t, hash) {
      IdIsFree(ops);
      assert RowFor(op.e, op.id, op.at) in After([], ops);
    }
  }

  // ---- Non-interference ----

  /** The insert at `i` takes a hash that the citizen's at `j` needs: it is somebody else's, and none of the
      citizen's own landed with that hash before it. */
  ghost predicate Usurps(ops: seq<Op>, citizen: Bytes, i: int, j: int) {
    && 0 <= i < j < |ops| && Lands(ops[j]) && Owner(ops[j]) == citizen
    && LandsWith(ops[i], ops[j].e.eventHash) && Owner(ops[i]) != citizen
    && forall k :: 0 <= k < i && LandsWith(ops[k], ops[j].e.eventHash) ==> Owner(ops[k]) != citizen
  }

  /** For each hash the citizen inserts, nobody else inserts it before the citizen does. */
  ghost predicate OwnFirst(ops: seq<Op>, citizen: Bytes) {
    forall i, j :: !Usurps(ops, citizen, i, j)
  }

  /** Events with one hash are about one citizen. */
  ghost predicate HashNamesOwner(ops: seq<Op>) {
    forall i, j :: 0 <= i < |ops| && 0 <= j < |ops| && SameHash(ops[i], ops[j]) ==> Owner(ops[i]) == Owner(ops[j])
  }

  predicate SameHash(a: Op, b: Op) {
    a.Ingest? && b.Ingest? && a.e.eventHash == b.e.eventHash
  }

  lemma NamedHashesAreOwnFirst(ops: seq<Op>, citizen: Bytes)
    requires HashNamesOwner(ops)
    ensures OwnFirst(ops, citizen)
  {
    forall i, j
      ensures !Usurps(ops, citizen, i, j)
    {
      assert Usurps(ops, citizen, i, j) ==> SameHash(ops[i], ops[j]);
    }
  }

  lemma OwnFirstBefore(ops: seq<Op>, citizen: Bytes)
    requires ops != [] && OwnFirst(ops, citizen)
    ensures OwnFirst(ops[..|ops| - 1], citizen)
  {
    var init := ops[..|ops| - 1];
    forall i, j | Usurps(init, citizen, i, j)
      ensures Usurps(ops, citizen, i, j)
    {
    }
  }

  lemma {:induction false} ViewOfView(t: Table, citizen: Bytes)
    ensures View(View(t, citizen), citizen) == View(t, citizen)
  {
    if t == [] {
    } else {
      var init := t[..|t| - 1];
      ViewOfView(init, citizen);
      ViewOfAppend(View(init, citizen), t[|t| - 1], citizen);
    }
  }

  lemma NothingLandedBefore(ops: seq<Op>, i: nat, hash: Bytes)
    requires FreshIds(ops) && i < |ops| && !HasHash(After([], ops[..i]), hash)
    ensures forall k :: 0 <= k < i ==> !LandsWith(ops[k], hash)
  {
    forall k | 0 <= k < i && LandsWith(ops[k], hash)
      ensures false
    {
      LandedIsStored(ops[..i], k, hash);
    }
  }

  /** A citizen's insert finds the hash taken only if a row of that citizen has it. */
  lemma OwnRowsDecide(ops: seq<Op>, citizen: Bytes)
    requires ops != [] && OwnFirst(ops, citizen) && FreshIds(ops)
    requires Lands(ops[|ops| - 1]) && Owner(ops[|ops| - 1]) == citizen
    ensures var t, op := After([], ops[..|ops| - 1]), ops[|ops| - 1];
      && (HasHash(t, op.e.eventHash) <==> HasHash(View(t, citizen), op.e.eventHash))
      && !HasId(t, op.id) && !HasId(View(t, citizen), op.id)
  {
    var init, op := ops[..|ops| - 1], ops[|ops| - 1];
    var t := After([], init);
    IdIsFree(ops);
    forall r | r in t && r.eventHash == op.e.eventHash
      ensures r in View(t, citizen)
    {
      var i := RowsComeFromOps(init, r);
      if r.citizenRef != citizen {
        NothingLandedBefore(init, i, op.e.eventHash);
        assert ops[i] == init[i];
        assert Usurps(ops, citizen, i, |init|);
        assert false;
      }
      ViewMembers(t, citizen, r);
    }
    forall r | r in View(t, citizen)
      ensures r in t
    {
      ViewMembers(t, citizen, r);
    }
  }

  lemma OwnStep(ops: seq<Op>, citizen: Bytes)
    requires ops != [] && OwnFirst(ops, citizen) && FreshIds(ops) && Owner(ops[|ops| - 1]) == citizen
    ensures var t, op := After([], ops[..|ops| - 1]), ops[|ops| - 1];
      && Effect(View(t, citizen), op) == View(Effect(t, op), citizen)
      && Answer(View(t, citizen), op) == Answer(t, op)
  {
    var t, op := After([], ops[..|ops| - 1]), ops[|ops| - 1];
    ViewOfView(t, citizen);
    match op {
      case Ingest(e, id, at, fault) =>
        if Lands(op) {
          OwnRowsDecide(ops, citizen);
          ViewOfAppend(t, RowFor(e, id, at), citizen);
        }
      case MarkOneRead(c, id, at, _) =>
        ViewOfMarkRead(t, id, c, at, citizen);
        ViewOfView(MarkRead(t, id, c, at), citizen);
      case _ =>
    }
  }

  lemma ForeignStep(t: Table, op: Op, citizen: Bytes)
    requires Owner(op) != citizen
    ensures View(Effect(t, op), citizen) == View(t, citizen)
  {
    match op {
      case Ingest(e, id, at, _) => ViewOfAppend(t, RowFor(e, id, at), citizen);
      case MarkOneRead(c, id, at, _) => ViewOfMarkRead(t, id, c, at, citizen);
      case _ =>
    }
  }

  /** Leaving out every other citizen's webhooks and requests changes none of the replies a citizen
      gets; the rows of the citizen are then the whole table. */
  lemma {:induction false} NonInterference(ops: seq<Op>, citizen: Bytes)
    requires OwnFirst(ops, citizen) && FreshIds(ops)
    ensures After([], OnlyOf(ops, citizen)) == View(After([], ops), citizen)
    ensures RepliesTo(OnlyOf(ops, citizen), citizen) == RepliesTo(ops, citizen)
  {
    if ops == [] {
    } else {
      var init, op := ops[..|ops| - 1], ops[|ops| - 1];
      OwnFirstBefore(ops, citizen);
      NonInterference(init, citizen);
      if Owner(op) == citizen {
        OwnStep(ops, citizen);
        assert OnlyOf(ops, citizen)[..|OnlyOf(init, citizen)|] == OnlyOf(init, citizen);
      } else {
        ForeignStep(After([], init), op, citizen);
        assert OnlyOf(ops, citizen) == OnlyOf(init, citizen);
      }
    }
  }

  /** The hashes of a citizen's own inserts that got as far as the table. */
  function OwnHashes(ops: seq<Op>, citizen: Bytes): set<Bytes> {
    if ops == [] then {}
    else
      var init, op := ops[..|ops| - 1], ops[|ops| - 1];
      OwnHashes(init, citizen) + if Lands(op) && Owner(op) == citizen then {op.e.eventHash} else {}
  }

  lemma {:induction false} OwnHashesIff(ops: seq<Op>, citizen: Bytes, hash: Bytes)
    ensures hash in OwnHashes(ops, citizen)
       <==> exists k :: 0 <= k < |ops| && LandsWith(ops[k], hash) && Owner(ops[k]) == citizen
  {
    if ops == [] {
    } else {
      var init, op := ops[..|ops| - 1], ops[|ops| - 1];
      OwnHashesIff(init, citizen, hash);
      if k :| 0 <= k < |init| && LandsWith(init[k], hash) && Owner(init[k]) == citizen {
        assert ops[k] == init[k];
      } else if LandsWith(op, hash) && Owner(op) == citizen {
        assert ops[|init|] == op;
      }
      forall k | 0 <= k < |ops| && LandsWith(ops[k], hash) && Owner(ops[k]) == citizen
        ensures hash in OwnHashes(ops, citizen)
      {
        assert k < |init| ==> init[k] == ops[k];
      }
    }
  }

  lemma {:induction false} OnlyOfMembers(ops: seq<Op>, citizen: Bytes, op: Op)
    requires op in OnlyOf(ops, citizen)
    ensures exists i :: 0 <= i < |ops| && ops[i] == op
  {
    var init := ops[..|ops| - 1];
    if op in OnlyOf(init, citizen) {
      OnlyOfMembers(init, citizen, op);
      var i :| 0 <= i < |init| && init[i] == op;
      assert ops[i] == op;
    } else {
      assert ops[|init|] == op;
    }
  }

  /** Left alone, a citizen has a row for each hash of the citizen's own. */
  lemma {:induction false} AloneStoresOwn(ops: seq<Op>, citizen: Bytes)
    requires FreshIds(ops)
    ensures FreshIds(OnlyOf(ops, citizen))
    ensures RowHashes(After([], OnlyOf(ops, citizen))) == OwnHashes(ops, citizen)
  {
    if ops == [] {
    } else {
      var init, op := ops[..|ops| - 1], ops[|ops| - 1];
      var before, own := OnlyOf(init, citizen), OnlyOf(ops, citizen);
      AloneStoresOwn(init, citizen);
      forall i | 0 <= i < |before| && before[i].Ingest? && op.Ingest?
        ensures before[i].id != op.id
      {
        OnlyOfMembers(init, citizen, before[i]);
        var k :| 0 <= k < |init| && init[k] == before[i];
        assert ops[k] == init[k];
      }
      if Owner(op) == citizen {
        assert own[..|before|] == before;
        if Lands(op) {
          IdIsFree(own);
        }
        HashesAfter(After([], before), op);
      } else {
        assert own == before;
      }
    }
  }

  lemma HashesAfter(t: Table, op: Op)
    requires Lands(op) ==> !HasId(t, op.id)
    ensures RowHashes(Effect(t, op)) == RowHashes(t) + if Lands(op) then {op.e.eventHash} else {}
  {
    var u := Effect(t, op);
    if op.MarkOneRead? {
      forall r | r in t
        ensures r.eventHash in RowHashes(u)
      {
        var i :| 0 <= i < |t| && t[i] == r;
        assert u[i] in u;
      }
    } else if u != t {
      assert forall r :: r in u <==> r in t || r == RowFor(op.e, op.id, op.at);
    }
  }

  /** A hash that was taken is missing among the citizen's rows. */
  lemma TakenHashIsMissing(ops: seq<Op>, citizen: Bytes, i: int, j: int)
    requires FreshIds(ops) && Usurps(ops, citizen, i, j)
    ensures ops[j].e.eventHash !in RowHashes(View(After([], ops), citizen))
  {
    var hash := ops[j].e.eventHash;
    forall r | r in View(After([], ops), citizen)
      ensures r.eventHash != hash
    {
      ViewMembers(After([], ops), citizen, r);
      var k := RowsComeFromOps(ops, r);
      if r.eventHash == hash && i < k {
        NothingLandedBefore(ops, k, hash);
        assert false;
      }
    }
  }

  lemma ViewHashesAreOwn(ops: seq<Op>, citizen: Bytes)
    ensures RowHashes(View(After([], ops), citizen)) <= OwnHashes(ops, citizen)
  {
    forall r | r in View(After([], ops), citizen)
      ensures r.eventHash in OwnHashes(ops, citizen)
    {
      ViewMembers(After([], ops), citizen, r);
      var k := RowsComeFromOps(ops, r);
      OwnHashesIff(ops, citizen, r.eventHash);
      assert LandsWith(ops[k], r.eventHash) && Owner(ops[k]) == citizen;
    }
  }

  /** Where a hash was taken, the citizen has fewer rows than alone. */
  lemma UsurpedHasFewer(ops: seq<Op>, citizen: Bytes, i: int, j: int)
    requires FreshIds(ops) && Usurps(ops, citizen, i, j)
    ensures CountAll(After([], ops), citizen) < |After([], OnlyOf(ops, citizen))|
  {
    var rows, hash := View(After([], ops), citizen), ops[j].e.eventHash;
    TakenHashIsMissing(ops, citizen, i, j);
    ViewHashesAreOwn(ops, citizen);
    OwnHashesIff(ops, citizen, hash);
    assert hash in OwnHashes(ops, citizen);
    Shrinks(RowHashes(rows), OwnHashes(ops, citizen) - {hash});
    AfterGrows([], ops);
    ViewValid(After([], ops), citizen);
    DistinctRows(rows);
    AloneStoresOwn(ops, citizen);
    AfterGrows([], OnlyOf(ops, citizen));
    DistinctRows(After([], OnlyOf(ops, citizen)));
  }

  lemma {:induction false} OnlyOwnRows(ops: seq<Op>, citizen: Bytes)
    ensures View(After([], OnlyOf(ops, citizen)), citizen) == After([], OnlyOf(ops, citizen))
  {
    if ops == [] {
    } else {
      var init, op := ops[..|ops| - 1], ops[|ops| - 1];
      var before, own := OnlyOf(init, citizen), OnlyOf(ops, citizen);
      OnlyOwnRows(init, citizen);
      if Owner(op) == citizen {
        assert own[..|before|] == before;
        match op {
          case Ingest(e, id, at, _) => ViewOfAppend(After([], before), RowFor(e, id, at), citizen);
          case MarkOneRead(c, id, at, _) => ViewOfMarkRead(After([], before), id, c, at, citizen);
          case _ =>
        }
      } else {
        assert own == before;
      }
    }
  }

  lemma LastReply(ops: seq<Op>, q: Op, citizen: Bytes)
    requires Owner(q) == citizen
    ensures RepliesTo(ops + [q], citizen) == RepliesTo(ops, citizen) + [Answer(After([], ops), q)]
    ensures OnlyOf(ops + [q], citizen) == OnlyOf(ops, citizen) + [q]
  {
    assert (ops + [q])[..|ops|] == ops;
  }

  lemma LastDiffers(xs: seq<Reply>, x: Reply, ys: seq<Reply>, y: Reply)
    requires x != y
    ensures xs + [x] != ys + [y]
  {
    assert (xs + [x])[|xs + [x]| - 1] == x && (ys + [y])[|ys + [y]| - 1] == y;
  }

  /** Exactly when others interfere: a citizen whose last request counts the notifications can tell a run
      from the same run without all the others, by that reply or an earlier one, unless for each hash the
      citizen inserts nobody else inserted it first. */
  lemma NonInterferenceIff(ops: seq<Op>, citizen: Bytes)
    requires FreshIds(ops)
    ensures var all := ops + [CountQuery(citizen, NoFault)];
      OwnFirst(ops, citizen) <==> RepliesTo(OnlyOf(all, citizen), citizen) == RepliesTo(all, citizen)
  {
    var q, own := CountQuery(citizen, NoFault), OnlyOf(ops, citizen);
    var replies, alone := RepliesTo(ops, citizen), RepliesTo(own, citizen);
    LastReply(ops, q, citizen);
    LastReply(own, q, citizen);
    OnlyOwnRows(ops, citizen);
    if OwnFirst(ops, citizen) {
      NonInterference(ops, citizen);
    } else {
      var i, j :| Usurps(ops, citizen, i, j);
      UsurpedHasFewer(ops, citizen, i, j);
      LastDiffers(replies, ANumber(CountAll(After([], ops), citizen)), alone, ANumber(|After([], own)|));
    }
  }

  /** A witness that the condition can fail: were an event of somebody else to share the hash, its arrival
      would turn a 201 into a 200. */
  lemma SharedHashInterferes(e: InsertParams, other: Bytes)
    requires other != e.citizenRef
    ensures var ops := [Ingest(e.(citizenRef := other), 1, 0, NoFault), Ingest(e, 2, 0, NoFault)];
      && FreshIds(ops) && !OwnFirst(ops, e.citizenRef)
      && RepliesTo(ops, e.citizenRef) == [Status(200)]
      && RepliesTo(OnlyOf(ops, e.citizenRef), e.citizenRef) == [Status(201)]
  {
    var op1, op2 := Ingest(e.(citizenRef := other), 1, 0, NoFault), Ingest(e, 2, 0, NoFault);
    var ops := [op1, op2];
    assert ops[..1] == [op1] && [op1][..0] == [] && [op2][..0] == [];
    assert Usurps(ops, e.citizenRef, 0, 1);
    assert After([], [op1]) == [RowFor(op1.e, 1, 0)];
    assert RowFor(op1.e, 1, 0) in After([], [op1]);
    assert OnlyOf([op1], e.citizenRef) == [];
    assert OnlyOf(ops, e.citizenRef) == [op2];
    assert RepliesTo([op1], e.citizenRef) == [];
  }

  // ---- Unread accounting ----

  /** The insert stores its row, whatever its caller is told. */
  predicate Stores(t: Table, op: Op) {
    Lands(op) && !HasHash(t, op.e.eventHash) && !HasId(t, op.id)
  }

  /** The mark strikes a row of the citizen's, whatever its caller is told. */
  predicate Marks(t: Table, op: Op) {
    op.MarkOneRead? && op.fault != FailsBefore && HasId(View(t, op.citizen), op.id)
  }

  /** The ids of that citizen's notifications that were stored in this run. */
  function CreatedIds(ops: seq<Op>, citizen: Bytes): set<Uuid> {
    if ops == [] then {}
    else
      var init, op := ops[..|ops| - 1], ops[|ops| - 1];
      CreatedIds(init, citizen) + if Stores(After([], init), op) && Owner(op) == citizen then {op.id} else {}
  }

  /** The ids of that citizen's notifications that the citizen has marked read in this run. */
  function MarkedIds(ops: seq<Op>, citizen: Bytes): set<Uuid> {
    if ops == [] then {}
    else
      var init, op := ops[..|ops| - 1], ops[|ops| - 1];
      MarkedIds(init, citizen) + if Marks(After([], init), op) && Owner(op) == citizen then {op.id} else {}
  }

  /** Without a fault the reply tells which it was. */
  lemma RepliesTellEffects(t: Table, op: Op)
    requires op.fault == NoFault
    ensures op.Ingest? ==> (Answer(t, op) == Status(201) <==> Stores(t, op))
    ensures op.MarkOneRead? ==> (Answer(t, op) != ARow(None) <==> Marks(t, op))
  {
    if op.MarkOneRead? {
      ViewOfMarkRead(t, op.id, op.citizen, op.at, op.citizen);
      var v, w := View(t, op.citizen), View(Effect(t, op), op.citizen);
      FindRowFinds(w, op.id);
      forall i | 0 <= i < |v|
        ensures v[i] in v && w[i] in w && v[i].id == w[i].id
      {
      }
    }
  }

  function Ids(t: Table): set<Uuid> {
    set r | r in t :: r.id
  }

  function ReadIds(t: Table): set<Uuid> {
    set r | r in t && r.read :: r.id
  }

  lemma IdsOfAppend(t: Table, n: Notification)
    ensures Ids(t + [n]) == Ids(t) + {n.id}
    ensures ReadIds(t + [n]) == ReadIds(t) + if n.read then {n.id} else {}
  {
    assert forall r :: r in t + [n] <==> r in t || r == n;
  }

  lemma {:induction false} UnreadIsTheRest(t: Table)
    requires Valid(t)
    ensures CountUnreadRows(t) == |Ids(t)| - |ReadIds(t)| && ReadIds(t) <= Ids(t)
  {
    if t == [] {
    } else {
      var init, last := t[..|t| - 1], t[|t| - 1];
      UnreadIsTheRest(init);
      assert t == init + [last];
      IdsOfAppend(init, last);
      assert last.id !in Ids(init);
      assert last.id !in ReadIds(init);
    }
  }

  lemma IdsAfterMark(t: Table, id: Uuid, citizen: Bytes, at: int)
    requires forall r :: r in t ==> r.citizenRef == citizen
    ensures var u := MarkRead(t, id, citizen, at);
      && Ids(u) == Ids(t)
      && ReadIds(u) == ReadIds(t) + if id in Ids(t) then {id} else {}
  {
    var u := MarkRead(t, id, citizen, at);
    forall i | 0 <= i < |t|
      ensures u[i] in u && t[i] in t && u[i].id == t[i].id && (u[i].read <==> t[i].read || t[i].id == id)
    {
    }
    forall x | x in Ids(t)
      ensures x in Ids(u)
    {
      var i :| 0 <= i < |t| && t[i].id == x;
      assert u[i] in u;
    }
    forall x | x in ReadIds(t) + if id in Ids(t) then {id} else {}
      ensures x in ReadIds(u)
    {
      var i :| 0 <= i < |t| && t[i].id == x && (t[i].read || x == id);
      assert u[i] in u;
    }
  }

  lemma MarkStep(t: Table, op: Op, citizen: Bytes)
    requires op.MarkOneRead? && op.citizen == citizen
    ensures var v, w := View(t, citizen), View(Effect(t, op), citizen);
      && Ids(w) == Ids(v)
      && ReadIds(w) == ReadIds(v) + if Marks(t, op) then {op.id} else {}
  {
    if op.fault != FailsBefore {
      ViewOfMarkRead(t, op.id, citizen, op.at, citizen);
      forall r | r in View(t, citizen)
        ensures r.citizenRef == citizen
      {
        ViewMembers(t, citizen, r);
      }
      IdsAfterMark(View(t, citizen), op.id, citizen, op.at);
    }
  }

  lemma IngestStep(t: Table, op: Op, citizen: Bytes)
    requires op.Ingest? && Owner(op) == citizen
    ensures var v, w := View(t, citizen), View(Effect(t, op), citizen);
      && Ids(w) == Ids(v) + (if Stores(t, op) then {op.id} else {})
      && ReadIds(w) == ReadIds(v)
  {
    if Stores(t, op) {
      var n := RowFor(op.e, op.id, op.at);
      ViewOfAppend(t, n, citizen);
      IdsOfAppend(View(t, citizen), n);
    } else {
      assert Effect(t, op) == t;
    }
  }

  lemma {:induction false} BooksOfACitizen(ops: seq<Op>, citizen: Bytes)
    ensures Ids(View(After([], ops), citizen)) == CreatedIds(ops, citizen)
    ensures ReadIds(View(After([], ops), citizen)) == MarkedIds(ops, citizen)
  {
    if ops == [] {
    } else {
      var init, op := ops[..|ops| - 1], ops[|ops| - 1];
      BooksOfACitizen(init, citizen);
      if Owner(op) != citizen {
        ForeignStep(After([], init), op, citizen);
      } else if op.Ingest? {
        IngestStep(After([], init), op, citizen);
      } else if op.MarkOneRead? {
        MarkStep(After([], init), op, citizen);
      }
    }
  }

  /** After any run, however its calls fail, the unread count is the number of notifications stored for the
      citizen less the number of different ones the citizen has marked read: marking one again, or trying
      somebody else's, changes nothing; a row whose insert reported a failure counts, and so does a mark. */
  lemma UnreadAccounting(ops: seq<Op>, citizen: Bytes)
    ensures MarkedIds(ops, citizen) <= CreatedIds(ops, citizen)
    ensures CountUnread(After([], ops), citizen) == |CreatedIds(ops, citizen)| - |MarkedIds(ops, citizen)|
  {
    AfterGrows([], ops);
    ViewValid(After([], ops), citizen);
    UnreadIsTheRest(View(After([], ops), citizen));
    BooksOfACitizen(ops, citizen);
  }

  /** And that is what a citizen is told who asks for it: the reply to an unread request, after any run, is the
      number stored for the citizen less the number the citizen has marked. */
  lemma UnreadReply(ops: seq<Op>, citizen: Bytes)
    ensures var reply := Answer(After([], ops), UnreadCount(citizen, NoFault));
      reply.ANumber? && reply.n == |CreatedIds(ops, citizen)| - |MarkedIds(ops, citizen)|
  {
    UnreadAccounting(ops, citizen);
  }

  lemma CardinalityOfUnion<T>(xs: set<T>, x: T)
    ensures |xs + {x}| == |xs| + if x in xs then 0 else 1
  {
    if x in xs {
      assert xs + {x} == xs;
    }
  }

  /** One more mark-read request lowers a citizen's unread count by one exactly when it is that
      citizen's own and gets as far as the table, for a notification stored for the citizen and not marked
      before; otherwise the count stays what it was. */
  lemma MarkLowersCountOnce(ops: seq<Op>, c: Bytes, id: Uuid, at: int, fault: Fault, citizen: Bytes)
    ensures CountUnread(After([], ops + [MarkOneRead(c, id, at, fault)]), citizen)
         == CountUnread(After([], ops), citizen)
            - if c == citizen && fault != FailsBefore && id in CreatedIds(ops, citizen) - MarkedIds(ops, citizen)
              then 1 else 0
  {
    var op := MarkOneRead(c, id, at, fault);
    var longer := ops + [op];
    assert longer[..|ops|] == ops;
    UnreadAccounting(ops, citizen);
    UnreadAccounting(longer, citizen);
    BooksOfACitizen(ops, citizen);
    CardinalityOfUnion(MarkedIds(ops, citizen), id);
    if c == citizen {
      assert HasId(View(After([], ops), citizen), id) <==> id in CreatedIds(ops, citizen);
    }
  }
}
