/** Listing one citizen's rows, newest first, page by page. */
module Paging {
  import opened Domain
  import opened Store

  /** `a` is listed before `b`: newest first, and by id from the greatest down between equal instants. */
  predicate Precedes(a: Notification, b: Notification) {
    a.eventTimestamp > b.eventTimestamp || (a.eventTimestamp == b.eventTimestamp && a.id > b.id)
  }

  predicate Descending(t: Table) {
    forall i, j :: 0 <= i < j < |t| ==> Precedes(t[i], t[j])
  }

  function Place(n: Notification, t: Table): (u: Table)
    ensures multiset(u) == multiset(t) + multiset{n}
    ensures |u| == |t| + 1
  {
    if t == [] || Precedes(n, t[0]) then [n] + t
    else
      assert t == [t[0]] + t[1..];
      [t[0]] + Place(n, t[1..])
  }

  function Listing(t: Table): (u: Table)
    ensures multiset(u) == multiset(t)
    ensures |u| == |t|
  {
    if t == [] then []
    else
      assert t == t[..|t| - 1] + [t[|t| - 1]];
      Place(t[|t| - 1], Listing(t[..|t| - 1]))
  }

  function Window<T>(xs: seq<T>, limit: nat, offset: nat): seq<T> {
    if offset >= |xs| then []
    else if offset + limit >= |xs| then xs[offset..]
    else xs[offset..offset + limit]
  }

  function Page(t: Table, citizen: Bytes, limit: nat, offset: nat): Table {
    Window(Listing(View(t, citizen)), limit, offset)
  }

  lemma SameMembers(t: Table, u: Table, n: Notification)
    requires multiset(t) == multiset(u)
    ensures n in t <==> n in u
  {
    assert n in t <==> n in multiset(t);
    assert n in u <==> n in multiset(u);
  }

  lemma {:induction false} PlaceDescends(n: Notification, t: Table)
    requires Descending(t) && forall r :: r in t ==> r.id != n.id
    ensures Descending(Place(n, t))
  {
    if t != [] && !Precedes(n, t[0]) {
      var rest := t[1..];
      PlaceDescends(n, rest);
      forall r | r in Place(n, rest)
        ensures Precedes(t[0], r)
      {
        assert r in multiset(Place(n, rest));
        assert r in multiset(rest) || r == n;
      }
    }
  }

  lemma {:induction false} ListingDescends(t: Table)
    requires Valid(t)
    ensures Descending(Listing(t))
  {
    if t == [] {
    } else {
      var init, last := t[..|t| - 1], t[|t| - 1];
      ListingDescends(init);
      forall r | r in Listing(init)
        ensures r.id != last.id
      {
        SameMembers(Listing(init), init, r);
      }
      PlaceDescends(last, Listing(init));
    }
  }

  /** Of two descending sequences of the same rows each begins with the row that precedes all others. */
  lemma SameFirst(t: Table, u: Table)
    requires Descending(t) && Descending(u) && multiset(t) == multiset(u) && t != [] && u != []
    ensures t[0] == u[0]
  {
    SameMembers(t, u, t[0]);
    SameMembers(t, u, u[0]);
  }

  lemma {:induction false} OrderDetermines(t: Table, u: Table)
    requires Descending(t) && Descending(u) && multiset(t) == multiset(u)
    ensures t == u
  {
    assert |t| == |multiset(t)| && |u| == |multiset(u)|;
    if t != [] {
      SameFirst(t, u);
      assert t == [t[0]] + t[1..] && u == [u[0]] + u[1..];
      assert multiset(t[1..]) == multiset(t) - multiset{t[0]};
      assert multiset(u[1..]) == multiset(u) - multiset{u[0]};
      OrderDetermines(t[1..], u[1..]);
    }
  }

  /** The listing of a citizen's rows has the newest first and, of one instant, the greatest id first; it has
      each of the rows exactly once, and is the only sequence of which this is true. */
  lemma ListingIsTheOrder(t: Table, citizen: Bytes, u: Table)
    requires Valid(t)
    ensures u == Listing(View(t, citizen)) <==>
      && (forall i, j :: 0 <= i < j < |u| ==>
            u[i].eventTimestamp > u[j].eventTimestamp
            || (u[i].eventTimestamp == u[j].eventTimestamp && u[i].id > u[j].id))
      && multiset(u) == multiset(View(t, citizen))
  {
    ViewValid(t, citizen);
    ListingDescends(View(t, citizen));
    if Descending(u) && multiset(u) == multiset(View(t, citizen)) {
      OrderDetermines(u, Listing(View(t, citizen)));
    }
  }

  /** What a client reads that asks for page after page until the offset reaches the total. */
  function ReadAll(t: Table, citizen: Bytes, limit: nat, offset: nat): Table
    requires limit >= 1
    decreases CountAll(t, citizen) - offset
  {
    if offset >= CountAll(t, citizen) then []
    else Page(t, citizen, limit, offset) + ReadAll(t, citizen, limit, offset + limit)
  }

  /** A window and what comes after it are what comes after its beginning. */
  lemma WindowThenRest<T>(xs: seq<T>, limit: nat, offset: nat)
    requires offset < |xs| && limit >= 1
    ensures Window(xs, limit, offset) + (if offset + limit < |xs| then xs[offset + limit..] else []) == xs[offset..]
  {
  }

  lemma {:induction false} ReadAllFrom(t: Table, citizen: Bytes, limit: nat, offset: nat, listing: Table)
    requires limit >= 1 && offset <= |listing|
    requires listing == Listing(View(t, citizen))
    ensures ReadAll(t, citizen, limit, offset) == listing[offset..]
    decreases |listing| - offset
  {
    if offset < |listing| {
      var rest := if offset + limit < |listing| then listing[offset + limit..] else [];
      if offset + limit < |listing| {
        ReadAllFrom(t, citizen, limit, offset + limit, listing);
      }
      assert ReadAll(t, citizen, limit, offset + limit) == rest;
      assert ReadAll(t, citizen, limit, offset) == Window(listing, limit, offset) + rest;
      WindowThenRest(listing, limit, offset);
    }
  }

  /** Whatever the page size, the pages put together are the citizen's rows, each exactly once, the newest
      first and of one instant the greatest id first, and nobody else's. */
  lemma PagesPartition(t: Table, citizen: Bytes, limit: nat)
    requires Valid(t) && limit >= 1
    ensures var u := ReadAll(t, citizen, limit, 0);
      forall i, j :: 0 <= i < j < |u| ==>
        u[i].eventTimestamp > u[j].eventTimestamp
        || (u[i].eventTimestamp == u[j].eventTimestamp && u[i].id > u[j].id)
    ensures |ReadAll(t, citizen, limit, 0)| == CountAll(t, citizen)
    ensures forall n :: n in ReadAll(t, citizen, limit, 0) <==> n in t && n.citizenRef == citizen
  {
    ReadAllFrom(t, citizen, limit, 0, Listing(View(t, citizen)));
    ViewValid(t, citizen);
    ListingDescends(View(t, citizen));
    forall n
      ensures n in Listing(View(t, citizen)) <==> n in t && n.citizenRef == citizen
    {
      SameMembers(Listing(View(t, citizen)), View(t, citizen), n);
      ViewMembers(t, citizen, n);
    }
  }

  /** The page and the total come from two queries between which the table may have grown. A page that
      is not empty still fits under the total. */
  lemma TwoQueriesAgree(t: Table, u: Table, citizen: Bytes, limit: nat, offset: nat)
    requires Grows(t, u)
    ensures Page(t, citizen, limit, offset) != [] ==>
      offset + |Page(t, citizen, limit, offset)| <= CountAll(u, citizen)
  {
    ViewGrows(t, u, citizen);
  }
}
