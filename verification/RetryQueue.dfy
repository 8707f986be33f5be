/** The dead-letter queue in Redis: a set of retries ordered by ready time, and the list of the dead. */
module RetryQueue {
  import opened Domain
  import Store
  import P = Protocol

  /** Members of equal score are ordered by their bytes: some strict total order of the entries. */
  ghost predicate TotalOrder(lt: (Entry, Entry) -> bool) {
    && (forall x, y :: lt(x, y) ==> !lt(y, x))
    && (forall x, y :: x != y ==> lt(x, y) || lt(y, x))
    && (forall x, y, z :: lt(x, y) && lt(y, z) ==> lt(x, z))
  }

  predicate Sooner(retry: map<Entry, int>, lt: (Entry, Entry) -> bool, x: Entry, y: Entry)
    requires x in retry && y in retry
  {
    retry[x] < retry[y] || (retry[x] == retry[y] && lt(x, y))
  }

  /** `x` comes first of `members` in (score, member) order. */
  ghost predicate First(retry: map<Entry, int>, lt: (Entry, Entry) -> bool, members: set<Entry>, x: Entry)
    requires members <= retry.Keys
  {
    x in members && forall y :: y in members && y != x ==> Sooner(retry, lt, x, y)
  }

  /** Some member always comes first. */
  lemma SomeFirst(retry: map<Entry, int>, lt: (Entry, Entry) -> bool, members: set<Entry>)
    requires TotalOrder(lt) && members <= retry.Keys && members != {}
    ensures exists x :: First(retry, lt, members, x)
  {
    var less := (x, y) => x in retry && y in retry && Sooner(retry, lt, x, y);
    SomeMinimal(members, less);
    var x :| Minimal(members, less, x);
    forall y | y in members && y != x
      ensures Sooner(retry, lt, x, y)
    {
      assert !less(y, x);
    }
    assert First(retry, lt, members, x);
  }

  /** How a pop can go: as it should, or the call fails before it does anything, or the popped entry
      never reaches the caller. */
  datatype PopIO = Answered(f: P.PopFault) | Refused

  datatype PopResult = Nothing | Got(entry: Entry) | PopError

  class Queue {
    var retry: map<Entry, int>
    var dead: seq<Entry>
    const lt: (Entry, Entry) -> bool

    ghost predicate Valid() {
      TotalOrder(lt)
    }

    constructor (lt: (Entry, Entry) -> bool)
      requires TotalOrder(lt)
      ensures Valid() && this.lt == lt && retry == map[] && dead == []
    {
      this.lt := lt;
      retry, dead := map[], [];
    }

    /** A new event, available at once. */
    method Enqueue(e: InsertParams, failedAt: int, readyAt: int, fault: Store.Fault) returns (ok: bool)
      modifies this`retry
      ensures retry == P.ZAdd(old(retry), Entry(e, failedAt, 1), readyAt, fault)
      ensures ok <==> fault == Store.NoFault
    {
      ok := EnqueueAt(Entry(e, failedAt, 1), readyAt, fault);
    }

    method EnqueueAt(entry: Entry, readyAt: int, fault: Store.Fault) returns (ok: bool)
      modifies this`retry
      ensures retry == P.ZAdd(old(retry), entry, readyAt, fault)
      ensures ok <==> fault == Store.NoFault
    {
      if fault != Store.FailsBefore {
        retry := retry[entry := Millis(readyAt)];
      }
      ok := fault == Store.NoFault;
    }

    /** Take out the first ready entry in (score, member) order. Nothing is removed when nothing is
        ready; what is removed is returned, unless the reply is lost or cannot be read. */
    method DequeueReady(now: int, io: PopIO) returns (r: PopResult)
      requires Valid()
      modifies this`retry
      ensures r == Nothing <==> io.Answered? && forall x :: x in old(retry) ==> old(retry)[x] > Millis(now)
      ensures r.Got? ==>
        && P.FirstReady(old(retry), r.entry, now)
        && First(old(retry), lt, old(retry).Keys, r.entry)
        && retry == old(retry) - {r.entry}
      ensures r.Nothing? || io.Refused? ==> retry == old(retry)
      ensures r.PopError? && io.Answered? ==>
        exists x :: P.FirstReady(old(retry), x, now) && First(old(retry), lt, old(retry).Keys, x)
                 && retry == old(retry) - {x}
      ensures r.Got? ==> io == Answered(P.PopOk)
      ensures io == Answered(P.PopOk) ==> !r.PopError?
    {
      if io.Refused? {
        return PopError;
      }
      if forall x :: x in retry ==> retry[x] > Millis(now) {
        return Nothing;
      }
      SomeFirst(retry, lt, retry.Keys);
      assert exists x :: x in retry && First(retry, lt, retry.Keys, x);
      var entry :| entry in retry && forall y :: y in retry && y != entry ==> Sooner(retry, lt, entry, y);
      assert First(retry, lt, retry.Keys, entry);
      retry := retry - {entry};
      r := if io.f == P.PopOk then Got(entry) else PopError;
    }

    /** The newest dead entry stands first. */
    method MoveToDead(entry: Entry, fault: Store.Fault) returns (ok: bool)
      modifies this`dead
      ensures dead == if fault == Store.FailsBefore then old(dead) else [entry] + old(dead)
      ensures ok <==> fault == Store.NoFault
    {
      if fault != Store.FailsBefore {
        dead := [entry] + dead;
      }
      ok := fault == Store.NoFault;
    }
  }
}
