/** The values that travel through the service: webhook events, stored rows and retry entries. */
module Domain {

  newtype byte = x: int | 0 <= x < 256
  type Bytes = seq<byte>

  /** A UUID, compared as the 128-bit number its bytes spell. */
  type Uuid = nat

  datatype Option<+T> = None | Some(value: T)

  /** The columns a webhook event supplies. Instants are integers (nanoseconds). */
  datatype InsertParams = InsertParams(
    ticketID: string,
    kind: string,
    citizenRef: Bytes,
    previousStatus: string,
    newStatus: string,
    title: string,
    description: Option<string>,
    eventTimestamp: int,
    eventHash: Bytes)

  /** A row of the notifications table. */
  datatype Notification = Notification(
    id: Uuid,
    ticketID: string,
    kind: string,
    citizenRef: Bytes,
    previousStatus: string,
    newStatus: string,
    title: string,
    description: Option<string>,
    eventTimestamp: int,
    receivedAt: int,
    read: bool,
    readAt: Option<int>,
    eventHash: Bytes)

  /** A retry entry; it is also the member under which the retry set keys it. */
  datatype Entry = Entry(event: InsertParams, failedAt: int, attempts: int)

  const MAX_ATTEMPTS := 5
  const NANOS_PER_MILLI := 1_000_000

  /** time.Time.UnixMilli: the millisecond an instant falls in (rounded towards minus infinity). */
  function Millis(t: int): int {
    t / NANOS_PER_MILLI
  }

  /** The event a row records, forgetting what the database added to it. */
  function EventOf(n: Notification): InsertParams {
    InsertParams(n.ticketID, n.kind, n.citizenRef, n.previousStatus, n.newStatus,
                 n.title, n.description, n.eventTimestamp, n.eventHash)
  }

  /** `later` is `earlier` with at most its read mark set: everything else is what it was. */
  predicate OnlyReadMarkChanged(earlier: Notification, later: Notification) {
    && later == earlier.(read := later.read, readAt := later.readAt)
    && (earlier.read ==> later.read)
  }

  /** A set inside another has no more members. */
  lemma {:induction false} Shrinks<T>(xs: set<T>, ys: set<T>)
    requires xs <= ys
    ensures |xs| <= |ys|
  {
    if xs == {} {
    } else {
      var x :| x in xs;
      Shrinks(xs - {x}, ys - {x});
    }
  }

  /** `less` never runs in a circle. */
  ghost predicate Order<T(!new)>(less: (T, T) -> bool) {
    && (forall x, y :: less(x, y) ==> !less(y, x))
    && (forall x, y, z :: less(x, y) && less(y, z) ==> less(x, z))
  }

  ghost predicate Minimal<T>(xs: set<T>, less: (T, T) -> bool, x: T) {
    x in xs && forall y :: y in xs ==> !less(y, x)
  }

  /** In a set that is not empty some member has none below it. */
  lemma {:induction false} SomeMinimal<T(!new)>(xs: set<T>, less: (T, T) -> bool)
    requires Order(less) && xs != {}
    ensures exists x :: Minimal(xs, less, x)
  {
    var x :| x in xs;
    var others := xs - {x};
    if others == {} {
      assert xs == {x};
      assert Minimal(xs, less, x);
    } else {
      SomeMinimal(others, less);
      var y :| Minimal(others, less, y);
      assert Minimal(xs, less, if less(x, y) then x else y);
    }
  }
}
