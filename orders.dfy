/** The Order entity: its status choices, its fields, and the invariant of
    the order table. */
module Orders {
  import opened Common

  /** The integer codes the status column holds. */
  const WAITING := 1
  const ACCEPTED := 2
  const CANCELED := 3

  datatype Status = Waiting | Accepted | Canceled

  const DEFAULT_STATUS := Waiting

  function Code(s: Status): (c: int)
    ensures c == WAITING || c == ACCEPTED || c == CANCELED
  {
    match s
    case Waiting => WAITING
    case Accepted => ACCEPTED
    case Canceled => CANCELED
  }

  /** The status a stored code stands for; None for a code outside the choices. */
  function StatusOf(c: int): (s: Option<Status>)
    ensures s.Some? <==> 1 <= c <= 3
    ensures s.Some? ==> Code(s.value) == c
  {
    if c == WAITING then Some(Waiting)
    else if c == ACCEPTED then Some(Accepted)
    else if c == CANCELED then Some(Canceled)
    else None
  }

  lemma CodeRoundTrip(s: Status)
    ensures StatusOf(Code(s)) == Some(s)
  {
  }

  /** A row of the order table. `customer` and `taxiDriver` are user primary
      keys; `orderTime` is a reading of the table's clock. */
  datatype Order = Order(
    id: nat,
    customer: nat,
    taxiDriver: Option<nat>,
    locationFrom: string,
    locationTo: string,
    orderTime: nat,
    status: Status)

  /** The order table and the clock that stamps new rows. */
  datatype Table = Table(orders: seq<Order>, clock: nat)

  /** The invariant every reachable table keeps: primary keys count up from
      1 in storage order, order times strictly increase and lie before the
      clock, and a driver is set exactly on accepted orders. */
  predicate WellFormed(t: Table) {
    && (forall i :: 0 <= i < |t.orders| ==> t.orders[i].id == i + 1)
    && (forall i, j :: 0 <= i < j < |t.orders| ==> t.orders[i].orderTime < t.orders[j].orderTime)
    && (forall i :: 0 <= i < |t.orders| ==> t.orders[i].orderTime < t.clock)
    && (forall i :: 0 <= i < |t.orders| ==> (t.orders[i].taxiDriver.Some? <==> t.orders[i].status == Accepted))
  }

  /** The one permitted change of an existing order: none, or from Waiting to
      a terminal status with the order's identity, customer, route and time kept. */
  predicate Advances(before: Order, after: Order) {
    || before == after
    || (&& before.status == Waiting && after.status != Waiting
        && after.id == before.id && after.customer == before.customer
        && after.locationFrom == before.locationFrom && after.locationTo == before.locationTo
        && after.orderTime == before.orderTime)
  }

  /** A terminal order never changes again, so advancing composes. */
  lemma AdvancesTransitive(a: Order, b: Order, c: Order)
    requires Advances(a, b) && Advances(b, c)
    ensures Advances(a, c)
  {
  }

  /** Every order of `before` has advanced in `after`, and none was removed. */
  predicate TableAdvances(before: Table, after: Table) {
    && |before.orders| <= |after.orders|
    && before.clock <= after.clock
    && forall i :: 0 <= i < |before.orders| ==> Advances(before.orders[i], after.orders[i])
  }

  lemma TableAdvancesTransitive(a: Table, b: Table, c: Table)
    requires TableAdvances(a, b) && TableAdvances(b, c)
    ensures TableAdvances(a, c)
  {
    forall i | 0 <= i < |a.orders|
      ensures Advances(a.orders[i], c.orders[i])
    {
      AdvancesTransitive(a.orders[i], b.orders[i], c.orders[i]);
    }
  }

  /** Under the invariant, the order with primary key `pk` is at position pk - 1. */
  lemma OrderAtKey(t: Table, pk: nat, i: nat)
    requires WellFormed(t) && i < |t.orders| && t.orders[i].id == pk
    ensures 1 <= pk <= |t.orders| && t.orders[pk - 1] == t.orders[i]
  {
  }
}
