/** The views that change the order table: placing an order, a driver
    accepting it, a customer cancelling it. Each is a method of the table
    class, proved equal to a step function on the table's value; the
    properties of the lifecycle are proved about those step functions. */
module OrderViews {
  import opened Common
  import opened Accounts
  import opened Orders
  import opened Serializers

  datatype Step<T> = Step(result: Result<T>, after: Table)

  const CANCELED_MESSAGE := "Order canceled successfully."

  /** The order with primary key `pk` lies in the queryset `status=1`. */
  predicate WaitingAt(orders: seq<Order>, pk: nat) {
    1 <= pk <= |orders| && orders[pk - 1].status == Waiting
  }

  /** Under the table invariant, WaitingAt is the lookup by primary key. */
  lemma WaitingAtIsLookup(t: Table, pk: nat)
    requires WellFormed(t)
    ensures WaitingAt(t.orders, pk) <==> exists i :: 0 <= i < |t.orders| && t.orders[i].id == pk && t.orders[i].status == Waiting
  {
    if exists i :: 0 <= i < |t.orders| && t.orders[i].id == pk && t.orders[i].status == Waiting {
      var i :| 0 <= i < |t.orders| && t.orders[i].id == pk && t.orders[i].status == Waiting;
      OrderAtKey(t, pk, i);
    }
    if WaitingAt(t.orders, pk) {
      assert t.orders[pk - 1].id == pk;
    }
  }

  /** OrderTaxiView: the serializer validates the writable fields, then the
      row is saved with the caller as customer and the model's defaults. */
  function OrderTaxiStep(t: Table, caller: Option<User>, req: OrderRequest, registered: set<nat>): (s: Step<Order>)
    ensures s.result == Err(NotAuthenticated) <==> caller.None?
    ensures s.result.Ok? <==> caller.Some? && OrderErrors(WritableFields(req), registered) == {}
    ensures caller.Some? && s.result.Err? ==> s.result.error == Invalid(OrderErrors(WritableFields(req), registered))
    ensures s.result.Err? ==> s.after == t
    ensures s.result.Ok? ==>
      && s.after.orders == t.orders + [s.result.value]
      && s.result.value.id == |t.orders| + 1
      && s.result.value.customer == caller.value.id
      && s.result.value.taxiDriver.None?
      && s.result.value.status == Waiting
      && Some(s.result.value.locationFrom) == req.locationFrom
      && Some(s.result.value.locationTo) == req.locationTo
      && s.result.value.orderTime == t.clock < s.after.clock
    ensures WellFormed(t) ==> WellFormed(s.after)
    ensures TableAdvances(t, s.after)
  {
    if caller.None? then Step(Err(NotAuthenticated), t)
    else
      var errors := OrderErrors(WritableFields(req), registered);
      if errors != {} then Step(Err(Invalid(errors)), t)
      else
        var o := Order(
          id := |t.orders| + 1,
          customer := caller.value.id,
          taxiDriver := None,
          locationFrom := req.locationFrom.value,
          locationTo := req.locationTo.value,
          orderTime := t.clock,
          status := DEFAULT_STATUS);
        Step(Ok(o), Table(t.orders + [o], t.clock + 1))
  }

  /** AcceptOrderView: taxi drivers only; the lookup is confined to Waiting
      orders, so any other key is not found. */
  function AcceptStep(t: Table, caller: Option<User>, pk: nat): (s: Step<Order>)
    ensures s.result == Err(NotAuthenticated) <==> caller.None?
    ensures s.result == Err(Forbidden) <==> caller.Some? && !IsTaxiDriver(caller.value)
    ensures s.result == Err(NotFound) <==> caller.Some? && IsTaxiDriver(caller.value) && !WaitingAt(t.orders, pk)
    ensures s.result.Ok? <==> caller.Some? && IsTaxiDriver(caller.value) && WaitingAt(t.orders, pk)
    ensures s.result.Err? ==> s.after == t
    ensures s.result.Ok? ==>
      && s.after.clock == t.clock
      && |s.after.orders| == |t.orders|
      && s.after.orders[pk - 1] == s.result.value
      && s.result.value == t.orders[pk - 1].(taxiDriver := Some(caller.value.id), status := Accepted)
      && forall i :: 0 <= i < |t.orders| && i != pk - 1 ==> s.after.orders[i] == t.orders[i]
    ensures WellFormed(t) ==> WellFormed(s.after)
    ensures TableAdvances(t, s.after)
  {
    if caller.None? then Step(Err(NotAuthenticated), t)
    else if !IsTaxiDriver(caller.value) then Step(Err(Forbidden), t)
    else if !WaitingAt(t.orders, pk) then Step(Err(NotFound), t)
    else
      var o := t.orders[pk - 1].(taxiDriver := Some(caller.value.id), status := Accepted);
      Step(Ok(o), t.(orders := t.orders[pk - 1 := o]))
  }

  /** CancelOrderView: customers only; the lookup is confined to Waiting
      orders and does not compare the order's customer with the caller. */
  function CancelStep(t: Table, caller: Option<User>, pk: nat): (s: Step<string>)
    ensures s.result == Err(NotAuthenticated) <==> caller.None?
    ensures s.result == Err(Forbidden) <==> caller.Some? && !IsCustomer(caller.value)
    ensures s.result == Err(NotFound) <==> caller.Some? && IsCustomer(caller.value) && !WaitingAt(t.orders, pk)
    ensures s.result.Ok? <==> caller.Some? && IsCustomer(caller.value) && WaitingAt(t.orders, pk)
    ensures s.result.Err? ==> s.after == t
    ensures s.result.Ok? ==>
      && s.result.value == CANCELED_MESSAGE
      && s.after.clock == t.clock
      && |s.after.orders| == |t.orders|
      && s.after.orders[pk - 1] == t.orders[pk - 1].(status := Canceled)
      && forall i :: 0 <= i < |t.orders| && i != pk - 1 ==> s.after.orders[i] == t.orders[i]
    ensures WellFormed(t) ==> WellFormed(s.after)
    ensures TableAdvances(t, s.after)
  {
    if caller.None? then Step(Err(NotAuthenticated), t)
    else if !IsCustomer(caller.value) then Step(Err(Forbidden), t)
    else if !WaitingAt(t.orders, pk) then Step(Err(NotFound), t)
    else
      var o := t.orders[pk - 1].(status := Canceled);
      Step(Ok(CANCELED_MESSAGE), t.(orders := t.orders[pk - 1 := o]))
  }

  /** The table behind Order.objects, with the clock that stamps order_time. */
  class OrderTable {
    var orders: seq<Order>
    var clock: nat

    function State(): Table
      reads this
    {
      Table(orders, clock)
    }

    ghost predicate Valid()
      reads this
    {
      WellFormed(State())
    }

    constructor ()
      ensures Valid() && orders == [] && clock == 0
    {
      orders := [];
      clock := 0;
    }

    /** OrderTaxiView.create with perform_create: save(customer=request.user). */
    method OrderTaxi(caller: Option<User>, req: OrderRequest, registered: set<nat>) returns (r: Result<Order>)
      requires Valid()
      modifies this
      ensures Valid()
      ensures r == OrderTaxiStep(old(State()), caller, req, registered).result
      ensures State() == OrderTaxiStep(old(State()), caller, req, registered).after
    {
      if caller.None? {
        return Err(NotAuthenticated);
      }
      var errors := OrderErrors(WritableFields(req), registered);
      if errors != {} {
        return Err(Invalid(errors));
      }
      var order := Order(|orders| + 1, caller.value.id, None, req.locationFrom.value, req.locationTo.value, clock, DEFAULT_STATUS);
      orders := orders + [order];
      clock := clock + 1;
      r := Ok(order);
    }

    /** AcceptOrderView.update: assign the caller as driver, mark Accepted, save. */
    method Accept(caller: Option<User>, pk: nat) returns (r: Result<Order>)
      requires Valid()
      modifies this
      ensures Valid()
      ensures r == AcceptStep(old(State()), caller, pk).result
      ensures State() == AcceptStep(old(State()), caller, pk).after
    {
      if caller.None? {
        return Err(NotAuthenticated);
      }
      if !IsTaxiDriver(caller.value) {
        return Err(Forbidden);
      }
      if !WaitingAt(orders, pk) {
        return Err(NotFound);
      }
      var order := orders[pk - 1];
      order := order.(taxiDriver := Some(caller.value.id));
      order := order.(status := Accepted);
      orders := orders[pk - 1 := order];
      r := Ok(order);
    }

    /** CancelOrderView.update: mark Canceled, save. */
    method Cancel(caller: Option<User>, pk: nat) returns (r: Result<string>)
      requires Valid()
      modifies this
      ensures Valid()
      ensures r == CancelStep(old(State()), caller, pk).result
      ensures State() == CancelStep(old(State()), caller, pk).after
    {
      if caller.None? {
        return Err(NotAuthenticated);
      }
      if !IsCustomer(caller.value) {
        return Err(Forbidden);
      }
      if !WaitingAt(orders, pk) {
        return Err(NotFound);
      }
      var order := orders[pk - 1];
      order := order.(status := Canceled);
      orders := orders[pk - 1 := order];
      r := Ok(CANCELED_MESSAGE);
    }
  }

  // ------------------------------------------------------------ lifecycle

  /** The client cannot choose an order's id, time, status or driver, nor its
      customer: any registered key in `customer` gives the same row. */
  lemma OrderTaxiIgnoresServerFields(t: Table, caller: Option<User>, req: OrderRequest, registered: set<nat>,
                                     customer: nat, id: Option<int>, orderTime: Option<nat>, status: Option<int>, taxiDriver: Option<nat>)
    requires req.customer.Some? && req.customer.value in registered && customer in registered
    ensures OrderTaxiStep(t, caller, req, registered)
         == OrderTaxiStep(t, caller, req.(customer := Some(customer), id := id, orderTime := orderTime,
                                          status := status, taxiDriver := taxiDriver), registered)
  {
  }

  /** Once an order is accepted, a second accept of it fails and changes nothing,
      and so does a cancel. */
  lemma {:induction false} AcceptOnlyOnce(t: Table, first: Option<User>, second: Option<User>, pk: nat)
    requires AcceptStep(t, first, pk).result.Ok?
    ensures var t1 := AcceptStep(t, first, pk).after;
      && AcceptStep(t1, second, pk).result.Err?
      && AcceptStep(t1, second, pk).after == t1
      && CancelStep(t1, second, pk).result.Err?
      && CancelStep(t1, second, pk).after == t1
  {
    var t1 := AcceptStep(t, first, pk).after;
    assert t1.orders[pk - 1].status == Accepted;
  }

  /** Once an order is cancelled, neither accept nor a second cancel succeeds. */
  lemma {:induction false} CancelOnlyOnce(t: Table, first: Option<User>, second: Option<User>, pk: nat)
    requires CancelStep(t, first, pk).result.Ok?
    ensures var t1 := CancelStep(t, first, pk).after;
      && AcceptStep(t1, second, pk).result.Err?
      && AcceptStep(t1, second, pk).after == t1
      && CancelStep(t1, second, pk).result.Err?
      && CancelStep(t1, second, pk).after == t1
  {
    var t1 := CancelStep(t, first, pk).after;
    assert t1.orders[pk - 1].status == Canceled;
  }

  /** A cancelled order never gets a driver. */
  lemma CancelLeavesDriverUnset(t: Table, caller: Option<User>, pk: nat)
    requires WellFormed(t) && CancelStep(t, caller, pk).result.Ok?
    ensures CancelStep(t, caller, pk).after.orders[pk - 1].taxiDriver.None?
    ensures CancelStep(t, caller, pk).after.orders[pk - 1].status == Canceled
  {
  }

  /** Cancel does not check ownership: every caller in the Customer group gets
      the same outcome, whoever placed the order. */
  lemma CancelIgnoresOwnership(t: Table, a: User, b: User, pk: nat)
    requires IsCustomer(a) && IsCustomer(b)
    ensures CancelStep(t, Some(a), pk) == CancelStep(t, Some(b), pk)
  {
  }

  /** Accept consults the Taxi Driver group, never the role field. */
  lemma AcceptIgnoresRole(t: Table, u: User, role: Option<Role>, pk: nat)
    ensures AcceptStep(t, Some(u.(role := role)), pk) == AcceptStep(t, Some(u), pk)
  {
  }

  /** One call to any of the order-changing views. */
  datatype Request =
    | OrderTaxi(caller: Option<User>, data: OrderRequest, registered: set<nat>)
    | AcceptOrder(caller: Option<User>, pk: nat)
    | CancelOrder(caller: Option<User>, pk: nat)

  function Apply(t: Table, req: Request): Table {
    match req
    case OrderTaxi(caller, data, registered) => OrderTaxiStep(t, caller, data, registered).after
    case AcceptOrder(caller, pk) => AcceptStep(t, caller, pk).after
    case CancelOrder(caller, pk) => CancelStep(t, caller, pk).after
  }

  /** The table after the requests `reqs`, handled one after another: it stays
      well formed, and every existing order only ever advances along
      Waiting -> Accepted or Waiting -> Canceled. */
  function Run(t: Table, reqs: seq<Request>): (r: Table)
    ensures WellFormed(t) ==> WellFormed(r)
    ensures TableAdvances(t, r)
    decreases |reqs|
  {
    if reqs == [] then t
    else
      var t1 := Apply(t, reqs[0]);
      var r := Run(t1, reqs[1..]);
      TableAdvancesTransitive(t, t1, r);
      r
  }

  /** An accepted or cancelled order, its driver included, is final. */
  lemma TerminalOrdersAreFinal(t: Table, reqs: seq<Request>, i: nat)
    requires i < |t.orders| && t.orders[i].status != Waiting
    ensures i < |Run(t, reqs).orders| && Run(t, reqs).orders[i] == t.orders[i]
  {
  }
}
