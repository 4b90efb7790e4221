/** One ride from registration to acceptance, followed on concrete values. */
module Scenario {
  import opened Common
  import opened Accounts
  import opened Orders
  import opened Serializers
  import opened OrderViews
  import opened Queries
  import opened AccountViews
  import opened Sequences

  const SIGN_UP := RegisterRequest(Some("+1000"), Some("secret"), Some("customer"), None, None, None, None)

  /** The registered rider, once an administrator has put them in the Customer group. */
  const RIDER := User(1, "+1000", HashOf("secret"), Some(Customer), None, None, None, None, true, false, false, {CUSTOMER_GROUP})
  const DRIVER := User(2, "+2000", HashOf("wheel"), Some(TaxiDriver), None, None, None, None, true, false, false, {TAXI_DRIVER_GROUP})
  const OTHER_DRIVER := User(3, "+3000", HashOf("brake"), Some(TaxiDriver), None, None, None, None, true, false, false, {TAXI_DRIVER_GROUP})

  /** From "A" to "B"; the client also tries to set status 2 and a driver,
      which the serializer does not let through. */
  const RIDE := OrderRequest(None, Some(1), Some("A"), Some("B"), None, Some(2), Some(3))

  lemma {:induction false} RideLifecycle()
    ensures RegisterStep([], SIGN_UP).result
         == Ok(Profile(None, "+1000", None, None, Some(Customer), None))
    ensures var placed := OrderTaxiStep(Table([], 0), Some(RIDER), RIDE, {1, 2, 3});
      var accepted := AcceptStep(placed.after, Some(DRIVER), 1);
      var again := AcceptStep(accepted.after, Some(OTHER_DRIVER), 1);
      && History(Some(RIDER), placed.after.orders) == Ok([Order(1, 1, None, "A", "B", 0, Waiting)])
      && ListOrdersForDrivers(Some(DRIVER), placed.after.orders, None) == Ok(Paged(1, [Order(1, 1, None, "A", "B", 0, Waiting)]))
      && History(Some(RIDER), accepted.after.orders) == Ok([Order(1, 1, Some(2), "A", "B", 0, Accepted)])
      && again.result == Err(NotFound)
      && ListOrdersForDrivers(Some(DRIVER), accepted.after.orders, None) == Ok(Paged(0, []))
  {
    var req := SIGN_UP;
    assert RegistrationErrors(req, []) == {};
    var placed := OrderTaxiStep(Table([], 0), Some(RIDER), RIDE, {1, 2, 3});
    assert OrderErrors(WritableFields(RIDE), {1, 2, 3}) == {};
    var ride := Order(1, 1, None, "A", "B", 0, Waiting);
    assert placed.after.orders == [ride];
    assert Filter([ride], (o: Order) => o.customer == 1) == [ride];
    assert Filter([ride], IsWaiting) == [ride];
    var accepted := AcceptStep(placed.after, Some(DRIVER), 1);
    var taken := Order(1, 1, Some(2), "A", "B", 0, Accepted);
    assert accepted.after.orders == [taken];
    assert Filter([taken], (o: Order) => o.customer == 1) == [taken];
    assert Filter([taken], IsWaiting) == [];
  }
}
