# Taxi ordering backend — a verified model

This project models the core of a small ride-hailing backend: a user table
with its registration rules, and an order table whose rows move through a
three-state lifecycle (Waiting = 1, Accepted = 2, Canceled = 3).

- **Accounts** (`accounts.dfy`): the User row, its role and gender choices,
  the stored password as an abstract hash, the group capabilities
  ("Taxi Driver", "Customer") the permission classes test, the user table
  (`UserStore`) with `create_user` and `create_superuser`, and the
  credential check behind login.
- **Orders** (`orders.dfy`): the Order row, the status codes and their
  default, the order table's value (`Table`: the rows plus a clock that
  stamps `order_time`), its invariant `WellFormed`, and `Advances`, the only
  change an existing order may undergo.
- **Serializers** (`serializers.dfy`): what a client may write (registration
  fields; the writable order fields, with `id`, `order_time`, `status` and
  `taxi_driver` read-only), how those fields are validated, and what the
  responses show (the profile never includes the password, the flags or the
  groups; an order's output holds all seven of its columns).
- **Order views** (`order_views.dfy`): the class `OrderTable` whose methods
  `OrderTaxi`, `Accept` and `Cancel` change the table in place, each proved
  equal to a step function (`OrderTaxiStep`, `AcceptStep`, `CancelStep`)
  whose contract states the view's behaviour; `Run` replays any sequence of
  such requests and keeps the invariant and the lifecycle.
- **Queries** (`queries.dfy`): order history, the Waiting listing sorted
  newest first, the unpaginated and the paginated driver listing.
- **Account views** (`account_views.dfy`): registration, personal info, login.
- **Scenario** (`scenario.dfy`): one ride followed on concrete values from
  sign-up to a second driver's failed accept.

The caller of a view (`request.user`) is a parameter `caller: Option<User>`;
`None` is an anonymous request. Every failure is a value of `Common.Error`
(not authenticated, forbidden, not found, the rejected fields, the
`create_user` errors, bad credentials) instead of an HTTP response.

Some behaviour of the code differs from what its comments and messages
suggest; the model follows the code:

- Accepting or cancelling an order that is not Waiting is *not found*: the
  lookup runs over the queryset `status=1` (views.py:73 and :95) and fails
  first, so the "This order has already been accepted." response at
  views.py:81 and the "Only orders that are in 'Waiting' status can be
  canceled." response at views.py:103 are never produced when requests run
  one at a time. The re-checks at views.py:80 and :102 are therefore not
  modelled as branches.
- Cancelling checks the Customer group only, never that the caller placed
  the order (`CancelIgnoresOwnership`).
- `customer` is a writable, required field of the order serializer, so an
  order request must name a registered user's key even though the view then
  stores the caller as customer (`OrderErrors`, `OrderTaxiIgnoresServerFields`).
- The routed driver listing checks the Taxi Driver group; the other listing,
  `TaxiDriverOrderListView`, checks only authentication and is not routed.
- `create_superuser` does not refuse `is_staff=False` or `is_superuser=False`;
  a caller's explicit value wins.

## Model

| member | source | states |
|---|---|---|
| `Accounts.ParseRole` | taxi_app/models.py:32-35 | a role is accepted exactly when it is "customer" or "taxi_driver", and maps back to that value |
| `Accounts.ParseGender` | taxi_app/models.py:37-40 | a gender is accepted exactly when it is "male" or "female", and maps back to that value |
| `Accounts.ChoicesRoundTrip` | taxi_app/models.py:32-40 | every role and gender parses back from its stored value |
| `Accounts.SetPassword` | taxi_app/models.py:21 | the stored password is unusable exactly when none was given, and otherwise matches the raw password given |
| `Accounts.CheckPassword` | taxi_app/models.py:21 | an unusable password accepts nothing; a hashed one accepts exactly the text it was made from |
| `Accounts.CheckPasswordExact` | taxi_app/models.py:21 | a stored password accepts an attempt exactly when it was set from that same text |
| `Accounts.CapabilityIgnoresRole` | taxi_app/permissions.py:8-17 | the Taxi Driver and Customer capabilities depend on group membership, not on the role field |
| `Accounts.IsTaxiDriver` | taxi_app/permissions.py:8-9 | the IsTaxiDriver permission: the caller belongs to the "Taxi Driver" group |
| `Accounts.IsCustomer` | taxi_app/permissions.py:16-17 | the IsCustomer permission: the caller belongs to the "Customer" group |
| `Accounts.CreateUserStep` | taxi_app/models.py:18-23 | a missing or empty phone fails with PhoneRequired, a taken phone with DuplicatePhone, both leaving the table unchanged; otherwise exactly one row is appended with the next key, that phone, the hashed password and no groups; the table invariant is kept |
| `Accounts.CreateUserDefaults` | taxi_app/models.py:50-51 | a new account is active and neither staff nor superuser unless a field says otherwise, and carries the given profile fields |
| `Accounts.SuperuserFields` | taxi_app/models.py:26-27 | is_staff and is_superuser become true when absent and keep the caller's value when given; no other field changes |
| `Accounts.SuperuserFlags` | taxi_app/models.py:25-28 | a superuser created without overrides is staff and superuser; an explicit false is kept |
| `Accounts.FindByPhone` | taxi_app/models.py:42 | finds an account exactly when the phone is registered, and the account found has that phone |
| `Accounts.Authenticate` | taxi_app/views.py:22-24 | a user is returned exactly when some active account has that phone and accepts that password |
| `Accounts.UserStore.CreateUser` | taxi_app/models.py:6-23 | the table and the result are those of CreateUserStep; the table invariant is kept |
| `Accounts.UserStore.CreateSuperuser` | taxi_app/models.py:25-28 | sets the defaults of SuperuserFields, then behaves as CreateUser |
| `Orders.Code` | taxi_app/models.py:62-69 | every status is stored as 1, 2 or 3 |
| `Orders.StatusOf` | taxi_app/models.py:65-69 | a code names a status exactly when it is 1, 2 or 3, and that status has that code |
| `Orders.CodeRoundTrip` | taxi_app/models.py:62-69 | status codes are a bijection with the three statuses |
| `Serializers.RegistrationErrors` | taxi_app/serializers.py:6-9 | names each failing field: phone missing, blank, over 15 characters or taken; role missing or not a choice; password missing, blank or over 128; gender not a choice; full name over 255; car model over 50 |
| `Serializers.ValidateRegistration` | taxi_app/serializers.py:5-12 | succeeds exactly when no field fails, with the validated phone, password, role, full name, age, car model and gender (present exactly when a non-blank gender was sent) and no flags handed on to create_user; otherwise reports every failing field |
| `Serializers.ProfileOf` | taxi_app/serializers.py:27-30 | the profile shows the account's phone and role |
| `Serializers.ProfileHidesAccountSecrets` | taxi_app/serializers.py:30 | the profile does not depend on the password, the flags, the groups or the key |
| `Serializers.ProfileShowsProfileFields` | taxi_app/serializers.py:30 | accounts with equal profiles agree on full name, phone, gender, age, role and car model |
| `Serializers.WritableFields` | taxi_app/serializers.py:23-24 | only customer, location_from and location_to of an order request are writable |
| `Serializers.ReadOnlyFieldsIgnored` | taxi_app/serializers.py:24 | id, order_time, status and taxi_driver in a request change nothing of the writable fields |
| `Serializers.OrderErrors` | taxi_app/serializers.py:20-24 | an order request fails on customer exactly when it names no registered user, and on each location exactly when it is missing, blank or over 255 characters |
| `Serializers.Serialize` | taxi_app/serializers.py:23 | an order's output carries its status as the integer code |
| `Serializers.Deserialize` | taxi_app/serializers.py:23 | an output describes an order exactly when its status code is one of the choices |
| `Serializers.SerializeRoundTrip` | taxi_app/serializers.py:23 | an order's output holds every column of the order: the order is recovered from it |
| `OrderViews.WaitingAt` | taxi_app/views.py:73 | the object lookup by primary key through the queryset `status=1`: the row with that key exists and is Waiting |
| `OrderViews.WaitingAtIsLookup` | taxi_app/views.py:72-73 | on a well-formed table, the Waiting lookup by key finds the order exactly when an order with that primary key exists and is Waiting |
| `OrderViews.OrderTaxiStep` | taxi_app/views.py:36-41 | an anonymous caller or invalid fields fail with no change; otherwise one order is appended with the next key, customer = caller, no driver, status Waiting, the requested locations and the current clock, and the clock advances; the invariant is kept and no existing order changes |
| `OrderViews.AcceptStep` | taxi_app/views.py:68-89 | anonymous, not a taxi driver, or key not Waiting fail in that order with no change; otherwise the order gets driver = caller and status Accepted, every other order and the clock are unchanged; the invariant is kept |
| `OrderViews.CancelStep` | taxi_app/views.py:92-109 | anonymous, not a customer, or key not Waiting fail in that order with no change; otherwise the order's status becomes Canceled with every other field and every other order unchanged, and the success message is returned; the invariant is kept |
| `OrderViews.OrderTable.OrderTaxi` | taxi_app/views.py:40-41 | the table's new state and the result are those of OrderTaxiStep |
| `OrderViews.OrderTable.Accept` | taxi_app/views.py:76-89 | the table's new state and the result are those of AcceptStep |
| `OrderViews.OrderTable.Cancel` | taxi_app/views.py:99-109 | the table's new state and the result are those of CancelStep |
| `OrderViews.OrderTaxiIgnoresServerFields` | taxi_app/views.py:40-41 | the stored order does not depend on the client's id, order_time, status, taxi_driver or (registered) customer values |
| `OrderViews.AcceptOnlyOnce` | taxi_app/views.py:72-86 | after a successful accept, a second accept or a cancel of the same key fails and changes nothing |
| `OrderViews.CancelOnlyOnce` | taxi_app/views.py:95-107 | after a successful cancel, an accept or a second cancel of the same key fails and changes nothing |
| `OrderViews.CancelLeavesDriverUnset` | taxi_app/views.py:106-107 | a cancelled order is Canceled and has no driver |
| `OrderViews.CancelIgnoresOwnership` | taxi_app/views.py:93-96 | any two callers in the Customer group get the same cancel outcome on any key |
| `OrderViews.AcceptIgnoresRole` | taxi_app/views.py:70 | the accept outcome does not depend on the caller's role field |
| `OrderViews.Run` | taxi_app/views.py:68-109 | any sequence of create, accept and cancel requests keeps the table well formed, removes no order, and moves each order only from Waiting to a terminal status |
| `OrderViews.TerminalOrdersAreFinal` | taxi_app/views.py:72-107 | an accepted or cancelled order, its driver included, stays as it is through any later requests |
| `Queries.History` | taxi_app/views.py:48-49 | anonymous fails; otherwise exactly the orders whose customer is the caller |
| `Queries.HistoryAfterNewOrder` | taxi_app/views.py:48-49 | in the model's storage order, a new order of the caller's appears at the end of the caller's history |
| `Queries.SortNewestFirst` | taxi_app/views.py:121 | the result is ordered by order_time descending and is a permutation of the input |
| `Queries.WaitingNewestFirst` | taxi_app/views.py:120-121 | exactly the Waiting orders, each as often as in the table, ordered by order_time descending |
| `Queries.ListingStrictlyNewestFirst` | taxi_app/views.py:121 | on a well-formed table the listing's order times strictly decrease, so no tie-break is needed |
| `Queries.TaxiDriverOrderList` | taxi_app/views.py:60-65 | any authenticated caller gets exactly the Waiting orders, each as often as in the table, newest first; anonymous fails |
| `Queries.PageCount` | taxi_app/views.py:112-113 | there is at least one page, and the pages of ten cover the list with none left empty except the single page of an empty list |
| `Queries.PageAt` | taxi_app/views.py:112-113 | a page number is found exactly when it is between 1 and the page count; a page holds at most ten items of the list, exactly ten before the last |
| `Queries.PagesReproduce` | taxi_app/views.py:113 | pages 1 to the page count, joined in order, give back the whole list |
| `Queries.Paginate` | taxi_app/views.py:112-113 | the response counts the whole listing and holds the requested page (page 1 by default); a page out of range is not found |
| `Queries.ListOrdersForDrivers` | taxi_app/views.py:115-121 | anonymous fails, then a caller outside the Taxi Driver group is forbidden; a taxi driver gets the paginated newest-first Waiting listing, at most ten orders per page, each a Waiting order of the table |
| `Queries.DriverPage` | taxi_app/views.py:115-121 | a page a taxi driver receives is that page of the Waiting listing |
| `Queries.DriverPagesReproduceListing` | taxi_app/views.py:115-121 | the pages a taxi driver receives for pages 1 to the page count, joined in order, are the whole newest-first listing |
| `AccountViews.RegisterStep` | taxi_app/serializers.py:5-12 | registration succeeds exactly when no field fails, appending one active, non-staff account with a phone of 1 to 15 characters, the hashed password, a role among the choices, the full name, age, car model and gender sent, and no groups, and echoing its profile; otherwise it reports the failing fields and leaves the table unchanged |
| `AccountViews.Register` | taxi_app/views.py:14-15 | the table's new state and the response are those of RegisterStep |
| `AccountViews.RegisterTwiceFails` | taxi_app/models.py:42 | registering a phone that was just registered fails on phone_number and changes nothing |
| `AccountViews.RegistrationHidesPassword` | taxi_app/serializers.py:9 | the registration response does not depend on the password sent |
| `AccountViews.PersonalInfo` | taxi_app/views.py:52-57 | anonymous fails; otherwise the caller's own full name, phone, gender, age, role and car model |
| `AccountViews.Login` | taxi_app/views.py:18-33 | succeeds exactly when an active account has that phone and accepts that password, giving that account's key; every other case is the one BadCredentials failure |
| `AccountViews.RegisteredUserCanLogIn` | taxi_app/views.py:24-28 | right after registering, the same phone and password log in to the new account |
| `Scenario.RideLifecycle` | taxi_app/views.py:36-89 | sign-up, an order from "A" to "B" that shows as Waiting with no driver in history and on the driver listing, a driver's accept that shows as Accepted with that driver, and a second driver's accept that is not found |

## Left out

- Token issuance and request authentication (JWT): `Login` returns the key
  of the account the tokens would be bound to; callers are given as
  `Option<User>`, already authenticated, so the rejection of inactive
  accounts by the authentication layer is not modelled.
- `transaction.atomic` and concurrent requests: all operations are atomic and
  sequential, so the re-checks at views.py:80-81 and :102-103 never fail and
  are not modelled as branches; the race they guard against is out of scope.
- URL routing (taxi_app/urls.py), HTTP status codes, and PUT versus PATCH
  (both reach the same `update`).
- How group membership is stored and assigned: groups are a set of names on
  the user; nothing in the core adds a user to a group.
- Password hashing internals: `HashOf` is an abstract hash.
- `created_at` of users; `order_time` is the table's clock counter instead of
  a timestamp; `on_delete` behaviour, since nothing is deleted.
- Pagination's next/previous links, the page value "last", and page numbers
  that are not integers.
- Input parsing: request values arrive already typed (strings, naturals);
  whitespace trimming of text fields and the database range of `age` are
  not modelled; a blank gender is modelled as absent. The framework's
  rejection of text containing a NUL character, which every text field of
  both serializers applies (phone_number, password, full_name, car_model,
  location_from, location_to), is not modelled either: for such a value the
  source reports the field as invalid, while `RegistrationErrors` and
  `OrderErrors` accept it and `OrderTaxiStep` stores it, so their "exactly
  when" statements hold only of text without NUL characters.
- AccountViews.RegisteredUserCanLogIn: holds only in the model, which does
  not trim input. In the source, registration stores the trimmed password,
  while the login view (views.py:22-24) passes the raw request password to
  authenticate, so a password with leading or trailing spaces, such as
  " secret ", registers but then fails to log in with the same text.
- Referential integrity between the two tables: the order table does not
  check that `customer` or `taxi_driver` name existing users beyond the
  serializer's check of `customer` against the given set of registered keys.
- Accounts.CreateUserStep: does not reject phone numbers over 15 characters,
  because only the serializer checks that length; a direct create_user call
  depends on the database backend.
- OrderViews.OrderTable.Accept: returns the updated order row; the response
  is that row through `Serializers.Serialize`.
- Order of rows: views.py:49 has no `order_by` and `Order` (models.py:61-76)
  declares no default ordering, so the database may return history rows in
  any order; the model keeps the table in storage (insertion) order, and
  `Queries.HistoryAfterNewOrder` is about that chosen order.
- Accounts.CreateUserStep: its extra fields are typed, so a role or gender
  outside the choices cannot be passed; create_user (models.py:20) would
  store any string, since field choices are not enforced on save. Only the
  serializer path, which does enforce them, is captured.
