/** The serializers: which request fields a client may write, how they are
    validated, and which fields a response shows. */
module Serializers {
  import opened Common
  import opened Accounts
  import opened Orders

  const PASSWORD_MAX_LENGTH := 128
  const LOCATION_MAX_LENGTH := 255

  // ---------------------------------------------------------------- register

  /** The fields RegisterSerializer reads from a registration request; None
      is a field left out (or sent as null). Nothing else of a request
      reaches the user table. */
  datatype RegisterRequest = RegisterRequest(
    phoneNumber: Option<string>,
    password: Option<string>,
    role: Option<string>,
    fullName: Option<string>,
    gender: Option<string>,
    age: Option<int>,
    carModel: Option<string>)

  predicate BadPhone(phone: Option<string>, users: seq<User>) {
    phone.None? || phone.value == "" || |phone.value| > PHONE_MAX_LENGTH || PhoneTaken(users, phone.value)
  }

  predicate BadRole(role: Option<string>) {
    role.None? || ParseRole(role.value).None?
  }

  predicate BadGender(gender: Option<string>) {
    gender.Some? && gender.value != "" && ParseGender(gender.value).None?
  }

  predicate BadPassword(password: Option<string>) {
    password.None? || password.value == "" || |password.value| > PASSWORD_MAX_LENGTH
  }

  predicate TooLong(s: Option<string>, max: nat) {
    s.Some? && |s.value| > max
  }

  /** The names of the fields that fail validation against the current table. */
  function RegistrationErrors(req: RegisterRequest, users: seq<User>): (errors: set<Field>)
    ensures PhoneNumberField in errors <==> BadPhone(req.phoneNumber, users)
    ensures RoleField in errors <==> BadRole(req.role)
    ensures PasswordField in errors <==> BadPassword(req.password)
    ensures GenderField in errors <==> BadGender(req.gender)
    ensures FullNameField in errors <==> TooLong(req.fullName, FULL_NAME_MAX_LENGTH)
    ensures CarModelField in errors <==> TooLong(req.carModel, CAR_MODEL_MAX_LENGTH)
    ensures errors <= {PhoneNumberField, RoleField, PasswordField, GenderField, FullNameField, CarModelField}
  {
    (if BadPhone(req.phoneNumber, users) then {PhoneNumberField} else {})
    + (if BadRole(req.role) then {RoleField} else {})
    + (if BadPassword(req.password) then {PasswordField} else {})
    + (if BadGender(req.gender) then {GenderField} else {})
    + (if TooLong(req.fullName, FULL_NAME_MAX_LENGTH) then {FullNameField} else {})
    + (if TooLong(req.carModel, CAR_MODEL_MAX_LENGTH) then {CarModelField} else {})
  }

  /** The arguments RegisterSerializer.create hands to create_user. */
  datatype CreateUserArgs = CreateUserArgs(phoneNumber: Option<string>, password: Option<string>, extra: ExtraFields)

  /** is_valid(): either every field error, or the validated data, whose
      fields all go on to create_user. */
  function ValidateRegistration(req: RegisterRequest, users: seq<User>): (r: Result<CreateUserArgs>)
    ensures r.Ok? <==> RegistrationErrors(req, users) == {}
    ensures r.Err? ==> r.error == Invalid(RegistrationErrors(req, users))
    ensures r.Ok? ==>
      && r.value.phoneNumber == req.phoneNumber && r.value.password == req.password
      && req.phoneNumber.Some? && req.phoneNumber.value != ""
      && |req.phoneNumber.value| <= PHONE_MAX_LENGTH
      && !PhoneTaken(users, req.phoneNumber.value)
      && r.value.extra.role.Some? && Some(RoleName(r.value.extra.role.value)) == req.role
      && (r.value.extra.gender.Some? <==> req.gender.Some? && req.gender.value != "")
      && (r.value.extra.gender.Some? ==> Some(GenderName(r.value.extra.gender.value)) == req.gender)
      && r.value.extra.fullName == req.fullName && r.value.extra.age == req.age
      && r.value.extra.carModel == req.carModel
      && r.value.extra.isActive.None? && r.value.extra.isStaff.None? && r.value.extra.isSuperuser.None?
  {
    var errors := RegistrationErrors(req, users);
    if errors != {} then Err(Invalid(errors))
    else
      var gender := if req.gender.None? || req.gender.value == "" then None else ParseGender(req.gender.value);
      Ok(CreateUserArgs(req.phoneNumber, req.password,
        ExtraFields(
          role := ParseRole(req.role.value),
          fullName := req.fullName,
          gender := gender,
          age := req.age,
          carModel := req.carModel,
          isActive := None,
          isStaff := None,
          isSuperuser := None)))
  }

  // ---------------------------------------------------------------- profile

  /** The fields UserSerializer shows, which are also the fields
      RegisterSerializer echoes once the write-only password is dropped. */
  datatype Profile = Profile(
    fullName: Option<string>,
    phoneNumber: string,
    gender: Option<Gender>,
    age: Option<int>,
    role: Option<Role>,
    carModel: Option<string>)

  function ProfileOf(u: User): (p: Profile)
    ensures p.phoneNumber == u.phoneNumber && p.role == u.role
  {
    Profile(u.fullName, u.phoneNumber, u.gender, u.age, u.role, u.carModel)
  }

  /** The profile says nothing about the password, the flags, the groups or the key. */
  lemma ProfileHidesAccountSecrets(u: User, id: nat, password: Password, active: bool, staff: bool, superuser: bool, groups: set<string>)
    ensures ProfileOf(u.(id := id, password := password, isActive := active, isStaff := staff,
                         isSuperuser := superuser, groups := groups)) == ProfileOf(u)
  {
  }

  /** Two accounts with the same profile agree on every profile field. */
  lemma ProfileShowsProfileFields(u: User, v: User)
    requires ProfileOf(u) == ProfileOf(v)
    ensures u.fullName == v.fullName && u.phoneNumber == v.phoneNumber && u.gender == v.gender
    ensures u.age == v.age && u.role == v.role && u.carModel == v.carModel
  {
  }

  // ---------------------------------------------------------------- orders

  /** Every field an order request may carry. */
  datatype OrderRequest = OrderRequest(
    id: Option<int>,
    customer: Option<nat>,
    locationFrom: Option<string>,
    locationTo: Option<string>,
    orderTime: Option<nat>,
    status: Option<int>,
    taxiDriver: Option<nat>)

  /** The writable fields of OrderSerializer: id, order_time, status and
      taxi_driver are read-only and never reach validated data. */
  datatype OrderInput = OrderInput(customer: Option<nat>, locationFrom: Option<string>, locationTo: Option<string>)

  function WritableFields(req: OrderRequest): (w: OrderInput)
    ensures w.customer == req.customer && w.locationFrom == req.locationFrom && w.locationTo == req.locationTo
  {
    OrderInput(req.customer, req.locationFrom, req.locationTo)
  }

  lemma ReadOnlyFieldsIgnored(req: OrderRequest, id: Option<int>, orderTime: Option<nat>, status: Option<int>, taxiDriver: Option<nat>)
    ensures WritableFields(req.(id := id, orderTime := orderTime, status := status, taxiDriver := taxiDriver))
         == WritableFields(req)
  {
  }

  predicate BadLocation(s: Option<string>) {
    s.None? || s.value == "" || |s.value| > LOCATION_MAX_LENGTH
  }

  /** The field errors of an order's writable fields; `customer` must be the
      key of a registered user, even though the view then overrides it. */
  function OrderErrors(w: OrderInput, registered: set<nat>): (errors: set<Field>)
    ensures CustomerField in errors <==> w.customer.None? || w.customer.value !in registered
    ensures LocationFromField in errors <==> BadLocation(w.locationFrom)
    ensures LocationToField in errors <==> BadLocation(w.locationTo)
    ensures errors <= {CustomerField, LocationFromField, LocationToField}
  {
    (if w.customer.None? || w.customer.value !in registered then {CustomerField} else {})
    + (if BadLocation(w.locationFrom) then {LocationFromField} else {})
    + (if BadLocation(w.locationTo) then {LocationToField} else {})
  }

  /** The fields OrderSerializer shows: all seven columns of the order, the
      status as its integer code. */
  datatype OrderOutput = OrderOutput(
    id: nat,
    customer: nat,
    locationFrom: string,
    locationTo: string,
    orderTime: nat,
    status: int,
    taxiDriver: Option<nat>)

  function Serialize(o: Order): (out: OrderOutput)
    ensures out.status == Code(o.status)
  {
    OrderOutput(o.id, o.customer, o.locationFrom, o.locationTo, o.orderTime, Code(o.status), o.taxiDriver)
  }

  /** The order an output describes, if its status code is one of the choices. */
  function Deserialize(out: OrderOutput): (o: Option<Order>)
    ensures o.Some? <==> StatusOf(out.status).Some?
  {
    match StatusOf(out.status)
    case None => None
    case Some(s) => Some(Order(out.id, out.customer, out.taxiDriver, out.locationFrom, out.locationTo, out.orderTime, s))
  }

  /** Nothing of an order is lost in its output. */
  lemma SerializeRoundTrip(o: Order)
    ensures Deserialize(Serialize(o)) == Some(o)
  {
    CodeRoundTrip(o.status);
  }
}
