/** The User entity, its manager (create_user, create_superuser) and the
    group capabilities the permission classes test. */
module Accounts {
  import opened Common

  const PHONE_MAX_LENGTH := 15
  const FULL_NAME_MAX_LENGTH := 255
  const CAR_MODEL_MAX_LENGTH := 50

  /** Group names the permission classes look for. */
  const TAXI_DRIVER_GROUP := "Taxi Driver"
  const CUSTOMER_GROUP := "Customer"

  datatype Role = Customer | TaxiDriver
  datatype Gender = Male | Female

  /** The value each choice is stored and transmitted as. */
  function RoleName(r: Role): string {
    match r
    case Customer => "customer"
    case TaxiDriver => "taxi_driver"
  }

  function GenderName(g: Gender): string {
    match g
    case Male => "male"
    case Female => "female"
  }

  /** Choice validation: only the stored values of the choices are accepted. */
  function ParseRole(s: string): (r: Option<Role>)
    ensures r.Some? <==> s == "customer" || s == "taxi_driver"
    ensures r.Some? ==> RoleName(r.value) == s
  {
    if s == "customer" then Some(Customer)
    else if s == "taxi_driver" then Some(TaxiDriver)
    else None
  }

  function ParseGender(s: string): (r: Option<Gender>)
    ensures r.Some? <==> s == "male" || s == "female"
    ensures r.Some? ==> GenderName(r.value) == s
  {
    if s == "male" then Some(Male)
    else if s == "female" then Some(Female)
    else None
  }

  lemma ChoicesRoundTrip(r: Role, g: Gender)
    ensures ParseRole(RoleName(r)) == Some(r)
    ensures ParseGender(GenderName(g)) == Some(g)
  {
  }

  /** A stored password: the abstract hash of a raw password, or the
      unusable marker set when no password is given. The raw text itself
      has no place in a User. */
  datatype Password = HashOf(raw: string) | Unusable

  /** set_password: a missing password makes the account's password unusable. */
  function SetPassword(raw: Option<string>): (p: Password)
    ensures p.Unusable? <==> raw.None?
    ensures raw.Some? ==> CheckPassword(p, raw.value)
  {
    match raw
    case None => Unusable
    case Some(s) => HashOf(s)
  }

  /** check_password: true only for a usable hash of the same raw text. */
  function CheckPassword(stored: Password, raw: string): (ok: bool)
    ensures stored.Unusable? ==> !ok
    ensures stored.HashOf? ==> (ok <==> stored.raw == raw)
  {
    stored == HashOf(raw)
  }

  lemma CheckPasswordExact(raw: Option<string>, attempt: string)
    ensures CheckPassword(SetPassword(raw), attempt) <==> raw == Some(attempt)
  {
  }

  /** A row of the user table. `id` is the primary key the orders refer to;
      a role left out of create_user's fields is stored blank (None). */
  datatype User = User(
    id: nat,
    phoneNumber: string,
    password: Password,
    role: Option<Role>,
    fullName: Option<string>,
    gender: Option<Gender>,
    age: Option<int>,
    carModel: Option<string>,
    isActive: bool,
    isStaff: bool,
    isSuperuser: bool,
    groups: set<string>)

  /** The keyword arguments create_user passes on to the model; None means
      the keyword was not given. */
  datatype ExtraFields = ExtraFields(
    role: Option<Role>,
    fullName: Option<string>,
    gender: Option<Gender>,
    age: Option<int>,
    carModel: Option<string>,
    isActive: Option<bool>,
    isStaff: Option<bool>,
    isSuperuser: Option<bool>)

  const NO_EXTRA_FIELDS := ExtraFields(None, None, None, None, None, None, None, None)

  /** IsTaxiDriver and IsCustomer: membership of a named group, whatever the role. */
  predicate IsTaxiDriver(u: User) {
    TAXI_DRIVER_GROUP in u.groups
  }

  predicate IsCustomer(u: User) {
    CUSTOMER_GROUP in u.groups
  }

  lemma CapabilityIgnoresRole(u: User, r: Option<Role>)
    ensures IsTaxiDriver(u.(role := r)) == IsTaxiDriver(u)
    ensures IsCustomer(u.(role := r)) == IsCustomer(u)
  {
  }

  predicate PhoneTaken(users: seq<User>, phone: string) {
    exists i :: 0 <= i < |users| && users[i].phoneNumber == phone
  }

  /** The user table's invariant: primary keys count up from 1 in storage
      order, and every phone number is present and unique. */
  predicate UsersValid(users: seq<User>) {
    && (forall i :: 0 <= i < |users| ==> users[i].id == i + 1)
    && (forall i :: 0 <= i < |users| ==> users[i].phoneNumber != "")
    && (forall i, j :: 0 <= i < j < |users| ==> users[i].phoneNumber != users[j].phoneNumber)
  }

  /** The row create_user builds: the model's defaults where no field was given. */
  function NewUser(id: nat, phone: string, password: Option<string>, extra: ExtraFields): User {
    User(
      id := id,
      phoneNumber := phone,
      password := SetPassword(password),
      role := extra.role,
      fullName := extra.fullName,
      gender := extra.gender,
      age := extra.age,
      carModel := extra.carModel,
      isActive := extra.isActive.GetOr(true),
      isStaff := extra.isStaff.GetOr(false),
      isSuperuser := extra.isSuperuser.GetOr(false),
      groups := {})
  }

  datatype UserStep = UserStep(result: Result<User>, after: seq<User>)

  /** UserManager.create_user on the table `users`. */
  function CreateUserStep(users: seq<User>, phone: Option<string>, password: Option<string>, extra: ExtraFields): (s: UserStep)
    ensures s.result == Err(PhoneRequired) <==> phone.None? || phone.value == ""
    ensures s.result == Err(DuplicatePhone) <==> phone.Some? && phone.value != "" && PhoneTaken(users, phone.value)
    ensures s.result.Err? ==> s.after == users && s.result.error in {PhoneRequired, DuplicatePhone}
    ensures s.result.Ok? ==>
      && s.after == users + [s.result.value]
      && s.result.value.id == |users| + 1
      && Some(s.result.value.phoneNumber) == phone
      && s.result.value.password == SetPassword(password)
      && s.result.value.groups == {}
    ensures UsersValid(users) ==> UsersValid(s.after)
  {
    if phone.None? || phone.value == "" then UserStep(Err(PhoneRequired), users)
    else if PhoneTaken(users, phone.value) then UserStep(Err(DuplicatePhone), users)
    else
      var u := NewUser(|users| + 1, phone.value, password, extra);
      UserStep(Ok(u), users + [u])
  }

  /** Defaults of a new account: active, not staff, not superuser, unless a
      field says otherwise. */
  lemma CreateUserDefaults(users: seq<User>, phone: Option<string>, password: Option<string>, extra: ExtraFields)
    requires CreateUserStep(users, phone, password, extra).result.Ok?
    ensures var u := CreateUserStep(users, phone, password, extra).result.value;
      && u.isActive == (extra.isActive != Some(false))
      && u.isStaff == (extra.isStaff == Some(true))
      && u.isSuperuser == (extra.isSuperuser == Some(true))
      && u.role == extra.role && u.fullName == extra.fullName && u.gender == extra.gender
      && u.age == extra.age && u.carModel == extra.carModel
  {
  }

  /** The setdefault calls of create_superuser: is_staff and is_superuser
      become True unless the caller gave them. */
  function SuperuserFields(extra: ExtraFields): (e: ExtraFields)
    ensures extra.isStaff.Some? ==> e.isStaff == extra.isStaff
    ensures extra.isStaff.None? ==> e.isStaff == Some(true)
    ensures extra.isSuperuser.Some? ==> e.isSuperuser == extra.isSuperuser
    ensures extra.isSuperuser.None? ==> e.isSuperuser == Some(true)
    ensures e.(isStaff := extra.isStaff, isSuperuser := extra.isSuperuser) == extra
  {
    extra.(isStaff := Some(extra.isStaff.GetOr(true)), isSuperuser := Some(extra.isSuperuser.GetOr(true)))
  }

  lemma SuperuserFlags(users: seq<User>, phone: Option<string>, password: Option<string>, extra: ExtraFields)
    requires CreateUserStep(users, phone, password, SuperuserFields(extra)).result.Ok?
    ensures var u := CreateUserStep(users, phone, password, SuperuserFields(extra)).result.value;
      && u.isStaff == (extra.isStaff != Some(false))
      && u.isSuperuser == (extra.isSuperuser != Some(false))
  {
  }

  /** The account registered under `phone`, if any. */
  function FindByPhone(users: seq<User>, phone: string): (r: Option<User>)
    ensures r.Some? <==> PhoneTaken(users, phone)
    ensures r.Some? ==> r.value in users && r.value.phoneNumber == phone
  {
    if users == [] then None
    else if users[0].phoneNumber == phone then Some(users[0])
    else
      var r := FindByPhone(users[1..], phone);
      assert PhoneTaken(users, phone) ==> PhoneTaken(users[1..], phone) by {
        if PhoneTaken(users, phone) {
          var i :| 0 <= i < |users| && users[i].phoneNumber == phone;
          assert users[1..][i - 1] == users[i];
        }
      }
      r
  }

  /** The account is active, and the phone and password given are its own. */
  predicate CredentialsMatch(u: User, phone: Option<string>, password: Option<string>) {
    && Some(u.phoneNumber) == phone
    && password.Some? && CheckPassword(u.password, password.value)
    && u.isActive
  }

  /** authenticate(phone_number, password): the active account under that
      phone whose stored hash matches; one None for every kind of failure. */
  function Authenticate(users: seq<User>, phone: Option<string>, password: Option<string>): (r: Option<User>)
    requires UsersValid(users)
    ensures r.Some? <==> exists i :: 0 <= i < |users| && CredentialsMatch(users[i], phone, password)
    ensures r.Some? ==> r.value in users && Some(r.value.phoneNumber) == phone
  {
    if phone.None? || password.None? then None
    else match FindByPhone(users, phone.value)
      case None => None
      case Some(u) =>
        if CheckPassword(u.password, password.value) && u.isActive then Some(u) else None
  }

  /** The user table behind User.objects. */
  class UserStore {
    var users: seq<User>

    ghost predicate Valid()
      reads this
    {
      UsersValid(users)
    }

    constructor ()
      ensures Valid() && users == []
    {
      users := [];
    }

    /** create_user: refuses a missing or empty phone number, otherwise builds
        the row, hashes the password and saves it. */
    method CreateUser(phone: Option<string>, password: Option<string>, extra: ExtraFields) returns (r: Result<User>)
      requires Valid()
      modifies this
      ensures Valid()
      ensures r == CreateUserStep(old(users), phone, password, extra).result
      ensures users == CreateUserStep(old(users), phone, password, extra).after
    {
      if phone.None? || phone.value == "" {
        return Err(PhoneRequired);
      }
      var user := NewUser(|users| + 1, phone.value, password, extra);
      if PhoneTaken(users, phone.value) {
        return Err(DuplicatePhone);
      }
      users := users + [user];
      r := Ok(user);
    }

    /** create_superuser: fills in is_staff and is_superuser, then delegates. */
    method CreateSuperuser(phone: Option<string>, password: Option<string>, extra: ExtraFields) returns (r: Result<User>)
      requires Valid()
      modifies this
      ensures Valid()
      ensures r == CreateUserStep(old(users), phone, password, SuperuserFields(extra)).result
      ensures users == CreateUserStep(old(users), phone, password, SuperuserFields(extra)).after
    {
      var fields := extra;
      if fields.isStaff.None? {
        fields := fields.(isStaff := Some(true));
      }
      if fields.isSuperuser.None? {
        fields := fields.(isSuperuser := Some(true));
      }
      r := CreateUser(phone, password, fields);
    }
  }
}
