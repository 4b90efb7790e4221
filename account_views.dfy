/** The account views: registration, the caller's own profile, and login
    reduced to the credential check it rests on. */
module AccountViews {
  import opened Common
  import opened Accounts
  import opened Serializers

  datatype Registration = Registration(result: Result<Profile>, after: seq<User>)

  /** RegisterView: validate with RegisterSerializer, hand every validated
      field to create_user, echo the new row without its password. */
  function RegisterStep(users: seq<User>, req: RegisterRequest): (s: Registration)
    ensures s.result.Ok? <==> RegistrationErrors(req, users) == {}
    ensures s.result.Err? ==> s.result.error == Invalid(RegistrationErrors(req, users)) && s.after == users
    ensures s.result.Ok? ==>
      && |s.after| == |users| + 1 && s.after[..|users|] == users
      && var u := s.after[|users|];
      && u.id == |users| + 1
      && Some(u.phoneNumber) == req.phoneNumber && 0 < |u.phoneNumber| <= PHONE_MAX_LENGTH
      && u.password == HashOf(req.password.value)
      && u.role.Some? && Some(RoleName(u.role.value)) == req.role
      && u.fullName == req.fullName && u.age == req.age && u.carModel == req.carModel
      && (u.gender.Some? <==> req.gender.Some? && req.gender.value != "")
      && (u.gender.Some? ==> Some(GenderName(u.gender.value)) == req.gender)
      && u.isActive && !u.isStaff && !u.isSuperuser && u.groups == {}
      && s.result.value == ProfileOf(u)
    ensures UsersValid(users) ==> UsersValid(s.after)
  {
    match ValidateRegistration(req, users)
    case Err(e) => Registration(Err(e), users)
    case Ok(args) =>
      var created := CreateUserStep(users, args.phoneNumber, args.password, args.extra);
      match created.result
      case Err(e) => Registration(Err(e), created.after)
      case Ok(u) => Registration(Ok(ProfileOf(u)), created.after)
  }

  /** CreateAPIView.create over RegisterSerializer, on the user table. */
  method Register(store: UserStore, req: RegisterRequest) returns (r: Result<Profile>)
    requires store.Valid()
    modifies store
    ensures store.Valid()
    ensures r == RegisterStep(old(store.users), req).result
    ensures store.users == RegisterStep(old(store.users), req).after
  {
    var validated := ValidateRegistration(req, store.users);
    match validated {
      case Err(e) =>
        r := Err(e);
      case Ok(args) =>
        var created := store.CreateUser(args.phoneNumber, args.password, args.extra);
        match created {
          case Err(e) => r := Err(e);
          case Ok(u) => r := Ok(ProfileOf(u));
        }
    }
  }

  /** A phone number registered once cannot be registered again; the second
      attempt reports phone_number and leaves the table as it was. */
  lemma RegisterTwiceFails(users: seq<User>, first: RegisterRequest, second: RegisterRequest)
    requires RegisterStep(users, first).result.Ok?
    requires second.phoneNumber == first.phoneNumber
    ensures var after := RegisterStep(users, first).after;
      && RegisterStep(after, second).result.Err?
      && RegisterStep(after, second).result.error.Invalid?
      && PhoneNumberField in RegisterStep(after, second).result.error.fields
      && RegisterStep(after, second).after == after
  {
    var after := RegisterStep(users, first).after;
    assert after[|users|].phoneNumber == first.phoneNumber.value;
    assert PhoneTaken(after, first.phoneNumber.value);
  }

  /** The response to a registration does not depend on the password sent. */
  lemma RegistrationHidesPassword(users: seq<User>, req: RegisterRequest, other: string)
    requires !BadPassword(req.password) && !BadPassword(Some(other))
    ensures RegisterStep(users, req).result == RegisterStep(users, req.(password := Some(other))).result
  {
  }

  /** PersonalInfoView: the caller's own account, through UserSerializer. */
  function PersonalInfo(caller: Option<User>): (r: Result<Profile>)
    ensures r.Err? <==> caller.None?
    ensures r.Err? ==> r.error == NotAuthenticated
    ensures r.Ok? ==> r.value.phoneNumber == caller.value.phoneNumber && r.value.role == caller.value.role
    ensures r.Ok? ==> r.value.fullName == caller.value.fullName && r.value.gender == caller.value.gender
    ensures r.Ok? ==> r.value.age == caller.value.age && r.value.carModel == caller.value.carModel
  {
    match caller
    case None => Err(NotAuthenticated)
    case Some(u) => Ok(ProfileOf(u))
  }

  /** LoginView: the key of the account the issued tokens are bound to, or
      one generic failure whether the phone is unknown or the password wrong. */
  function Login(users: seq<User>, phone: Option<string>, password: Option<string>): (r: Result<nat>)
    requires UsersValid(users)
    ensures r.Ok? <==> exists i :: 0 <= i < |users| && CredentialsMatch(users[i], phone, password)
    ensures r.Err? ==> r.error == BadCredentials
    ensures r.Ok? ==> exists i :: 0 <= i < |users| && users[i].id == r.value && CredentialsMatch(users[i], phone, password)
  {
    match Authenticate(users, phone, password)
    case None => Err(BadCredentials)
    case Some(u) =>
      assert exists i :: 0 <= i < |users| && users[i] == u;
      Ok(u.id)
  }

  /** The account appended under a fresh phone is the one found by that phone. */
  lemma {:induction false} NewAccountIsFound(users: seq<User>, after: seq<User>, phone: string)
    requires UsersValid(after) && |after| == |users| + 1 && after[|users|].phoneNumber == phone
    ensures FindByPhone(after, phone) == Some(after[|users|])
  {
    var found := FindByPhone(after, phone);
    var i :| 0 <= i < |after| && after[i] == found.value;
    assert after[i].phoneNumber == after[|users|].phoneNumber;
  }

  /** A user who has just registered can log in with the same phone and
      password, and the tokens are bound to the new account. */
  lemma RegisteredUserCanLogIn(users: seq<User>, req: RegisterRequest)
    requires UsersValid(users) && RegisterStep(users, req).result.Ok?
    ensures var after := RegisterStep(users, req).after;
      Login(after, req.phoneNumber, req.password) == Ok(|users| + 1)
  {
    var after := RegisterStep(users, req).after;
    var n := |users|;
    NewAccountIsFound(users, after, req.phoneNumber.value);
    assert CheckPassword(after[n].password, req.password.value) && after[n].isActive;
    assert Authenticate(after, req.phoneNumber, req.password) == Some(after[n]);
  }
}
