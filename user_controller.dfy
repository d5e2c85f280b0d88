/**
 * The account handlers: registration, sign-in and token refresh. The user
 * collection is a map from the stored e-mail address to the account; password
 * hashing and comparison and the token verifier are parameters.
 */
module UserController {
  import opened JsCore
  import opened ShopModel
  import Protected

  type Obj = seq<(string, JsValue)>

  /** A stored account: the public user record and the password hash. */
  datatype Account = Account(user: User, passwordHash: string)

  /** The user collection, keyed by stored e-mail address. */
  type Users = map<string, Account>

  /** A JSON reply: status, message and, on success, the user sent back with the token. */
  datatype Reply = Reply(status: int, message: string, user: Option<User>)

  const RequiredMessage: string := "Please provide all required fields: name, email, and password."
  const ReservedMessage: string := "This email is reserved. Please use a different email."
  const ExistsMessage: string := "User already exists with this email."
  const RegisterErrorMessage: string := "Internal server error during registration."
  const LoginRequiredMessage: string := "Please provide both email and password."
  const BadCredentialsMessage: string := "Invalid email or password."
  const LoginErrorMessage: string := "Internal server error during login."

  /** A destructured body property: absent reads as `undefined`. */
  function Field(body: Obj, key: string): JsValue
  {
    var v := Get(body, key);
    if v.Some? then v.value else Undefined
  }

  /** A destructured property with default `""`: only an absent one takes the default. */
  function WithDefault(v: JsValue): JsValue
  {
    if v == Undefined then Str("") else v
  }

  /** The address a registration is stored under and looked up by. */
  function Normalize(email: string): string
  {
    ToLower(Trim(email))
  }

  /**
   * After the field checks and the reserved-address check: the lookup and the
   * creation. The new account always has the role "user"; the schema trims the
   * password before it is hashed.
   */
  function CreateAccount(users: Users, name: string, email: string, password: string, photo: JsValue, newId: string, hash: string -> string): (r: (Reply, Users))
    ensures r.0.status == 201 <==> Normalize(email) !in users
    ensures r.0.status == 201 ==> r.0.user.Some? && r.0.user.value.email == Normalize(email)
    ensures r.0.status != 201 ==> r.1 == users && r.0.user.None?
  {
    var key := Normalize(email);
    if key in users then (Reply(400, ExistsMessage, None), users)
    else
      var u := User(newId, Trim(name), key, "user", if photo.Str? then photo.s else "");
      (Reply(201, "User registered successfully.", Some(u)), users[key := Account(u, hash(Trim(password)))])
  }

  /** The body properties `Register` destructures; `Undefined` stands for an absent one. */
  datatype SignupBody = SignupBody(name: JsValue, email: JsValue, password: JsValue, photo: JsValue)

  /** The three text fields of a registration body, all strings with something besides whitespace. */
  predicate WellFormed(body: SignupBody)
  {
    && body.name.Str? && Trim(body.name.s) != ""
    && body.email.Str? && Trim(body.email.s) != ""
    && body.password.Str? && Trim(body.password.s) != ""
  }

  /**
   * The check of one field of `Register`: a missing property defaults to "",
   * a blank one is refused with 400 and one that is not a string cannot be
   * trimmed, which throws into the catch (500).
   */
  function FieldError(v: JsValue): (r: Option<Reply>)
    ensures r.None? <==> v.Str? && Trim(v.s) != ""
    ensures r.Some? ==> r.value.user.None?
    ensures r.Some? ==> (r.value.status == 400 <==> v == Undefined || (v.Str? && Trim(v.s) == ""))
    ensures r.Some? ==> r.value.status in {400, 500}
  {
    var w := WithDefault(v);
    if !w.Str? then Some(Reply(500, RegisterErrorMessage, None))
    else if Trim(w.s) == "" then Some(Reply(400, RequiredMessage, None))
    else None
  }

  /** The field checks of `Register`, name first, then e-mail, then password. */
  function FieldsError(body: SignupBody): (r: Option<Reply>)
    ensures r.None? <==> WellFormed(body)
    ensures r.Some? ==> r.value.status in {400, 500} && r.value.user.None?
  {
    var n := FieldError(body.name);
    if n.Some? then n
    else
      var e := FieldError(body.email);
      if e.Some? then e else FieldError(body.password)
  }

  /** The reserved-address comparison, as written on the raw input or on the normalized address. */
  predicate IsReserved(email: string, reserved: string, normalizeFirst: bool)
  {
    (if normalizeFirst then Normalize(email) else ToLower(email)) == ToLower(reserved)
  }

  /**
   * `Register`. `superAdminEmail` is the configured reserved address, if
   * any (reading it when it is unset throws: 500); `normalizeFirst` chooses
   * between the check as written (the lower-cased raw input) and the
   * corrected one (the normalized address).
   */
  function RegisterWith(users: Users, body: SignupBody, superAdminEmail: Option<string>, newId: string, hash: string -> string, normalizeFirst: bool): (r: (Reply, Users))
    ensures r.0.status != 201 ==> r.1 == users && r.0.user.None?
    ensures r.0.status == 201 ==> r.0.user.Some?
  {
    var err := FieldsError(body);
    if err.Some? then (err.value, users)
    else if superAdminEmail.None? then (Reply(500, RegisterErrorMessage, None), users)
    else if IsReserved(body.email.s, superAdminEmail.value, normalizeFirst) then (Reply(400, ReservedMessage, None), users)
    else CreateAccount(users, body.name.s, body.email.s, body.password.s, body.photo, newId, hash)
  }

  /** `Register` as written. */
  function Register(users: Users, body: SignupBody, superAdminEmail: Option<string>, newId: string, hash: string -> string): (r: (Reply, Users))
    ensures r.0.status != 201 ==> r.1 == users
    ensures r.0.status == 201 ==> r.0.user.Some?
  {
    RegisterWith(users, body, superAdminEmail, newId, hash, false)
  }

  /** `Register` with the reserved-address check on the normalized address. */
  function RegisterFixed(users: Users, body: SignupBody, superAdminEmail: Option<string>, newId: string, hash: string -> string): (r: (Reply, Users))
    ensures r.0.status != 201 ==> r.1 == users
    ensures r.0.status == 201 ==> r.0.user.Some?
  {
    RegisterWith(users, body, superAdminEmail, newId, hash, true)
  }

  /**
   * A registration succeeds exactly when the fields are present, an address
   * is configured, the address is not the reserved one and nobody has it yet;
   * the account is stored under the normalized address with the role "user",
   * whatever role the body asks for.
   */
  lemma RegisterSpec(users: Users, body: SignupBody, admin: string, newId: string, hash: string -> string)
    ensures var (r, after) := Register(users, body, Some(admin), newId, hash);
      && (r.status == 201 <==>
            WellFormed(body) && ToLower(body.email.s) != ToLower(admin) && Normalize(body.email.s) !in users)
      && (r.status == 201 ==>
            var key := Normalize(body.email.s);
            && r.user.Some? && r.user.value.role == "user" && r.user.value.email == key
            && r.user.value.name == Trim(body.name.s)
            && after == users[key := Account(r.user.value, hash(Trim(body.password.s)))])
  {
  }

  /** A blank name is refused first, with 400, whatever the other fields hold and whatever is configured. */
  lemma BlankNameRefused(users: Users, body: SignupBody, superAdminEmail: Option<string>, newId: string, hash: string -> string)
    requires body.name.Str? && Trim(body.name.s) == ""
    ensures FieldsError(body) == Some(Reply(400, RequiredMessage, None))
    ensures Register(users, body, superAdminEmail, newId, hash) == (Reply(400, RequiredMessage, None), users)
  {
    assert FieldsError(body) == Some(Reply(400, RequiredMessage, None));
    FieldsRefused(users, body, superAdminEmail, newId, hash);
  }

  /** A body the field checks refuse gets their reply, whatever the configuration and the stored users. */
  lemma FieldsRefused(users: Users, body: SignupBody, superAdminEmail: Option<string>, newId: string, hash: string -> string)
    requires FieldsError(body).Some?
    ensures Register(users, body, superAdminEmail, newId, hash) == (FieldsError(body).value, users)
    ensures RegisterFixed(users, body, superAdminEmail, newId, hash) == (FieldsError(body).value, users)
  {
  }

  /** With no reserved address configured, every well-formed registration fails with a server error. */
  lemma NoReservedAddressConfigured(users: Users, body: SignupBody, newId: string, hash: string -> string)
    requires WellFormed(body)
    ensures Register(users, body, None, newId, hash) == (Reply(500, RegisterErrorMessage, None), users)
  {
  }

  /**
   * As written, the reserved address (say "admin@shop.com") with a leading
   * space passes the reserved check and, when no account holds it yet, is
   * registered under the reserved address itself.
   */
  lemma ReservedBypassedBySpace(users: Users, admin: string, name: string, password: string, newId: string, hash: string -> string)
    requires admin != "" && IsTrimmed(admin) && ToLower(admin) == admin && admin !in users
    requires Trim(name) != "" && Trim(password) != ""
    ensures var body := SignupBody(Str(name), Str(" " + admin), Str(password), Undefined);
      var (r, after) := Register(users, body, Some(admin), newId, hash);
      r.status == 201 && r.user.value.email == admin && admin in after
  {
    var e := " " + admin;
    var body := SignupBody(Str(name), Str(e), Str(password), Undefined);
    LeadingSpaceTrimmed(admin);
    assert Normalize(e) == admin;
    assert FieldsError(body).None?;
    assert !IsReserved(e, admin, false) by {
      assert |ToLower(e)| != |ToLower(admin)|;
    }
    assert Register(users, body, Some(admin), newId, hash) == CreateAccount(users, name, e, password, Undefined, newId, hash);
  }

  lemma LeadingSpaceTrimmed(a: string)
    requires a != "" && IsTrimmed(a)
    ensures Trim(" " + a) == a
  {
    var e := " " + a;
    assert e[1..] == a;
    assert TrimStart(e) == TrimStart(a);
    assert TrimStart(a) == a;
    TrimOfTrimmed(a);
  }

  /** With the check on the normalized address, no variant of the reserved address is ever registered. */
  lemma FixedNeverRegistersReserved(users: Users, body: SignupBody, admin: string, newId: string, hash: string -> string)
    requires RegisterFixed(users, body, Some(admin), newId, hash).0.status == 201
    ensures body.email.Str? && Normalize(body.email.s) != ToLower(admin)
    ensures RegisterFixed(users, body, Some(admin), newId, hash).0.user.value.email != ToLower(admin)
  {
    assert WellFormed(body);
    var r := CreateAccount(users, body.name.s, body.email.s, body.password.s, body.photo, newId, hash);
    assert RegisterFixed(users, body, Some(admin), newId, hash) == r;
  }

  // ------------------------------------------------------------- login

  /**
   * `Login` on the destructured `email` and `password` (`Undefined` when
   * absent): `matches(plain, hash)` stands for the password comparison. Both
   * an unknown address and a wrong password give the same refusal.
   */
  function Login(users: Users, email: JsValue, password: JsValue, matches: (string, string) -> bool): (r: Reply)
    ensures r.status == 200 ==> r.user.Some? && email.Str? && Normalize(email.s) in users
    ensures r.status == 200 ==> r.user.value == users[Normalize(email.s)].user
    ensures r.status in {200, 400, 401, 500}
  {
    if !Truthy(email) || !Truthy(password) then Reply(400, LoginRequiredMessage, None)
    else if !email.Str? || !password.Str? then Reply(500, LoginErrorMessage, None)
    else
      var key := Normalize(email.s);
      if key !in users then Reply(401, BadCredentialsMessage, None)
      else if !matches(Trim(password.s), users[key].passwordHash) then Reply(401, BadCredentialsMessage, None)
      else Reply(200, "Login successful", Some(users[key].user))
  }

  /** The refusal does not reveal whether the address exists. */
  lemma SameRefusal(users: Users, email: JsValue, password: JsValue, matches: (string, string) -> bool)
    requires Login(users, email, password, matches).status == 401
    ensures Login(users, email, password, matches) == Reply(401, BadCredentialsMessage, None)
  {
  }

  /**
   * Registering and then signing in with the same address (in any letter case,
   * with any surrounding whitespace) and password returns the new user, given a
   * comparison that accepts what the hash produced.
   */
  lemma RegisterThenLogin(users: Users, body: SignupBody, admin: string, newId: string, hash: string -> string,
                          matches: (string, string) -> bool, email: string, password: string)
    requires forall p :: matches(p, hash(p))
    requires Register(users, body, Some(admin), newId, hash).0.status == 201
    requires Normalize(email) == Normalize(body.email.s)
    requires Trim(password) == Trim(body.password.s) && password != ""
    requires email != ""
    ensures var (r, after) := Register(users, body, Some(admin), newId, hash);
      Login(after, Str(email), Str(password), matches) == Reply(200, "Login successful", r.user)
  {
    RegisterSpec(users, body, admin, newId, hash);
    var (r, after) := Register(users, body, Some(admin), newId, hash);
    var key := Normalize(email);
    assert key in after && after[key] == Account(r.user.value, hash(Trim(password)));
    LoginFound(after, email, password, matches);
  }

  /** A known address with a matching password signs in as the stored user. */
  lemma LoginFound(users: Users, email: string, password: string, matches: (string, string) -> bool)
    requires email != "" && password != ""
    requires Normalize(email) in users && matches(Trim(password), users[Normalize(email)].passwordHash)
    ensures Login(users, Str(email), Str(password), matches) == Reply(200, "Login successful", Some(users[Normalize(email)].user))
  {
  }

  // ------------------------------------------------------------- refresh

  /**
   * Where `refreshToken` takes the token from: a header that starts with
   * "Bearer" gives its second space-separated piece (possibly none), and only
   * otherwise the `jwt` cookie.
   */
  function RefreshTokenSource(authorization: Option<string>, cookie: Option<string>): Option<string>
  {
    if authorization.Some? && authorization.value != "" && StartsWith(authorization.value, "Bearer") then
      Protected.TokenOf(authorization.value)
    else if cookie.Some? && cookie.value != "" then cookie
    else None
  }

  /**
   * `refreshToken`. `verifierImported` says whether the verifier name is in
   * scope: as written it is not, and calling it throws into the catch.
   */
  function RefreshWith(authorization: Option<string>, cookie: Option<string>, verifierImported: bool,
                       verify: string -> Protected.VerifyOutcome, lookup: string -> Protected.LookupOutcome): (r: Reply)
    ensures r.status in {200, 401}
  {
    var token := RefreshTokenSource(authorization, cookie);
    if token.None? || token.value == "" then Reply(401, "You are not logged in", None)
    else if !verifierImported then Reply(401, "Invalid token", None)
    else
      match verify(token.value)
      case Decoded(id) =>
        if id.None? then Reply(401, "User no longer exists", None)
        else (
          match lookup(id.value)
          case Found(u) => Reply(200, "", Some(u))
          case Missing => Reply(401, "User no longer exists", None)
          case LookupFailed => Reply(401, "Invalid token", None))
      case _ => Reply(401, "Invalid token", None)
  }

  function RefreshToken(authorization: Option<string>, cookie: Option<string>,
                        verify: string -> Protected.VerifyOutcome, lookup: string -> Protected.LookupOutcome): (r: Reply)
    ensures r.status == 401
  {
    RefreshWith(authorization, cookie, false, verify, lookup)
  }

  function RefreshTokenFixed(authorization: Option<string>, cookie: Option<string>,
                             verify: string -> Protected.VerifyOutcome, lookup: string -> Protected.LookupOutcome): (r: Reply)
    ensures r.status == 200 ==> r.user.Some?
  {
    RefreshWith(authorization, cookie, true, verify, lookup)
  }

  /**
   * As written, a refresh never succeeds: with no token it is "You are not
   * logged in", with any token "Invalid token", whatever the verifier would say.
   */
  lemma RefreshNeverSucceeds(authorization: Option<string>, cookie: Option<string>,
                             verify: string -> Protected.VerifyOutcome, lookup: string -> Protected.LookupOutcome)
    ensures var token := RefreshTokenSource(authorization, cookie);
      RefreshToken(authorization, cookie, verify, lookup)
        == if token.None? || token.value == "" then Reply(401, "You are not logged in", None) else Reply(401, "Invalid token", None)
  {
  }

  /** With the verifier in scope, a cookie token that decodes to an existing user is refreshed. */
  lemma FixedRefreshSucceeds(cookie: string, id: string, u: User,
                             verify: string -> Protected.VerifyOutcome, lookup: string -> Protected.LookupOutcome)
    requires cookie != "" && verify(cookie) == Protected.Decoded(Some(id)) && lookup(id) == Protected.Found(u)
    ensures RefreshTokenFixed(None, Some(cookie), verify, lookup) == Reply(200, "", Some(u))
    ensures RefreshToken(None, Some(cookie), verify, lookup) == Reply(401, "Invalid token", None)
  {
  }

  /** A "Bearer" header without a second piece does not fall back to the cookie. */
  lemma BearerWithoutTokenIgnoresCookie(cookie: string)
    ensures RefreshTokenSource(Some("Bearer"), Some(cookie)) == None
  {
    SplitNoSep("Bearer", ' ');
  }
}
