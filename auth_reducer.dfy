/**
 * The authentication slice of the client store: the access token, the signed-in
 * user and two flags.
 */
module AuthReducer {
  import opened JsCore
  import opened ShopModel

  datatype AuthState = AuthState(accessToken: Option<string>, user: Option<User>, isAuth: bool, isLoading: bool)

  const Initial: AuthState := AuthState(None, None, false, false)

  /**
   * The payload of SIGNUP_SUCCESS and LOGIN_SUCCESS: a token and the
   * user-valued properties of the payload object, by property name (property
   * names are case-sensitive).
   */
  datatype AuthPayload = AuthPayload(token: string, users: seq<(string, User)>)

  datatype Action =
    | SignupRequest
    | SignupSuccess(payload: AuthPayload)
    | SignupFailure
    | LoginRequest
    | LoginSuccess(payload: AuthPayload)
    | LoginFailure
    | Logout
    | OtherAction

  /** The payload both sign-up and sign-in pages dispatch on success: `{ token, user }`. */
  function PagePayload(token: string, u: User): AuthPayload
  {
    AuthPayload(token, [("user", u)])
  }

  /** The reducer as written: success reads the user from the property `User`. */
  function Reduce(state: AuthState, action: Action): AuthState
  {
    ReduceReading(state, action, "User")
  }

  /** The reducer reading the property the pages set, `user`. */
  function ReduceFixed(state: AuthState, action: Action): AuthState
  {
    ReduceReading(state, action, "user")
  }

  function ReduceReading(state: AuthState, action: Action, userKey: string): AuthState
  {
    match action
    case SignupRequest => state.(isLoading := true)
    case SignupSuccess(p) => state.(accessToken := Some(p.token), user := Get(p.users, userKey), isAuth := true, isLoading := false)
    case SignupFailure => state.(isAuth := false, isLoading := false)
    case LoginRequest => state.(isLoading := true)
    case LoginSuccess(p) => state.(accessToken := Some(p.token), user := Get(p.users, userKey), isAuth := true, isLoading := false)
    case LoginFailure => state.(isAuth := false, isLoading := false)
    case Logout => Initial
    case OtherAction => state
  }

  /** Sign-up and sign-in success are the same transition, and both stop loading. */
  lemma SignupIsLogin(state: AuthState, p: AuthPayload)
    ensures Reduce(state, SignupSuccess(p)) == Reduce(state, LoginSuccess(p))
    ensures ReduceFixed(state, SignupSuccess(p)) == ReduceFixed(state, LoginSuccess(p))
    ensures Reduce(state, LoginSuccess(p)).isAuth && !Reduce(state, LoginSuccess(p)).isLoading
  {
  }

  /** Logging out returns to the initial state from anywhere. */
  lemma LogoutResets(state: AuthState)
    ensures Reduce(state, Logout) == Initial && !Reduce(state, Logout).isAuth
    ensures Reduce(state, Logout).accessToken.None? && Reduce(state, Logout).user.None?
  {
  }

  /** A failure clears the flags and keeps whatever token and user were held before. */
  lemma FailureKeepsCredentials(state: AuthState)
    ensures var r := Reduce(state, LoginFailure);
      !r.isAuth && !r.isLoading && r.accessToken == state.accessToken && r.user == state.user
    ensures Reduce(state, SignupFailure) == Reduce(state, LoginFailure)
  {
  }

  /**
   * As written, a successful sign-in from the login page leaves the store
   * authenticated, holding the token, but with no user.
   */
  lemma LoginLosesUser(state: AuthState, token: string, u: User)
    ensures var r := Reduce(state, LoginSuccess(PagePayload(token, u)));
      r.isAuth && r.accessToken == Some(token) && r.user.None?
  {
    assert Get([("user", u)], "User") == Get([], "User");
  }

  /** Reading the property the pages set, the signed-in user is stored. */
  lemma LoginKeepsUserFixed(state: AuthState, token: string, u: User)
    ensures var r := ReduceFixed(state, LoginSuccess(PagePayload(token, u)));
      r.isAuth && r.accessToken == Some(token) && r.user == Some(u)
  {
  }

  /** The success payloads carry exactly one user, under `user`, as the pages build them. */
  predicate PageAction(action: Action)
  {
    match action
    case SignupSuccess(p) => |p.users| == 1 && p.users[0].0 == "user"
    case LoginSuccess(p) => |p.users| == 1 && p.users[0].0 == "user"
    case _ => true
  }

  predicate SignedInHasUser(state: AuthState)
  {
    state.isAuth ==> state.user.Some? && state.accessToken.Some?
  }

  /** The fixed reducer keeps "authenticated implies a token and a user are held" across every page-issued action. */
  lemma FixedKeepsSignedInHasUser(state: AuthState, action: Action)
    requires SignedInHasUser(state) && PageAction(action)
    ensures SignedInHasUser(ReduceFixed(state, action))
  {
    match action
    case SignupSuccess(p) =>
      assert p == PagePayload(p.token, p.users[0].1);
    case LoginSuccess(p) =>
      assert p == PagePayload(p.token, p.users[0].1);
    case _ =>
  }

  /** A request only raises the loading flag; any other action returns the state it was given. */
  lemma RequestOnlyLoads(state: AuthState)
    ensures Reduce(state, LoginRequest) == state.(isLoading := true)
    ensures Reduce(state, SignupRequest) == Reduce(state, LoginRequest)
    ensures Reduce(state, OtherAction) == state
  {
  }
}
