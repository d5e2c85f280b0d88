/**
 * The two client route guards: the admin guard, which needs a signed-in user
 * with an administrator role, and the protected-route guard, which needs a
 * token or the authenticated flag.
 */
module RouteGuards {
  import opened JsCore
  import opened ShopModel
  import opened AuthReducer

  /** What a guard renders: its children, or a navigation that replaces history. */
  datatype Decision = Render | Redirect(to: string, replace: bool)

  /** The two spellings of the administrator role the client accepts. */
  predicate IsAdminRole(role: string)
  {
    role == "admin" || role == "Admin"
  }

  /** A truthy `access_token`: present and not the empty string. */
  predicate HasToken(auth: AuthState)
  {
    auth.accessToken.Some? && auth.accessToken.value != ""
  }

  /** `AdminRoute`: to /signin without authentication or a user, to / without an administrator role. */
  function AdminRoute(auth: AuthState): (d: Decision)
    ensures d == Render <==> auth.isAuth && auth.user.Some? && IsAdminRole(auth.user.value.role)
    ensures d == Redirect("/signin", true) <==> !auth.isAuth || auth.user.None?
    ensures d.Redirect? ==> d.replace && (d.to == "/signin" || d.to == "/")
  {
    if !auth.isAuth || auth.user.None? then Redirect("/signin", true)
    else if !IsAdminRole(auth.user.value.role) then Redirect("/", true)
    else Render
  }

  /** `ProtectedRoute`: to /signin only when there is neither a truthy token nor the authenticated flag. */
  function ProtectedRoute(auth: AuthState): (d: Decision)
    ensures d == Render <==> HasToken(auth) || auth.isAuth
    ensures d != Render ==> d == Redirect("/signin", true)
  {
    if !HasToken(auth) && !auth.isAuth then Redirect("/signin", true) else Render
  }

  /** Whatever the admin guard lets through, the protected-route guard lets through too. */
  lemma AdminPassesProtected(auth: AuthState)
    requires AdminRoute(auth) == Render
    ensures ProtectedRoute(auth) == Render
  {
  }

  /** Either half of the protected-route condition alone is enough to render. */
  lemma ProtectedNeedsEitherHalf(auth: AuthState)
    ensures HasToken(auth) ==> ProtectedRoute(auth) == Render
    ensures auth.isAuth ==> ProtectedRoute(auth) == Render
    ensures auth.accessToken == Some("") && !auth.isAuth ==> ProtectedRoute(auth) == Redirect("/signin", true)
  {
  }

  /**
   * With the auth reducer as written, an administrator who signs in holds no
   * user in the store, so the admin guard sends them to /signin while the
   * protected routes open; reading the `user` property, the admin guard renders.
   */
  lemma AdminSignInSentToSignin(state: AuthState, token: string, u: User)
    requires IsAdminRole(u.role)
    ensures var r := Reduce(state, LoginSuccess(PagePayload(token, u)));
      AdminRoute(r) == Redirect("/signin", true) && ProtectedRoute(r) == Render
    ensures AdminRoute(ReduceFixed(state, LoginSuccess(PagePayload(token, u)))) == Render
  {
    LoginLosesUser(state, token, u);
    LoginKeepsUserFixed(state, token, u);
  }

  /** After signing out, both guards send the visitor to /signin. */
  lemma LogoutLocksBoth(state: AuthState)
    ensures AdminRoute(Reduce(state, Logout)) == Redirect("/signin", true)
    ensures ProtectedRoute(Reduce(state, Logout)) == Redirect("/signin", true)
  {
    LogoutResets(state);
  }
}
