/**
 * The authentication middleware: from the Authorization header, the token
 * verifier's verdict and the user lookup to either a signed-in request or
 * one of a fixed set of error codes; and the role check that follows it.
 */
module Protected {
  import opened JsCore
  import opened ShopModel

  /** The `code` of every refusal the middleware can send. */
  datatype AuthCode =
    | NoAuthHeader | InvalidAuthFormat | EmptyToken
    | InvalidToken | TokenExpired | TokenNotActive | InternalError
    | InvalidTokenPayload | DbError | UserNotFound

  function CodeName(c: AuthCode): string
  {
    match c
    case NoAuthHeader => "NO_AUTH_HEADER"
    case InvalidAuthFormat => "INVALID_AUTH_FORMAT"
    case EmptyToken => "EMPTY_TOKEN"
    case InvalidToken => "INVALID_TOKEN"
    case TokenExpired => "TOKEN_EXPIRED"
    case TokenNotActive => "TOKEN_NOT_ACTIVE"
    case InternalError => "INTERNAL_ERROR"
    case InvalidTokenPayload => "INVALID_TOKEN_PAYLOAD"
    case DbError => "DB_ERROR"
    case UserNotFound => "USER_NOT_FOUND"
  }

  /** Server-side failures are 500; every other refusal is 401. */
  function StatusOf(c: AuthCode): int
  {
    if c == InternalError || c == DbError then 500 else 401
  }

  /** What the token verifier does with a token: a decoded payload (with its `id`, if any) or a named error. */
  datatype VerifyOutcome =
    | Decoded(id: Option<string>)
    | JsonWebTokenError
    | TokenExpiredError(expiredAt: int)
    | NotBeforeError
    | OtherError

  /** What the user lookup does with an id. */
  datatype LookupOutcome = Found(user: User) | Missing | LookupFailed

  datatype AuthResult = Granted(user: User, token: string) | Denied(code: AuthCode)

  const BearerPrefix: string := "Bearer "

  /** `authHeader.split(" ")[1]`, absent when there is no second piece. */
  function TokenOf(header: string): Option<string>
  {
    var pieces := Split(header, ' ');
    if |pieces| > 1 then Some(pieces[1]) else None
  }

  /** After the token has been verified: the payload check and the user lookup. */
  function CheckPayload(decoded: VerifyOutcome, token: string, lookup: string -> LookupOutcome): AuthResult
  {
    match decoded
    case JsonWebTokenError => Denied(InvalidToken)
    case TokenExpiredError(_) => Denied(TokenExpired)
    case NotBeforeError => Denied(TokenNotActive)
    case OtherError => Denied(InternalError)
    case Decoded(id) =>
      if id.None? || id.value == "" then Denied(InvalidTokenPayload)
      else
        match lookup(id.value)
        case LookupFailed => Denied(DbError)
        case Missing => Denied(UserNotFound)
        case Found(u) => Granted(u, token)
  }

  /**
   * The decision `Protected` takes. `header` is the request's Authorization
   * header; `verify` and `lookup` stand for the token verifier and the user
   * collection.
   */
  function Authenticate(header: Option<string>, verify: string -> VerifyOutcome, lookup: string -> LookupOutcome): (r: AuthResult)
    ensures r.Granted? ==> header.Some? && StartsWith(header.value, BearerPrefix) && TokenOf(header.value) == Some(r.token)
    ensures r.Granted? ==> Trim(r.token) != "" && verify(r.token).Decoded? && verify(r.token).id.Some?
    ensures r.Granted? ==> lookup(verify(r.token).id.value) == Found(r.user)
  {
    if header.None? || header.value == "" then Denied(NoAuthHeader)
    else if !StartsWith(header.value, BearerPrefix) then Denied(InvalidAuthFormat)
    else
      var token := TokenOf(header.value);
      if token.None? || token.value == "" || Trim(token.value) == "" then Denied(EmptyToken)
      else CheckPayload(verify(token.value), token.value, lookup)
  }

  /** The request object the middleware writes to on success, and whether it handed on to the next handler. */
  class Request {
    var user: Option<User>
    var token: Option<string>
    var nextCalled: bool

    constructor()
      ensures user.None? && token.None? && !nextCalled
    {
      user := None;
      token := None;
      nextCalled := false;
    }

    /**
     * `Protected`: on success sets `user` and `token` and calls the next
     * handler; on any refusal returns its status and code and leaves the
     * request as it was.
     */
    method Protect(header: Option<string>, verify: string -> VerifyOutcome, lookup: string -> LookupOutcome)
      returns (refusal: Option<(int, AuthCode)>)
      modifies this
      ensures match Authenticate(header, verify, lookup)
        case Granted(u, t) => refusal.None? && user == Some(u) && token == Some(t) && nextCalled
        case Denied(c) => refusal == Some((StatusOf(c), c)) && user == old(user) && token == old(token) && nextCalled == old(nextCalled)
    {
      var result := Authenticate(header, verify, lookup);
      if result.Denied? {
        return Some((StatusOf(result.code), result.code));
      }
      user := Some(result.user);
      token := Some(result.token);
      nextCalled := true;
      return None;
    }
  }

  /** The token is the text between "Bearer " and the next space. */
  lemma TokenAfterBearer(t: string, rest: string)
    requires ' ' !in t
    ensures TokenOf(BearerPrefix + t) == Some(t)
    ensures TokenOf(BearerPrefix + t + [' '] + rest) == Some(t)
  {
    var b := "Bearer";
    assert ' ' !in b;
    assert BearerPrefix + t == b + [' '] + t;
    SplitAfter(b, t, ' ');
    SplitNoSep(t, ' ');
    assert BearerPrefix + t + [' '] + rest == b + [' '] + (t + [' '] + rest);
    SplitAfter(b, t + [' '] + rest, ' ');
    SplitAfter(t, rest, ' ');
  }

  /** "Bearer " with nothing after it is an empty token, not a malformed header. */
  lemma BareBearerIsEmptyToken(verify: string -> VerifyOutcome, lookup: string -> LookupOutcome)
    ensures Authenticate(Some(BearerPrefix), verify, lookup) == Denied(EmptyToken)
  {
    TokenAfterBearer("", "");
    assert BearerPrefix + "" == BearerPrefix;
  }

  /** The scheme is matched exactly: a lower-case "bearer" is a format error whatever follows. */
  lemma SchemeIsCaseSensitive(rest: string, verify: string -> VerifyOutcome, lookup: string -> LookupOutcome)
    ensures Authenticate(Some("bearer " + rest), verify, lookup) == Denied(InvalidAuthFormat)
  {
    assert ("bearer " + rest)[0] == 'b';
  }

  /**
   * A well-formed header reaches the verifier with its token, and access is
   * granted exactly when the verifier decodes a non-empty id and the lookup
   * finds that user.
   */
  lemma GrantedExactly(t: string, verify: string -> VerifyOutcome, lookup: string -> LookupOutcome)
    requires ' ' !in t && Trim(t) != ""
    ensures Authenticate(Some(BearerPrefix + t), verify, lookup).Granted?
        <==> (verify(t).Decoded? && verify(t).id.Some? && verify(t).id.value != "" && lookup(verify(t).id.value).Found?)
    ensures Authenticate(Some(BearerPrefix + t), verify, lookup) == CheckPayload(verify(t), t, lookup)
  {
    TokenAfterBearer(t, "");
    assert StartsWith(BearerPrefix + t, BearerPrefix) by {
      assert (BearerPrefix + t)[..|BearerPrefix|] == BearerPrefix;
    }
  }

  /** Which verifier errors and lookup results give which codes, and which codes are server errors. */
  lemma PayloadCodes(token: string, lookup: string -> LookupOutcome, expiredAt: int)
    ensures CheckPayload(JsonWebTokenError, token, lookup) == Denied(InvalidToken)
    ensures CheckPayload(TokenExpiredError(expiredAt), token, lookup) == Denied(TokenExpired)
    ensures CheckPayload(NotBeforeError, token, lookup) == Denied(TokenNotActive)
    ensures CheckPayload(OtherError, token, lookup) == Denied(InternalError)
    ensures CheckPayload(Decoded(None), token, lookup) == Denied(InvalidTokenPayload)
    ensures forall c :: StatusOf(c) == 500 <==> c == InternalError || c == DbError
  {
  }

  // ------------------------------------------------------------- restrictTo

  datatype RoleCheck = Next | Refused(status: int, code: string)

  /** `restrictTo(...roles)` applied to the request's user. */
  function RestrictTo(user: Option<User>, roles: seq<string>): (r: RoleCheck)
    ensures r.Next? <==> user.Some? && user.value.role != "" && user.value.role in roles
    ensures r.Refused? ==> (r.status == 401 <==> user.None?) && r.status in {401, 403}
  {
    if user.None? then Refused(401, "USER_NOT_AUTHENTICATED")
    else if user.value.role == "" then Refused(403, "ROLE_NOT_DEFINED")
    else if user.value.role !in roles then Refused(403, "INSUFFICIENT_PERMISSIONS")
    else Next
  }

  /**
   * The product routes allow the role "admin" only; the user schema also
   * admits "Admin", and such a user is refused there.
   */
  lemma CapitalAdminRefused(u: User)
    requires u.role == "Admin"
    ensures RestrictTo(Some(u), ["admin"]) == Refused(403, "INSUFFICIENT_PERMISSIONS")
  {
    assert "Admin"[0] != "admin"[0];
  }

  /** A request that `Protected` let through always carries a user for the role check. */
  lemma ProtectThenRestrict(header: Option<string>, verify: string -> VerifyOutcome, lookup: string -> LookupOutcome, roles: seq<string>)
    requires Authenticate(header, verify, lookup).Granted?
    ensures RestrictTo(Some(Authenticate(header, verify, lookup).user), roles).Refused? ==>
              RestrictTo(Some(Authenticate(header, verify, lookup).user), roles).status == 403
  {
  }
}
