/** `Authenticate`, `Authorize` and `parseAccessTokenFromCookie`. Token
    verification (signature, expiry) is a parameter. */
module AuthMiddleware {
  import opened Wrappers
  import opened Jwt
  import UserModel

  /** What a middleware does with the request: pass it on, abort it with a
      status and an error body, or panic (an unchecked type assertion). */
  datatype Decision = Next | Abort(status: nat, error: string) | Panicked

  const StatusUnauthorized: nat := 401
  const Unauthorized: Decision := Abort(StatusUnauthorized, "Unauthorized")

  /** The loop over `allowedRoles`: some allowed role's text equals `role`. */
  function RoleAllowed(role: string, allowed: seq<UserModel.Role>): (b: bool)
    ensures b <==> exists i :: 0 <= i < |allowed| && UserModel.RoleName(allowed[i]) == role
  {
    if |allowed| == 0 then false
    else if UserModel.RoleName(allowed[0]) == role then true
    else
      var b := RoleAllowed(role, allowed[1..]);
      assert forall i :: 1 <= i < |allowed| ==> allowed[i] == allowed[1..][i - 1];
      b
  }

  /** `Authorize(mandatory, allowedRoles...)` on the context entry "user". A
      missing identity passes unless the gate is mandatory. A present one
      passes only when its claims hold a text `role` equal to an allowed role. */
  function Authorize(user: Option<StoredValue>, mandatory: bool, allowed: seq<UserModel.Role>): (d: Decision)
    ensures d.Abort? ==> d == Unauthorized
    ensures user.None? ==> (d == Next <==> !mandatory) && (d == Unauthorized <==> mandatory)
    ensures user == Some(Foreign) <==> d == Panicked
    ensures user.Some? && user.value.MapClaims? ==>
              (d == Next <==> "role" in user.value.claims && user.value.claims["role"].CStr?
                              && exists i :: 0 <= i < |allowed| && UserModel.RoleName(allowed[i]) == user.value.claims["role"].s)
    ensures user.Some? && |allowed| == 0 ==> d != Next
  {
    match user
    case None => if mandatory then Unauthorized else Next
    case Some(Foreign) => Panicked
    case Some(MapClaims(claims)) =>
      if !("role" in claims && claims["role"].CStr?) then Unauthorized
      else if RoleAllowed(claims["role"].s, allowed) then Next
      else Unauthorized
  }

  /** The failures of `parseAccessTokenFromCookie`. */
  datatype TokenError = NoTokenFound | InvalidToken

  /** `parseAccessTokenFromCookie`: the `accessToken` cookie, if any, checked by
      `verify`, which returns the claims of a token that verifies. */
  function ParseAccessTokenFromCookie(cookie: Option<string>, verify: string -> Option<Claims>): (r: Result<Claims, TokenError>)
    ensures r == Failure(NoTokenFound) <==> cookie.None?
    ensures r == Failure(InvalidToken) <==> cookie.Some? && verify(cookie.value).None?
    ensures r.Success? ==> cookie.Some? && verify(cookie.value) == Some(r.value)
  {
    match cookie
    case None => Failure(NoTokenFound)
    case Some(token) =>
      match verify(token)
      case None => Failure(InvalidToken)
      case Some(claims) => Success(claims)
  }

  /** `Authenticate`: never aborts; the context entry "user" it leaves is the
      verified claims, or nothing when the cookie is missing or does not verify. */
  function Authenticate(cookie: Option<string>, verify: string -> Option<Claims>): (user: Option<StoredValue>)
    ensures user.Some? <==> cookie.Some? && verify(cookie.value).Some?
    ensures user.Some? ==> user.value == MapClaims(verify(cookie.value).value)
  {
    match ParseAccessTokenFromCookie(cookie, verify)
    case Success(claims) => Some(MapClaims(claims))
    case Failure(_) => None
  }

  /** Whatever `Authenticate` leaves, a later `Authorize` never panics. */
  lemma AuthenticatedNeverPanics(cookie: Option<string>, verify: string -> Option<Claims>,
                                 mandatory: bool, allowed: seq<UserModel.Role>)
    ensures Authorize(Authenticate(cookie, verify), mandatory, allowed) != Panicked
  {
  }

  /** A present identity whose claims carry no text `role` is rejected,
      whatever the gate. */
  lemma NoRoleClaimRejected(claims: Claims, mandatory: bool, allowed: seq<UserModel.Role>)
    requires "role" !in claims || !claims["role"].CStr?
    ensures Authorize(Some(MapClaims(claims)), mandatory, allowed) == Unauthorized
  {
  }
}
