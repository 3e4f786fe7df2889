/** `GetCurrentUser`: the user id and role read from the verified claims the
    request context holds under "user". */
module CurrentUser {
  import opened Wrappers
  import opened Jwt
  import Decimal
  import UserModel

  /** `CurrentUser`; `role == None` is the empty `UserRole`. */
  datatype CurrentUser = CurrentUser(id: nat, role: Option<UserModel.Role>)

  datatype CurrentUserError =
    | UserNotFound          // "unauthorized: user not found"
    | InvalidTokenData      // "unauthorized: invalid token data"
    | InvalidUserIdFormat   // "unauthorized: invalid user ID format"
    | UserIdMissingOrInvalid // "unauthorized: user ID missing or invalid"

  /** The role named by an `aud` claim: only a text claim that names one of
      the three roles gives a role; anything else is the empty role. */
  function AudienceRole(claims: Claims): (r: Option<UserModel.Role>)
    ensures r.Some? <==> "aud" in claims && claims["aud"].CStr? && UserModel.ParseUserRole(claims["aud"].s).Success?
    ensures r.Some? ==> UserModel.RoleName(r.value) == claims["aud"].s
  {
    var text := if "aud" in claims && claims["aud"].CStr? then claims["aud"].s else "";
    match UserModel.ParseUserRole(text)
    case Success(role) => Some(role)
    case Failure(_) => None
  }

  /** `GetCurrentUser`. A text `sub` must be an unsigned decimal below 2^64; a
      numeric `sub` is taken as it is; any other or missing `sub` is an error.
      A missing or unknown `aud` is not an error. */
  function GetCurrentUser(user: Option<StoredValue>): (r: Result<CurrentUser, CurrentUserError>)
    ensures user.None? <==> r == Failure(UserNotFound)
    ensures user == Some(Foreign) <==> r == Failure(InvalidTokenData)
    ensures r.Success? ==> user.Some? && user.value.MapClaims? && "sub" in user.value.claims
    ensures r.Success? ==> r.value.role == AudienceRole(user.value.claims)
    ensures r.Success? && user.value.claims["sub"].CNum? ==> r.value.id == user.value.claims["sub"].n
    ensures r.Success? && user.value.claims["sub"].CStr? ==>
              Decimal.ParseUint(user.value.claims["sub"].s, 64) == Some(r.value.id)
    ensures r == Failure(InvalidUserIdFormat) <==>
              user.Some? && user.value.MapClaims? && "sub" in user.value.claims
              && user.value.claims["sub"].CStr? && Decimal.ParseUint(user.value.claims["sub"].s, 64).None?
    ensures r == Failure(UserIdMissingOrInvalid) <==>
              user.Some? && user.value.MapClaims? && ("sub" !in user.value.claims || user.value.claims["sub"].COther?)
  {
    match user
    case None => Failure(UserNotFound)
    case Some(Foreign) => Failure(InvalidTokenData)
    case Some(MapClaims(claims)) =>
      var id :- if "sub" in claims && claims["sub"].CStr? then
                  match Decimal.ParseUint(claims["sub"].s, 64)
                  case Some(n) => Success(n)
                  case None => Failure(InvalidUserIdFormat)
                else if "sub" in claims && claims["sub"].CNum? then Success(claims["sub"].n)
                else Failure(UserIdMissingOrInvalid);
      Success(CurrentUser(id, AudienceRole(claims)))
  }

  /** A text `sub` written in decimal is read back as the same id. */
  lemma DecimalSubject(claims: Claims, id: nat)
    requires id < Decimal.Pow2(64)
    requires "sub" in claims && claims["sub"] == CStr(Decimal.DecimalString(id))
    ensures GetCurrentUser(Some(MapClaims(claims))).Success?
    ensures GetCurrentUser(Some(MapClaims(claims))).value.id == id
  {
    Decimal.ParseFormatRoundTrip(id, 64);
  }
}
