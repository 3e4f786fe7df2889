/** `GenerateAccessToken`, `Signin` and `Signup`. The clock reading, the
    password hash and compare (bcrypt), and the payload encoding and MAC of
    the token (HS256) are parameters. */
module AuthService {
  import opened Wrappers
  import opened Jwt
  import opened KeyedStore
  import UserModel
  import CurrentUser
  import AuthMiddleware

  const Issuer: string := "gourze"
  /** `time.Hour` in seconds. */
  const TokenLifetime: nat := 3600

  /** The claims `GenerateAccessToken` signs for `user` at Unix time `now`. */
  function AccessClaims(user: Keyed<UserModel.User>, now: nat): (c: Claims)
    ensures c.Keys == {"sub", "iss", "aud", "exp", "iat"}
    ensures c["sub"] == CNum(user.id) && c["iss"] == CStr(Issuer)
    ensures c["aud"] == CStr(UserModel.RoleName(user.rec.role))
    ensures c["exp"] == CNum(now + TokenLifetime) && c["iat"] == CNum(now)
  {
    map["sub" := CNum(user.id), "iss" := CStr(Issuer), "aud" := CStr(UserModel.RoleName(user.rec.role)),
        "exp" := CNum(now + TokenLifetime), "iat" := CNum(now)]
  }

  /** The signing half of the token machinery: the payload encoding and the
      HMAC, both keyed by the configured secret. */
  datatype Signer = Signer(encode: Claims -> string, mac: string -> string)

  function GenerateAccessToken(user: Keyed<UserModel.User>, now: nat, signer: Signer): (token: string)
    ensures |token| >= |HS256Header| + 2 && token[..|HS256Header| + 1] == HS256Header + "."
    ensures var payload := signer.encode(AccessClaims(user, now));
            |token| >= |HS256Header| + |payload| + 2
            && token[|HS256Header| + 1..|HS256Header| + 1 + |payload|] == payload
  {
    SignedString(AccessClaims(user, now), signer.encode, signer.mac)
  }

  /** The `"user"` part of `AuthResultDto`. */
  datatype AuthUser = AuthUser(id: nat, username: string, email: string, role: UserModel.Role, fullName: string)

  datatype AuthResult = AuthResult(accessToken: string, refreshToken: string, accessTokenExpiredAt: int, user: AuthUser)

  datatype AuthError = StoreFailed(e: StoreError) | PasswordMismatch | HashFailed

  function AuthUserOf(user: Keyed<UserModel.User>): AuthUser {
    AuthUser(user.id, user.rec.username, user.rec.email, user.rec.role, user.rec.fullName)
  }

  datatype SigninInput = SigninInput(usernameOrEmail: string, password: string)

  /** The ids `email = ? OR username = ?` selects. */
  function Candidates(store: Store<UserModel.User>, name: string): (ids: set<nat>)
    ensures forall k :: k in ids <==> k in store && (store[k].email == name || store[k].username == name)
  {
    set k | k in store && (store[k].email == name || store[k].username == name)
  }

  /** `Signin`: `First` (lowest id) among the users whose email or username is
      the input, then the password check, then a token valid for an hour. */
  function Signin(store: Store<UserModel.User>, input: SigninInput, matches: (string, string) -> bool,
                  now: nat, signer: Signer): (r: Result<AuthResult, AuthError>)
    ensures Candidates(store, input.usernameOrEmail) == {} <==> r == Failure(StoreFailed(RecordNotFound))
    ensures r.Success? ==>
              var k := r.value.user.id;
              && k in Candidates(store, input.usernameOrEmail)
              && (forall j :: j in Candidates(store, input.usernameOrEmail) ==> k <= j)
              && matches(store[k].password, input.password)
              && r.value.user == AuthUserOf(Keyed(k, store[k]))
              && r.value.accessToken == GenerateAccessToken(Keyed(k, store[k]), now, signer)
    ensures r.Success? ==> |r.value.accessToken| > 0 && r.value.refreshToken == ""
                           && r.value.accessTokenExpiredAt == now + TokenLifetime
    ensures Candidates(store, input.usernameOrEmail) != {}
            && matches(store[MinKey(Candidates(store, input.usernameOrEmail))].password, input.password)
            ==> r.Success? && r.value.user.id == MinKey(Candidates(store, input.usernameOrEmail))
    ensures r == Failure(PasswordMismatch) <==>
              Candidates(store, input.usernameOrEmail) != {}
              && !matches(store[MinKey(Candidates(store, input.usernameOrEmail))].password, input.password)
  {
    var ids := Candidates(store, input.usernameOrEmail);
    if ids == {} then Failure(StoreFailed(RecordNotFound))
    else
      var k := MinKey(ids);
      var user := Keyed(k, store[k]);
      if !matches(user.rec.password, input.password) then Failure(PasswordMismatch)
      else Success(AuthResult(GenerateAccessToken(user, now, signer), "", now + TokenLifetime, AuthUserOf(user)))
  }

  datatype SignupInput = SignupInput(username: string, email: string, fullName: string, password: string)

  /** The store after `Signup`, and its result. */
  datatype SignupStep = SignupStep(store: Store<UserModel.User>, result: Result<AuthResult, AuthError>)

  /** The record `Signup` inserts: the input's fields, the hashed password,
      and the column default role. */
  function NewUser(input: SignupInput, hashed: string): UserModel.User {
    UserModel.User(input.username, input.email, input.fullName, hashed, UserModel.Generic)
  }

  /** `Signup`: hash, insert (the unique username and email may refuse it),
      then a token; the result's expiry is 0 and its refresh token empty. */
  function Signup(store: Store<UserModel.User>, input: SignupInput, hash: string -> Option<string>,
                  now: nat, signer: Signer): (s: SignupStep)
    ensures s.result.Failure? ==> s.store == store
    ensures hash(input.password).None? ==> s.result == Failure(HashFailed)
    ensures hash(input.password).Some? ==>
              (s.result == Failure(StoreFailed(UniqueViolation)) <==>
                 exists k :: k in store && UserModel.UniqueClash(store[k], NewUser(input, hash(input.password).value)))
    ensures s.result.Success? ==>
              var id := s.result.value.user.id;
              && hash(input.password).Some?
              && id !in store && s.store == store[id := NewUser(input, hash(input.password).value)]
              && s.result.value.accessToken == GenerateAccessToken(Keyed(id, s.store[id]), now, signer)
              && s.result.value.refreshToken == "" && s.result.value.accessTokenExpiredAt == 0
    ensures hash(input.password).Some?
            && !(exists k :: k in store && UserModel.UniqueClash(store[k], NewUser(input, hash(input.password).value)))
            ==> s.result.Success?
    ensures s.result.Success? ==>
              var id := s.result.value.user.id;
              id in s.store && s.result.value.user == AuthUserOf(Keyed(id, s.store[id]))
  {
    match hash(input.password)
    case None => SignupStep(store, Failure(HashFailed))
    case Some(hashed) =>
      var created := Create(store, NewUser(input, hashed), UserModel.UniqueClash);
      match created.result
      case Failure(e) => SignupStep(store, Failure(StoreFailed(e)))
      case Success(user) =>
        assert created.store == store[user.id := user.rec];
        SignupStep(created.store, Success(AuthResult(GenerateAccessToken(user, now, signer), "", 0, AuthUserOf(user))))
  }

  /** A signed-up user can sign in by username with the same password, and
      gets their own record back, provided no other user's email is that
      username. */
  lemma SignupThenSignin(store: Store<UserModel.User>, input: SignupInput, hash: string -> Option<string>,
                         matches: (string, string) -> bool, now: nat, later: nat, signer: Signer)
    requires Signup(store, input, hash, now, signer).result.Success?
    requires forall h :: hash(input.password) == Some(h) ==> matches(h, input.password)
    requires forall k :: k in store ==> store[k].email != input.username
    ensures var up := Signup(store, input, hash, now, signer);
            var inn := Signin(up.store, SigninInput(input.username, input.password), matches, later, signer);
            inn.Success? && inn.value.user == up.result.value.user
  {
    var up := Signup(store, input, hash, now, signer);
    var id := up.result.value.user.id;
    var ids := Candidates(up.store, input.username);
    assert id in ids;
    assert ids == {id};
  }

  /** The claims of an issued token name the user and the role through `sub`
      and `aud`, which is where `GetCurrentUser` reads them. */
  lemma IssuedClaimsIdentifyUser(user: Keyed<UserModel.User>, now: nat)
    ensures CurrentUser.GetCurrentUser(Some(MapClaims(AccessClaims(user, now))))
            == Success(CurrentUser.CurrentUser(user.id, Some(user.rec.role)))
  {
    UserModel.ParseRoleName(user.rec.role);
  }

  /** An issued token carries the role under `aud` but `Authorize` reads
      `role`, so every gate with a present identity rejects it. */
  lemma IssuedClaimsFailAuthorize(user: Keyed<UserModel.User>, now: nat, mandatory: bool, allowed: seq<UserModel.Role>)
    ensures AuthMiddleware.Authorize(Some(MapClaims(AccessClaims(user, now))), mandatory, allowed)
            == AuthMiddleware.Unauthorized
  {
    AuthMiddleware.NoRoleClaimRejected(AccessClaims(user, now), mandatory, allowed);
  }
}
