/** `UserRole`, `ParseUserRole` and the `User` record. */
module UserModel {
  import opened Wrappers
  import Query
  import KeyedStore

  /** The three role constants. */
  datatype Role = Super | Admin | Generic

  /** The constant's text, as stored in the `user_role` column. */
  function RoleName(r: Role): string {
    match r
    case Super => "super"
    case Admin => "admin"
    case Generic => "generic"
  }

  datatype RoleError = InvalidUserRole

  /** `ParseUserRole`: the role whose text is exactly `s`; any other text
      (including the empty one) is an "invalid user role" error. */
  function ParseUserRole(s: string): (r: Result<Role, RoleError>)
    ensures r.Success? ==> RoleName(r.value) == s
    ensures r.Failure? <==> forall role :: RoleName(role) != s
  {
    if s == "super" then Success(Super)
    else if s == "admin" then Success(Admin)
    else if s == "generic" then Success(Generic)
    else
      assert RoleName(Super) != s && RoleName(Admin) != s && RoleName(Generic) != s;
      Failure(InvalidUserRole)
  }

  /** The `UserRole` value `ParseUserRole` returns: the empty role on error. */
  function RoleText(r: Result<Role, RoleError>): string {
    match r
    case Success(role) => RoleName(role)
    case Failure(_) => ""
  }

  /** Every role's text parses back to the role. */
  lemma ParseRoleName(r: Role)
    ensures ParseUserRole(RoleName(r)) == Success(r)
  {
  }

  /** The three role texts are pairwise distinct and none is empty. */
  lemma RoleNamesDistinct(a: Role, b: Role)
    ensures RoleName(a) == RoleName(b) ==> a == b
    ensures RoleName(a) != ""
  {
    ParseRoleName(a);
    ParseRoleName(b);
  }

  /** A failed parse yields the empty role, which is no role's text. */
  lemma FailedParseIsEmptyRole(s: string)
    requires ParseUserRole(s).Failure?
    ensures RoleText(ParseUserRole(s)) == ""
    ensures forall role :: RoleName(role) != RoleText(ParseUserRole(s))
  {
    forall role ensures RoleName(role) != "" {
      RoleNamesDistinct(role, role);
    }
  }

  /** A `users` record without its `ID` (the store's key). `password` holds
      the hash; `Meta` and the timestamps are left out. */
  datatype User = User(username: string, email: string, fullName: string, password: string, role: Role)

  /** The `unique` columns: two users may not share a username or an email. */
  predicate UniqueClash(a: User, b: User) {
    a.username == b.username || a.email == b.email
  }

  /** The row the list queries see: column name to value. */
  function UserRow(u: KeyedStore.Keyed<User>): (row: Query.Row)
    ensures row.Keys == {"id", "username", "email", "full_name", "password", "role"}
    ensures row["id"] == Query.Num(u.id) && row["username"] == Query.Str(u.rec.username)
    ensures row["email"] == Query.Str(u.rec.email) && row["full_name"] == Query.Str(u.rec.fullName)
    ensures row["role"] == Query.Str(RoleName(u.rec.role))
  {
    map["id" := Query.Num(u.id), "username" := Query.Str(u.rec.username), "email" := Query.Str(u.rec.email),
        "full_name" := Query.Str(u.rec.fullName), "password" := Query.Str(u.rec.password),
        "role" := Query.Str(RoleName(u.rec.role))]
  }
}
