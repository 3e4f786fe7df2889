/** `userService`: the user list query and the user CRUD operations over the
    `users` table. Find and delete are the table's own operations
    (`KeyedStore.Find`, `KeyedStore.Delete`). */
module UserService {
  import opened Wrappers
  import opened Query
  import opened KeyedStore
  import opened UserModel
  import UserFilter
  import Listing
  import TableQuery

  type Users = Store<User>

  /** `FindManyUsers`: defaults, the filter clauses, the count, then the page.
      A panic while building the clauses ends the call before any query. */
  function FindManyUsers(store: Users, filter: UserFilter.UserFilterInput)
    : (r: Result<Listing.ListResult<Keyed<User>>, Listing.ListError>)
    ensures var f := UserFilter.WithDefaults(filter);
            r == Failure(Listing.BuildPanicked) <==> UserFilter.ApplyFilter(f).Failure?
    ensures var f := UserFilter.WithDefaults(filter);
            r == Failure(Listing.QueryRejected) <==>
              UserFilter.ApplyFilter(f).Success? && !AllAccepted(UserFilter.ApplyFilter(f).value)
    ensures r.Success? ==> |r.value.items| <= UserFilter.WithDefaults(filter).paging.take
    ensures r.Success? ==> forall x :: x in r.value.items ==> x.id in store && store[x.id] == x.rec
  {
    var f := UserFilter.WithDefaults(filter);
    match UserFilter.ApplyFilter(f)
    case Failure(_) => Failure(Listing.BuildPanicked)
    case Success(clauses) => TableQuery.ListTable(store, UserRow, clauses, Listing.ApplyPagination(f.paging))
  }

  /** The users a filter selects, stated without clauses. */
  function Meeting(store: Users, f: UserFilter.UserFilterInput): set<Keyed<User>> {
    set x | x in TableQuery.Rows(store) && UserFilter.RowMeets(f, UserRow(x))
  }

  /** When no search value carries a wildcard, the count is the number of
      stored users meeting every present field filter, and every listed user
      meets them. */
  lemma FindManyUsersMeaning(store: Users, filter: UserFilter.UserFilterInput)
    requires FindManyUsers(store, filter).Success?
    requires UserFilter.AllLiteral(UserFilter.WithDefaults(filter))
    ensures var f := UserFilter.WithDefaults(filter);
            var r := FindManyUsers(store, filter).value;
            && r.count == |Meeting(store, f)|
            && forall x :: x in r.items ==> UserFilter.RowMeets(f, UserRow(x))
  {
    var f := UserFilter.WithDefaults(filter);
    var clauses := UserFilter.ApplyFilter(f).value;
    SelectedAreMeeting(store, f);
    forall x | x in FindManyUsers(store, filter).value.items
      ensures UserFilter.RowMeets(f, UserRow(x))
    {
      UserFilter.ApplyFilterMeaning(f, UserRow(x));
    }
  }

  lemma SelectedAreMeeting(store: Users, f: UserFilter.UserFilterInput)
    requires UserFilter.ApplyFilter(f).Success?
    requires UserFilter.AllLiteral(f)
    ensures Listing.Selected(TableQuery.Rows(store), UserRow, UserFilter.ApplyFilter(f).value) == Meeting(store, f)
  {
    var clauses := UserFilter.ApplyFilter(f).value;
    forall x | x in TableQuery.Rows(store)
      ensures AllHold(clauses, UserRow(x)) <==> UserFilter.RowMeets(f, UserRow(x))
    {
      UserFilter.ApplyFilterMeaning(f, UserRow(x));
    }
  }

  /** `UserCreateInput` and `UserUpdateInput` carry the same three fields. */
  datatype UserInput = UserInput(username: string, email: string, fullName: string)

  /** The record `copier.Copy` fills from a create input: no password, and the
      role column's default. */
  function Created(input: UserInput): User {
    User(input.username, input.email, input.fullName, "", Generic)
  }

  /** `CreateUser`: insert the copied record; the unique username and email
      columns refuse a duplicate. */
  function CreateUser(store: Users, input: UserInput): (s: Step<User>)
    ensures s.result.Failure? <==>
              exists k :: k in store && (store[k].username == input.username || store[k].email == input.email)
    ensures s.result.Failure? ==> s.store == store && s.result.error == UniqueViolation
    ensures s.result.Success? ==>
              var u := s.result.value;
              && u.id !in store && s.store == store[u.id := u.rec]
              && u.rec.username == input.username && u.rec.email == input.email && u.rec.fullName == input.fullName
              && u.rec.password == "" && u.rec.role == Generic
  {
    var s := Create(store, Created(input), UniqueClash);
    assert s.result.Success? ==> s.store == store[s.result.value.id := s.result.value.rec];
    s
  }

  /** `copier.Copy` of an update input onto the found user: the three fields
      are overwritten (empty text included); password and role stay. */
  function Patched(u: User, input: UserInput): User {
    u.(username := input.username, email := input.email, fullName := input.fullName)
  }

  /** `UpdateUserByID`: find, overwrite the three fields, save. */
  function UpdateUserByID(store: Users, id: nat, input: UserInput): (s: Step<User>)
    ensures id !in store ==> s == Step(store, Failure(RecordNotFound))
    ensures id in store ==>
              (s.result.Failure? <==>
                 exists k :: k in store && k != id && (store[k].username == input.username || store[k].email == input.email))
    ensures s.result.Failure? ==> s.store == store
    ensures s.result.Success? ==>
              var u := s.result.value;
              && u.id == id && s.store == store[id := u.rec]
              && u.rec.username == input.username && u.rec.email == input.email && u.rec.fullName == input.fullName
              && u.rec.password == store[id].password && u.rec.role == store[id].role
  {
    var s := Update(store, id, (u: User) => Patched(u, input), UniqueClash);
    assert s.result.Success? ==> s.store == store[id := s.result.value.rec];
    s
  }

  /** Repeating an update changes nothing more. */
  lemma UpdateIdempotent(store: Users, id: nat, input: UserInput)
    requires UpdateUserByID(store, id, input).result.Success?
    ensures var once := UpdateUserByID(store, id, input);
            UpdateUserByID(once.store, id, input) == once
  {
  }

  /** A created user is found under its id, with the input's fields. */
  lemma FindCreatedUser(store: Users, input: UserInput)
    requires CreateUser(store, input).result.Success?
    ensures var s := CreateUser(store, input);
            Find(s.store, s.result.value.id) == Success(Keyed(s.result.value.id, Created(input)))
  {
  }
}
