/** `userController`: how the user endpoints read their parameters and map
    the service's outcome onto a status and a reply. Finding one user is
    `Http.FindById` with the entity name "user". */
module UserController {
  import opened Wrappers
  import opened Query
  import opened KeyedStore
  import opened UserModel
  import opened Http
  import UserFilter
  import UserService
  import Listing
  import TableQuery
  import Decimal

  /** `FindManyUsers`. `query` is the bound query string, `None` when
      binding fails. */
  function FindManyUsers(store: UserService.Users, query: Option<UserFilter.UserFilterInput>)
    : (r: Reply<seq<Keyed<User>>>)
    ensures query.None? ==> r == InvalidParams()
    ensures query.Some? ==>
              var f := UserFilter.WithDefaults(query.value);
              var built := UserFilter.ApplyFilter(f);
              && (r.Panicked? <==> built.Failure?)
              && (r == ServerError() <==> built.Success? && !AllAccepted(built.value))
              && (r.Reply? && r.status == StatusOK <==> built.Success? && AllAccepted(built.value))
    ensures r.Reply? && r.status == StatusOK ==>
              var f := UserFilter.WithDefaults(query.value);
              var clauses := UserFilter.ApplyFilter(f).value;
              && r.data.Some? && r.meta.Some?
              && r.meta.value.numItems == |Listing.Selected(TableQuery.Rows(store), UserRow, clauses)|
              && r.meta.value.page == f.paging.page && r.meta.value.take == f.paging.take
              && r.meta.value.numPages * r.meta.value.take >= r.meta.value.numItems
              && (r.meta.value.numPages > 0 ==> (r.meta.value.numPages - 1) * r.meta.value.take < r.meta.value.numItems)
              && |r.data.value| <= f.paging.take
              && forall x :: x in r.data.value ==> x.id in store && store[x.id] == x.rec
  {
    match query
    case None => InvalidParams()
    case Some(filter) =>
      ListReply(UserService.FindManyUsers(store, filter), UserFilter.WithDefaults(filter).paging)
  }

  /** With no wildcard in the search values, `numItems` is the number of
      stored users meeting the filter, every listed user meets it, and a page
      past `numPages` lists nobody. */
  lemma FindManyUsersMeta(store: UserService.Users, query: Option<UserFilter.UserFilterInput>)
    requires FindManyUsers(store, query).Reply? && FindManyUsers(store, query).status == StatusOK
    requires UserFilter.AllLiteral(UserFilter.WithDefaults(query.value))
    ensures var r := FindManyUsers(store, query);
            var f := UserFilter.WithDefaults(query.value);
            && r.meta.value.numItems == |UserService.Meeting(store, f)|
            && (forall x :: x in r.data.value ==> UserFilter.RowMeets(f, UserRow(x)))
            && (r.meta.value.page > r.meta.value.numPages ==> r.data.value == [])
  {
    var f := UserFilter.WithDefaults(query.value);
    UserService.FindManyUsersMeaning(store, query.value);
    var r := FindManyUsers(store, query);
    if r.meta.value.page > r.meta.value.numPages {
      TableQuery.PagesBeyondAreEmpty(store, UserRow, UserFilter.ApplyFilter(f).value, f.paging);
    }
  }

  /** `CreateUser`: bind the body, create; a duplicate username or email is
      a server error. */
  function CreateUser(store: UserService.Users, body: Option<UserService.UserInput>): (x: Exchange<User, Keyed<User>>)
    ensures x.reply.Reply?
    ensures body.None? ==> x == Exchange(store, InvalidParams())
    ensures x.reply == ServerError() <==>
              body.Some? && exists k :: k in store && (store[k].username == body.value.username || store[k].email == body.value.email)
    ensures x.reply == ServerError() ==> x.store == store
    ensures x.reply.status == StatusCreated <==> body.Some? && x.reply != ServerError()
    ensures x.reply.status == StatusCreated ==>
              && x.reply.code == "ok" && x.reply.message == Text("User created successfully")
              && x.reply.data.Some? && x.reply.data.value.id !in store
              && x.reply.data.value.rec == UserService.Created(body.value)
              && x.store == store[x.reply.data.value.id := UserService.Created(body.value)]
  {
    match body
    case None => Exchange(store, InvalidParams())
    case Some(input) => StepReply(UserService.CreateUser(store, input), StatusCreated, "User created successfully")
  }

  /** `UpdateUserByID`: the path id, then the body, then the service. A
      missing user and a clash with another user's username or email are
      both server errors. */
  function UpdateUserByID(store: UserService.Users, idText: string, body: Option<UserService.UserInput>)
    : (x: Exchange<User, Keyed<User>>)
    ensures x.reply.Reply?
    ensures ParseId(idText).None? <==> x == Exchange(store, InvalidId("invalid-params", "user"))
    ensures ParseId(idText).Some? && body.None? ==> x == Exchange(store, InvalidParams())
    ensures x.reply == ServerError() <==>
              ParseId(idText).Some? && body.Some? &&
              var id := ParseId(idText).value;
              (id !in store || exists k :: k in store && k != id
                                 && (store[k].username == body.value.username || store[k].email == body.value.email))
    ensures x.reply == ServerError() ==> x.store == store
    ensures x.reply.status == StatusOK <==>
              ParseId(idText).Some? && body.Some? &&
              var id := ParseId(idText).value;
              id in store && forall k :: k in store && k != id ==>
                               store[k].username != body.value.username && store[k].email != body.value.email
    ensures x.reply.status == StatusOK ==>
              var id := ParseId(idText).value;
              var u := UserService.Patched(store[id], body.value);
              x == Exchange(store[id := u], Done(StatusOK, "User updated successfully", Keyed(id, u)))
  {
    match ParseId(idText)
    case None => Exchange(store, InvalidId("invalid-params", "user"))
    case Some(id) =>
      match body
      case None => Exchange(store, InvalidParams())
      case Some(input) => StepReply(UserService.UpdateUserByID(store, id, input), StatusOK, "User updated successfully")
  }

  /** `DeleteUserByID`: as every delete handler, except that a bad id is
      answered with status 400 but code "ok". */
  function DeleteUserByID(store: UserService.Users, idText: string): (x: Exchange<User, Keyed<User>>)
    ensures x.reply.Reply?
    ensures ParseId(idText).None? <==> x.reply == Reply(StatusBadRequest, "ok", Text("Invalid user ID"), None, None)
    ensures ParseId(idText).None? ==> x.store == store
    ensures x.reply == ServerError() <==> ParseId(idText).Some? && ParseId(idText).value !in store
    ensures x.reply == ServerError() ==> x.store == store
    ensures x.reply.status == StatusNoContent <==> ParseId(idText).Some? && ParseId(idText).value in store
    ensures x.reply.status == StatusNoContent ==>
              var id := ParseId(idText).value;
              && x.reply == Done(StatusNoContent, "User deleted successfully", Keyed(id, store[id]))
              && x.store == map k | k in store && k != id :: store[k]
  {
    assert "Invalid " + "user" + " ID" == "Invalid user ID";
    DeleteById(store, "user", "ok", idText, "User deleted successfully")
  }

  /** A user created through the endpoint is found through the by-id
      endpoint under the decimal text of its new id, while that id fits
      32 bits. */
  lemma FindCreatedUser(store: UserService.Users, input: UserService.UserInput)
    requires CreateUser(store, Some(input)).reply.status == StatusCreated
    requires CreateUser(store, Some(input)).reply.data.value.id < Decimal.Pow2(32)
    ensures var x := CreateUser(store, Some(input));
            FindById(x.store, "user", Decimal.DecimalString(x.reply.data.value.id))
            == Done(StatusOK, "Success", x.reply.data.value)
  {
    ParseIdOfDecimal(CreateUser(store, Some(input)).reply.data.value.id);
  }
}
