/** `categoryController`: the category endpoints' parameter handling, status
    mapping and the role check of `CreateCategory`. Finding, updating and
    deleting one category are `Http.FindById`, `Http.UpdateById` and
    `Http.DeleteById` with the entity name "category". */
module CategoryController {
  import opened Wrappers
  import opened Jwt
  import opened KeyedStore
  import opened Http
  import UserModel
  import CurrentUser
  import CategoryFilter
  import CategoryService
  import Listing
  import TableQuery
  import AuthMiddleware
  import Routes

  /** `FindManyCategories`. `query` is the bound query string, `None` when
      binding fails. */
  function FindManyCategories(store: CategoryService.Categories, query: Option<CategoryFilter.CategoryFilterInput>)
    : (r: Reply<seq<Keyed<CategoryService.Category>>>)
    ensures r.Reply?
    ensures query.None? <==> r == InvalidParams()
    ensures query.Some? ==>
              var p := Listing.WithDefaults(query.value.paging);
              && r.status == StatusOK && r.data.Some?
              && r.meta == Some(Meta(|store|, p.page, Listing.NumPages(|store|, p.take), p.take))
              && |r.data.value| <= p.take
              && Listing.IsPageOf(r.data.value, TableQuery.Rows(store), CategoryService.CategoryRow, Listing.ApplyPagination(p))
  {
    match query
    case None => InvalidParams()
    case Some(filter) =>
      ListReply(CategoryService.FindManyCategories(store, filter), Listing.WithDefaults(filter.paging))
  }

  /** A page past `numPages` lists no category. */
  lemma FindManyCategoriesBeyond(store: CategoryService.Categories, filter: CategoryFilter.CategoryFilterInput)
    requires var r := FindManyCategories(store, Some(filter)); r.meta.value.page > r.meta.value.numPages
    ensures FindManyCategories(store, Some(filter)).data.value == []
  {
    var p := Listing.WithDefaults(filter.paging);
    var f := CategoryFilter.CategoryFilterInput(p);
    TableQuery.PagesBeyondAreEmpty(store, CategoryService.CategoryRow, CategoryFilter.ApplyFilter(f), p);
  }

  /** The role `CreateCategory` accepts. */
  predicate MayCreate(role: Option<UserModel.Role>) {
    role == Some(UserModel.Super) || role == Some(UserModel.Admin)
  }

  const UnauthorizedReply: Reply<Keyed<CategoryService.Category>> :=
    Reply(StatusUnauthorized, "unauthorized", Text("Unauthorized"), None, None)

  /** `CreateCategory`. `user` is what the request context holds under
      "user". The current user is read without looking at the error, so a
      failed read panics on the nil user; the role (read from `aud`) is
      checked before the body is bound. */
  function CreateCategory(store: CategoryService.Categories, user: Option<StoredValue>, body: Option<CategoryService.Category>)
    : (x: Exchange<CategoryService.Category, Keyed<CategoryService.Category>>)
    ensures x.reply.Panicked? <==> CurrentUser.GetCurrentUser(user).Failure?
    ensures !x.reply.Reply? || x.reply.status != StatusCreated ==> x.store == store
    ensures x.reply == UnauthorizedReply <==>
              CurrentUser.GetCurrentUser(user).Success? && !MayCreate(CurrentUser.GetCurrentUser(user).value.role)
    ensures x.reply == InvalidParams() <==>
              CurrentUser.GetCurrentUser(user).Success? && MayCreate(CurrentUser.GetCurrentUser(user).value.role) && body.None?
    ensures x.reply.Reply? && x.reply.status == StatusCreated <==>
              CurrentUser.GetCurrentUser(user).Success? && MayCreate(CurrentUser.GetCurrentUser(user).value.role) && body.Some?
    ensures x.reply.Reply? && x.reply.status == StatusCreated ==>
              && x.reply.message == Text("Category created successfully")
              && x.reply.data.Some? && x.reply.data.value.id !in store && x.reply.data.value.rec == body.value
              && x.store == store[x.reply.data.value.id := body.value]
  {
    match CurrentUser.GetCurrentUser(user)
    case Failure(_) => Exchange(store, Panicked)
    case Success(current) =>
      if !MayCreate(current.role) then Exchange(store, UnauthorizedReply)
      else
        match body
        case None => Exchange(store, InvalidParams())
        case Some(rec) => StepReply(CategoryService.CreateCategory(store, rec), StatusCreated, "Category created successfully")
  }

  /** For verified claims, a category is created exactly when `sub` names a
      user, `aud` names the super or admin role, and the body binds. */
  lemma CreateCategoryByClaims(store: CategoryService.Categories, claims: Claims, body: Option<CategoryService.Category>)
    ensures var x := CreateCategory(store, Some(MapClaims(claims)), body);
            x.reply.Reply? && x.reply.status == StatusCreated <==>
              && CurrentUser.GetCurrentUser(Some(MapClaims(claims))).Success?
              && "aud" in claims && claims["aud"].CStr? && claims["aud"].s in {"super", "admin"}
              && body.Some?
  {
    var r := CurrentUser.GetCurrentUser(Some(MapClaims(claims)));
    if r.Success? && "aud" in claims && claims["aud"].CStr? {
      var s := claims["aud"].s;
      UserModel.ParseRoleName(UserModel.Super);
      UserModel.ParseRoleName(UserModel.Admin);
      if r.value.role.Some? {
        assert UserModel.RoleName(r.value.role.value) == s;
      }
    }
  }

  /** Through the router, a category is created only for a token that
      carries the super or admin role twice: under `role` for the route's
      gate, and under `aud` for the handler. */
  lemma CreatedOnlyWithBothClaims(store: CategoryService.Categories, cookie: Option<string>,
                                  verify: string -> Option<Claims>, body: Option<CategoryService.Category>)
    requires Routes.Dispatch(Routes.POST, "/courses/categories/", cookie, verify).Handled?
    requires var x := CreateCategory(store, AuthMiddleware.Authenticate(cookie, verify), body);
             x.reply.Reply? && x.reply.status == StatusCreated
    ensures cookie.Some? && verify(cookie.value).Some?
    ensures var c := verify(cookie.value).value;
            && "role" in c && c["role"].CStr? && c["role"].s in {"super", "admin"}
            && "aud" in c && c["aud"].CStr? && c["aud"].s in {"super", "admin"}
  {
    Routes.CreateCategoryGate(cookie, verify);
    CreateCategoryByClaims(store, verify(cookie.value).value, body);
  }
}
