/** `ProvideRouter`: which handler serves which verb and path, and which
    `Authorize` gate, if any, stands in front of it. `Authenticate` runs
    first on every request. */
module Routes {
  import opened Wrappers
  import opened Jwt
  import UserModel
  import AuthMiddleware

  datatype Method = GET | POST | PUT | DELETE

  /** Every controller action the program defines. */
  datatype Handler =
    | Signin | Signup
    | FindManyUsers | CreateUser | FindUserByID | UpdateUserByID | DeleteUserByID
    | FindManyMedia | FindMediaByID | UpdateMediaByID | DeleteMediaByID | UploadPhoto | UploadVideoViaTus
    | FindManyCategories | CreateCategory | FindCategoryByID | UpdateCategoryByID | DeleteCategoryByID
    | FindManyCourses | CreateCourse | FindCourseByID | UpdateCourseByID | DeleteCourseByID
    | FindManyOrders | CreateOrder | FindOrderByID | UpdateOrderByID | DeleteOrderByID

  /** No gate, or `Authorize(mandatory, roles...)`. */
  datatype Gate = Open | Authorize(mandatory: bool, roles: seq<UserModel.Role>)

  datatype Route = Route(verb: Method, path: string, gate: Gate, handler: Handler)

  /** The registered routes, group prefixes joined to the relative paths. */
  const Table: seq<Route> := [
    Route(POST, "/auth/signin", Open, Signin),
    Route(POST, "/auth/signup", Open, Signup),
    Route(GET, "/users/", Authorize(false, [UserModel.Admin]), FindManyUsers),
    Route(POST, "/users/", Authorize(false, [UserModel.Admin]), CreateUser),
    Route(GET, "/media/", Authorize(false, []), FindManyMedia),
    Route(POST, "/media/upload-photo", Authorize(true, []), UploadPhoto),
    Route(POST, "/media/upload-video-via-tus", Authorize(true, []), UploadVideoViaTus),
    Route(GET, "/courses/categories/", Open, FindManyCategories),
    Route(POST, "/courses/categories/", Authorize(true, [UserModel.Super, UserModel.Admin]), CreateCategory),
    Route(GET, "/courses/", Open, FindManyCourses),
    Route(POST, "/courses/", Open, CreateCourse),
    Route(GET, "/orders/", Open, FindManyOrders),
    Route(POST, "/orders/", Open, CreateOrder),
    Route(GET, "/orders/:id", Open, FindOrderByID),
    Route(PUT, "/orders/:id", Open, UpdateOrderByID),
    Route(DELETE, "/orders/:id", Open, DeleteOrderByID)
  ]

  /** The route registered for a verb and path pattern. */
  function Lookup(verb: Method, path: string): (r: Option<Route>)
    ensures r.Some? ==> r.value in Table && r.value.verb == verb && r.value.path == path
    ensures r.None? ==> forall i :: 0 <= i < |Table| ==> Table[i].verb != verb || Table[i].path != path
  {
    LookupIn(Table, verb, path)
  }

  function LookupIn(routes: seq<Route>, verb: Method, path: string): (r: Option<Route>)
    ensures r.Some? ==> r.value in routes && r.value.verb == verb && r.value.path == path
    ensures r.None? ==> forall i :: 0 <= i < |routes| ==> routes[i].verb != verb || routes[i].path != path
  {
    if |routes| == 0 then None
    else if routes[0].verb == verb && routes[0].path == path then Some(routes[0])
    else
      var r := LookupIn(routes[1..], verb, path);
      assert forall i :: 1 <= i < |routes| ==> routes[i] == routes[1..][i - 1];
      r
  }

  /** What a request meets: the handler runs, the gate aborts or panics, or
      no route is registered under that verb and pattern. */
  datatype Outcome = Handled(handler: Handler, user: Option<StoredValue>) | Rejected(d: AuthMiddleware.Decision) | NotFound

  function Admit(route: Route, user: Option<StoredValue>): (d: AuthMiddleware.Decision)
    ensures route.gate.Open? ==> d == AuthMiddleware.Next
  {
    match route.gate
    case Open => AuthMiddleware.Next
    case Authorize(mandatory, roles) => AuthMiddleware.Authorize(user, mandatory, roles)
  }

  /** `Authenticate`, then the matching route's gate, then its handler.
      `path` is a route pattern as registered (`/orders/:id`, not
      `/orders/5`); gin's parameter matching and its trailing-slash
      redirects are not modelled. */
  function Dispatch(verb: Method, path: string, cookie: Option<string>, verify: string -> Option<Claims>): (o: Outcome)
    ensures Lookup(verb, path).None? <==> o == NotFound
    ensures o.Handled? ==> o.handler == Lookup(verb, path).value.handler
                           && o.user == AuthMiddleware.Authenticate(cookie, verify)
    ensures Lookup(verb, path).Some? && Lookup(verb, path).value.gate.Open? ==> o.Handled?
  {
    var user := AuthMiddleware.Authenticate(cookie, verify);
    match Lookup(verb, path)
    case None => NotFound
    case Some(route) =>
      var d := Admit(route, user);
      if d.Next? then Handled(route.handler, user) else Rejected(d)
  }

  /** No verb and path pair is registered twice. */
  lemma RoutesDistinct()
    ensures forall i, j :: 0 <= i < j < |Table| ==> Table[i].verb != Table[j].verb || Table[i].path != Table[j].path
  {
  }

  /** Every registered route is the one found for its own verb and path. */
  lemma LookupFinds(i: nat)
    requires i < |Table|
    ensures Lookup(Table[i].verb, Table[i].path) == Some(Table[i])
  {
    var r := Lookup(Table[i].verb, Table[i].path);
    RoutesDistinct();
    var j :| 0 <= j < |Table| && Table[j] == r.value;
  }

  /** A request for a registered route meets that route's gate. */
  lemma DispatchRoute(i: nat, cookie: Option<string>, verify: string -> Option<Claims>)
    requires i < |Table|
    ensures var user := AuthMiddleware.Authenticate(cookie, verify);
            var d := Admit(Table[i], user);
            Dispatch(Table[i].verb, Table[i].path, cookie, verify)
            == if d.Next? then Handled(Table[i].handler, user) else Rejected(d)
  {
    LookupFinds(i);
  }

  /** Sign-in and sign-up are reached without any identity. */
  lemma AuthRoutesOpen(cookie: Option<string>, verify: string -> Option<Claims>)
    ensures Dispatch(POST, "/auth/signin", cookie, verify).Handled?
    ensures Dispatch(POST, "/auth/signup", cookie, verify).Handled?
  {
    DispatchRoute(0, cookie, verify);
    DispatchRoute(1, cookie, verify);
  }

  /** Listing and creating users is open to anonymous requests, because the
      gate is not mandatory. */
  lemma UsersOpenToAnonymous(verb: Method)
    requires verb == GET || verb == POST
    ensures var verify := (t: string) => None;
            Dispatch(verb, "/users/", None, verify).Handled?
  {
    var verify := (t: string) => None;
    assert AuthMiddleware.Authenticate(None, verify) == None;
    if verb == GET {
      assert Table[2] == Route(GET, "/users/", Authorize(false, [UserModel.Admin]), FindManyUsers);
      DispatchRoute(2, None, verify);
    } else {
      assert Table[3] == Route(POST, "/users/", Authorize(false, [UserModel.Admin]), CreateUser);
      DispatchRoute(3, None, verify);
    }
  }

  /** The two upload routes are gated with `Authorize(true)` and no role, so
      no request reaches their handlers. */
  lemma UploadsUnreachable(path: string, cookie: Option<string>, verify: string -> Option<Claims>)
    requires path == "/media/upload-photo" || path == "/media/upload-video-via-tus"
    ensures Dispatch(POST, path, cookie, verify) == Rejected(AuthMiddleware.Unauthorized)
  {
    assert Table[5] == Route(POST, "/media/upload-photo", Authorize(true, []), UploadPhoto);
    assert Table[6] == Route(POST, "/media/upload-video-via-tus", Authorize(true, []), UploadVideoViaTus);
    DispatchRoute(5, cookie, verify);
    DispatchRoute(6, cookie, verify);
  }

  /** `GET /media/` admits anonymous requests and rejects every identity. */
  lemma MediaListOnlyAnonymous(cookie: Option<string>, verify: string -> Option<Claims>)
    ensures Dispatch(GET, "/media/", cookie, verify).Handled?
            <==> cookie.None? || verify(cookie.value).None?
  {
    assert Table[4] == Route(GET, "/media/", Authorize(false, []), FindManyMedia);
    DispatchRoute(4, cookie, verify);
  }

  /** The gate of category creation admits exactly the identities whose
      claims hold a text `role` naming super or admin. */
  lemma SuperOrAdminGate(claims: Claims)
    ensures AuthMiddleware.Authorize(Some(MapClaims(claims)), true, [UserModel.Super, UserModel.Admin]).Next?
            <==> "role" in claims && claims["role"].CStr? && claims["role"].s in {"super", "admin"}
  {
    var roles := [UserModel.Super, UserModel.Admin];
    if "role" in claims && claims["role"].CStr? && claims["role"].s in {"super", "admin"} {
      assert UserModel.RoleName(roles[if claims["role"].s == "super" then 0 else 1]) == claims["role"].s;
    }
  }

  /** Creating a category needs an identity whose claims hold a text `role`
      naming super or admin. */
  lemma CreateCategoryGate(cookie: Option<string>, verify: string -> Option<Claims>)
    ensures var o := Dispatch(POST, "/courses/categories/", cookie, verify);
            o.Handled? <==>
              cookie.Some? && verify(cookie.value).Some?
              && var c := verify(cookie.value).value;
                 "role" in c && c["role"].CStr? && c["role"].s in {"super", "admin"}
  {
    assert Table[8] == Route(POST, "/courses/categories/", Authorize(true, [UserModel.Super, UserModel.Admin]), CreateCategory);
    DispatchRoute(8, cookie, verify);
    if cookie.Some? && verify(cookie.value).Some? {
      SuperOrAdminGate(verify(cookie.value).value);
    }
  }

  /** The `:id` routes of users, media, categories and courses are not
      registered; only the order ones are. */
  lemma UnroutedHandlers(i: nat)
    requires i < |Table|
    ensures Table[i].handler !in {FindUserByID, UpdateUserByID, DeleteUserByID,
                                  FindMediaByID, UpdateMediaByID, DeleteMediaByID,
                                  FindCategoryByID, UpdateCategoryByID, DeleteCategoryByID,
                                  FindCourseByID, UpdateCourseByID, DeleteCourseByID}
  {
  }

  /** The routes without a gate: sign-in, sign-up, the category and course
      routes other than category creation, and every order route. */
  lemma OpenRoutes(i: nat)
    requires i < |Table|
    ensures Table[i].gate.Open? <==> i !in {2, 3, 4, 5, 6, 8}
  {
  }

  /** A route without a gate is reached by every request. */
  lemma OpenRoutesAlwaysHandled(i: nat, cookie: Option<string>, verify: string -> Option<Claims>)
    requires i < |Table| && Table[i].gate.Open?
    ensures Dispatch(Table[i].verb, Table[i].path, cookie, verify) == Handled(Table[i].handler, AuthMiddleware.Authenticate(cookie, verify))
  {
    DispatchRoute(i, cookie, verify);
  }
}
