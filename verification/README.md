# gourze core, modelled in Dafny

gourze is a layered CRUD web API written in Go with gin and gorm. It serves
users, orders, course categories, courses and media, and it authenticates
with JWT access tokens kept in a cookie. This project models the parts of it
that decide things. Each part is a pure function over immutable data, and the
properties the code promises are proved about those functions.

- **List queries.** Every `*FilterInput` DTO turns query parameters into a
  conjunction of column clauses, then an order, an offset and a limit.
  - A clause has an in-memory meaning (`Query.Holds`). LIKE patterns follow
    the `<like predicate>` of ISO/IEC 9075-2, subclause 8.5.
  - The list services run "count, then page" over the stored rows (`Listing`,
    `TableQuery`).
  - The controllers report `numPages = (count + take - 1) / take`.
- **Access control.**
  - `Authenticate`, `Authorize` and the route table of `ProvideRouter`.
  - `ParseUserRole`, `GetCurrentUser`, and the claims `GenerateAccessToken`
    signs.
  - Together they show that an issued token carries its role under `aud`,
    while `Authorize` reads `role`.
- **Keyed-store services.** Each table is a `map<nat, Record>`:
  - find, update and delete of a missing id fail;
  - delete returns the record as it was;
  - no other key changes.
- **Media.**
  - The photo title follows the `filepath.Ext` rule.
  - Per-size file names and the stored files list.
  - The TUS upload result.
  - The Bunny storage and stream URLs, and the upload signature.
- **Controllers.**
  - The path id is an unsigned decimal that fits 32 bits.
  - Errors map to 400, 401 or 500.
  - The list `meta` object.
  - The role check of `CreateCategory`.
  - The user-id default of `UploadVideoViaTus`.

Clock readings, randomness, hashing (bcrypt, SHA-256), HS256 signing and
verification, HTTP requests to Bunny, image decoding and encoding, and JSON
binding become parameters of the functions that use them:

- a clock reading is a `nat`;
- a hash or MAC is a function;
- an HTTP call is a function from request to `Option` response;
- a bound body is an `Option`, with `None` when binding fails.

Go run-time panics become explicit outcomes rather than preconditions. There
are three: indexing an empty value list, the unchecked type assertion in
`Authorize`, and dereferencing the nil current user. gin's recovery
middleware answers all of them.

## Model

| member | source | states |
|---|---|---|
| StringFilter.ParseName | utils/string_filter/string_filter_operator.go:5-13 | each of the seven operator constants is recognised by exactly its own text |
| StringFilter.NamesDistinct | utils/string_filter/string_filter_operator.go:5-13 | the seven operator texts are pairwise distinct |
| NumberFilter.ParseName | utils/number_filter/number_filter_operator.go:5-14 | each of the eight numeric operator constants is recognised by exactly its own text |
| NumberFilter.ComparisonInjective | modules/order/dto/order_filter_input.go:30-47 | the eight numeric operators map one-to-one onto `=`, `!=`, `IN`, `NOT IN`, `>`, `<`, `>=`, `<=`, and none of them becomes LIKE |
| NumberFilter.Clauses | modules/order/dto/order_filter_input.go:29-48 | a numeric block adds exactly one clause, on its own column, iff the filter and its value list are both non-nil and the operator is one of the eight; the clause carries the whole value list |
| NumberFilter.ClausesMeaning | modules/order/dto/order_filter_input.go:29-48 | on a numeric column the built clause holds of a row exactly when the column value meets the operator (equality, membership or ordering against the single value) |
| NumberFilter.ClausesAccepted | modules/order/dto/order_filter_input.go:29-48 | the store accepts the clause exactly when a non-list operator carries a single value |
| Like.LikeAnything | modules/user/dto/user_filter_input.go:39-44 | the pattern `%` matches every text |
| Like.LikeLiteral | modules/user/dto/user_filter_input.go:39-44 | a pattern without `%` or `_` matches only itself |
| Like.LikeStartsWith | modules/user/dto/user_filter_input.go:41-42 | `s LIKE v%` iff `v` is a prefix of `s`, when `v` has no wildcard |
| Like.LikeEndsWith | modules/user/dto/user_filter_input.go:43-44 | `s LIKE %v` iff `v` is a suffix of `s`, when `v` has no wildcard |
| Like.LikeContains | modules/user/dto/user_filter_input.go:39-40 | `s LIKE %v%` iff `v` occurs in `s`, when `v` has no wildcard |
| Query.AllHoldConcat | modules/user/dto/user_filter_input.go:34-92 | chaining `Where` calls conjoins their clauses: the clauses of `a + b` hold iff those of `a` and those of `b` hold |
| Listing.FilterDefaults | modules/user/dto/user_filter_input.go:20-31 | `defaults.Set` gives a present field filter (user text filters and order or course numeric filters alike) with an empty operator the operator "equals", keeps any other operator, and keeps the values |
| UserFilter.FieldClauses | modules/user/dto/user_filter_input.go:35-52 | a field adds at most one clause, only when the filter and its value list are both non-nil and the operator is one of the seven; a pattern operator on an empty non-nil list panics |
| UserFilter.ApplyFilter | modules/user/dto/user_filter_input.go:34-92 | at most three clauses, in the order username, email, full_name; the build panics iff some field panics |
| UserFilter.FieldClauseMeaning | modules/user/dto/user_filter_input.go:37-50 | the clause built for an operator holds of a text column iff the value equals, differs from, is in, is not in, contains, starts with or ends with the search values (LIKE patterns included, when the value has no wildcard) |
| UserFilter.ApplyFilterMeaning | modules/user/dto/user_filter_input.go:34-92 | a user row passes the built clauses iff it meets every present field filter |
| UserFilter.ContainsDoeExample | modules/user/dto/user_filter_input.go:39-40 | `contains "doe"` on username selects "john_doe" and "jane_doe" but not "john_smith" |
| Listing.WithDefaults | modules/user/dto/user_filter_input.go:10-13 | zero paging fields take the tag defaults page 1, take 10, sort by "id", "asc"; other values are kept |
| Listing.ApplyPagination | modules/user/dto/user_filter_input.go:94-101 | descending iff the sort order is exactly "desc"; the sort column is taken verbatim; `offset = (page-1)*take`, `limit = take` |
| Listing.DefaultPagination | modules/course/dto/category_filter_input.go:9-10 | with every paging field unset, the first ten rows by ascending id |
| OrderFilter.ApplyFilter | modules/order/dto/order_filter_input.go:28-71 | at most two clauses, the `user_id` clause before the `amount` clause |
| OrderFilter.ApplyFilterMeaning | modules/order/dto/order_filter_input.go:28-71 | an order row passes iff it meets both present numeric filters |
| CourseFilter.Apply | modules/course/dto/course_filter_input.go:22-50 | at most one `user_id` clause, and the ordering and paging are applied whether or not the operator is recognised |
| CourseFilter.ApplyMeaning | modules/course/dto/course_filter_input.go:22-50 | a course row passes iff it meets the `user_id` filter; an unrecognised operator selects every row |
| CategoryFilter.ApplyFilter | modules/course/dto/category_filter_input.go:15-17 | no clause: every row passes and the store accepts the query |
| Ordering.Sort | modules/user/dto/user_filter_input.go:95-96 | the ordered rows are a permutation of the selected rows, sorted on the sort column in the chosen direction |
| Listing.Window | modules/user/dto/user_filter_input.go:97-98 | OFFSET and LIMIT keep rows `offset .. offset+limit` of the ordering, fewer at the end |
| Listing.FindPage | modules/user/user_service.go:40-45 | the page is the window of some ordering of exactly the matching rows, no longer than the limit |
| Listing.FindMany | modules/user/user_service.go:26-46 | the count covers every matching row whatever the page; the page is the window; a clause the store refuses fails the call |
| Listing.CountIgnoresPagination | modules/order/order_service.go:32-38 | two different paginations report the same count |
| Listing.MatchingCount | modules/user/user_service.go:33-38 | over distinct rows, the number of matching rows is the size of the set of rows the clauses select |
| Listing.NumPages | modules/user/user_controller.go:40 | `numPages` is the ceiling of count/take: enough pages for every row, no page wholly empty, 0 for no rows |
| Listing.PageOfIndex | modules/user/user_controller.go:38-51 | row `i` of the ordering is item `i % take` of page `i / take + 1`, and that page is within `1..numPages` |
| Listing.PagesBeyondAreEmpty | modules/user/user_controller.go:40 | a page past `numPages` is empty |
| TableQuery.Rows | modules/user/user_service.go:33-45 | the rows a query sees are exactly the stored records, each once |
| TableQuery.ListTable | modules/user/user_service.go:33-45 | count, then page, over a table: the count is the number of stored records the clauses select, and every listed record is stored and selected |
| TableQuery.CountWithoutClauses | modules/course/category_service.go:33-38 | with no clause the count is the size of the table |
| TableQuery.PagesBeyondAreEmpty | modules/user/user_controller.go:38-51 | a list request for a page past the `numPages` it reports gets an empty page |
| KeyedStore.Find | modules/user/user_service.go:58-64 | `First` succeeds iff the id is stored, and returns that record |
| KeyedStore.Create | modules/user/user_service.go:48-56 | a fresh id is added and nothing else changes, unless a unique column clashes, in which case nothing changes |
| KeyedStore.Update | modules/user/user_service.go:66-76 | a missing id fails with the table unchanged; on success the id holds the patched record, which is returned, and no other key changes |
| KeyedStore.Delete | modules/user/user_service.go:78-87 | a missing id fails; otherwise the record as it was is returned, that id is removed and every other key is unchanged |
| KeyedStore.Patch | modules/order/order_service.go:65-75 | with no unique column, an update fails exactly when the id is missing |
| KeyedStore.FindAfterCreate | modules/user/user_service_test.go:31-39 | a created record is found under its new id |
| KeyedStore.DeleteAfterCreate | modules/user/user_service.go:48-87 | deleting what was just created restores the table and returns the created record |
| KeyedStore.FindAfterUpdate | modules/user/user_service_test.go:53-64 | after an update the record is found as returned, and every other lookup answers as before |
| KeyedStore.FindAfterDelete | modules/user/user_service_test.go:66-81 | after a delete the id is gone and every other lookup answers as before |
| KeyedStore.Sizes | modules/user/user_service.go:48-87 | a successful create adds one record, a successful delete removes one |
| UserModel.ParseUserRole | modules/user/user_model.go:30-41 | a parsed role has the input as its text; parsing fails iff no role has that text |
| UserModel.ParseRoleName | modules/user/user_model.go:13-15 | `ParseUserRole(string(r)) == r` for each of the three roles |
| UserModel.RoleNamesDistinct | modules/user/user_model.go:13-15 | the three role texts are pairwise distinct and non-empty |
| UserModel.FailedParseIsEmptyRole | modules/user/user_model.go:38-39 | a failed parse yields the empty role, which is no role |
| UserService.FindManyUsers | modules/user/user_service.go:26-46 | a panic while building the clauses fails the call before any query; a refused clause fails it; otherwise at most `take` stored users |
| UserService.FindManyUsersMeaning | modules/user/user_service.go:33-45 | the count is the number of stored users meeting every field filter, and every listed user meets them |
| UserService.CreateUser | modules/user/user_service.go:48-56 | a duplicate username or email fails with the table unchanged; otherwise a fresh id holds the input's fields, no password and the Generic role |
| UserService.UpdateUserByID | modules/user/user_service.go:66-76 | a missing id or a clash with another user fails with the table unchanged; otherwise the three fields are overwritten and password and role kept |
| UserService.UpdateIdempotent | modules/user/user_service.go:66-76 | repeating a successful update changes nothing more |
| UserService.FindCreatedUser | modules/user/user_service_test.go:31-39 | a created user is found under its id with the input's fields |
| OrderService.FindManyOrders | modules/order/order_service.go:25-45 | the call fails iff a clause is refused; otherwise at most `take` stored orders |
| OrderService.FindManyOrdersMeaning | modules/order/order_service.go:32-44 | the count is the number of stored orders meeting the filter, and every listed order meets it |
| OrderService.CreateOrder | modules/order/order_service.go:47-55 | a fresh id holds an order for the input's user with zero amount and status unpaid |
| CategoryService.FindManyCategories | modules/course/category_service.go:26-46 | never fails; the count is the number of categories; the page is a window of an ordering of all of them |
| CategoryService.CreateCategory | modules/course/category_service.go:48-56 | a fresh id holds the given category |
| CourseService.FindManyCourses | modules/course/course_service.go:26-38 | no count: the call fails iff a clause is refused; otherwise it returns the filtered, ordered, paged courses |
| CourseService.FindManyCoursesMeaning | modules/course/course_service.go:26-38 | every listed course meets the `user_id` filter |
| CourseService.CreateCourse | modules/course/course_service.go:40-48 | a fresh id holds a course with the input's fields |
| AuthMiddleware.RoleAllowed | modules/auth/auth_middleware.go:45-50 | the loop finds a match iff some allowed role's text equals the claimed role |
| AuthMiddleware.Authorize | modules/auth/auth_middleware.go:22-55 | without an identity: 401 iff mandatory, else pass; with claims: pass iff a text `role` claim equals an allowed role, else 401; a non-claims value panics; no roles means no identity passes |
| AuthMiddleware.ParseAccessTokenFromCookie | modules/auth/auth_middleware.go:68-87 | no cookie, a token that does not verify, or the verified claims |
| AuthMiddleware.Authenticate | modules/auth/auth_middleware.go:58-66 | never aborts; it sets "user" iff the cookie exists and verifies, and then to the verified claims |
| AuthMiddleware.NoRoleClaimRejected | modules/auth/auth_middleware.go:37-41 | claims without a text `role` are rejected whatever the gate |
| Routes.DispatchRoute | core/routes.go:24-67 | a request to a registered route runs `Authenticate`, then the route's gate, and the handler only when the gate passes |
| Routes.Dispatch | core/routes.go:24-67 | an unregistered verb and route pattern is not found; a registered route with no gate always reaches its handler, with the identity `Authenticate` set |
| AuthMiddleware.AuthenticatedNeverPanics | modules/auth/auth_middleware.go:24-37 | behind `Authenticate` the unchecked claims assertion of `Authorize` never panics |
| Routes.AuthRoutesOpen | core/routes.go:28-32 | sign-in and sign-up always reach their handlers |
| Routes.UsersOpenToAnonymous | core/routes.go:36-37 | an anonymous request to GET or POST `/users/` reaches the handler |
| Routes.UploadsUnreachable | core/routes.go:43-44 | every request to the two upload routes is rejected with 401 |
| Routes.MediaListOnlyAnonymous | core/routes.go:42 | GET `/media/` reaches its handler iff the request carries no verified token |
| Routes.SuperOrAdminGate | core/routes.go:52 | the gate `Authorize(true, Super, Admin)` passes claims iff their `role` is the text "super" or "admin" |
| Routes.CreateCategoryGate | core/routes.go:52 | POST `/courses/categories/` reaches its handler iff the token verifies and its `role` claim is "super" or "admin" |
| Routes.UnroutedHandlers | core/routes.go:34-65 | the by-id handlers of users, media, categories and courses are on no route |
| Routes.OpenRoutesAlwaysHandled | core/routes.go:51-64 | every route without a gate reaches its handler whatever the token |
| CurrentUser.AudienceRole | utils/current_user.go:48-49 | the role comes from a text `aud` claim naming a role; anything else is the empty role, not an error |
| CurrentUser.GetCurrentUser | utils/current_user.go:19-54 | no "user" entry, a value that is not a claim map, a text `sub` that is not a decimal below 2^64, and a missing or other-typed `sub` are the four errors; a numeric `sub` is taken as it is |
| CurrentUser.DecimalSubject | utils/current_user.go:33-38 | a text `sub` written in decimal is read back as the same id |
| AuthService.AccessClaims | modules/auth/auth_service.go:32-38 | the claims are exactly `sub` = id, `iss` = "gourze", `aud` = the role, `exp` = now + 3600 and `iat` = now |
| AuthService.Signin | modules/auth/auth_service.go:49-71 | no user with that email or username fails; a wrong password fails; otherwise the lowest such id signs in with a fresh token, an empty refresh token and an expiry one hour ahead |
| AuthService.Signup | modules/auth/auth_service.go:73-101 | the hash, not the password, is stored; a hash failure or a duplicate username or email fails with the table unchanged; the result has an empty refresh token and expiry 0; when the hash works and nothing clashes it succeeds, and the returned user is the stored record under the returned id |
| AuthService.SignupThenSignin | modules/auth/auth_service_test.go:38-51 | a signed-up user can sign in by username with the same password and gets their own record |
| AuthService.IssuedClaimsIdentifyUser | modules/auth/auth_service.go:32-38 | the current user read from an issued token is that user with that role |
| AuthService.IssuedClaimsFailAuthorize | modules/auth/auth_middleware.go:38-41 | an issued token has no `role` claim, so every `Authorize` gate rejects it |
| AuthService.GenerateAccessToken | modules/auth/auth_service.go:30-41 | the token opens with the HS256 header and carries the encoded access claims as its payload segment |
| Jwt.SignedString | modules/auth/auth_service.go:39 | a signed token is the HS256 header, a dot, the encoded claims and a dot, followed by the MAC, and that third segment is exactly the MAC of the header, a dot and the encoded claims |
| KeyedStore.Insert | modules/order/order_service.go:47-55 | a create with no unique column always succeeds, under an id not stored before, and adds exactly that record |
| Bunny.UploadUrl | modules/media/bunny_service.go:30 | the PUT target is exactly "https://", the region, ".storage.bunnycdn.com/", the storage zone, then the upload path, with nothing in between |
| Bunny.DownloadUrl | modules/media/bunny_service.go:41 | the download URL is the base, a slash, then the upload path |
| Bunny.DownloadUrlDoubleSlash | modules/media/media_service.go:121 | an upload path that starts with a slash gives two slashes after the base |
| Bunny.UploadFile | modules/media/bunny_service.go:28-42 | success iff the PUT answers 201, and then the download URL |
| Bunny.ComputeTusUploadSignature | modules/media/bunny_service.go:44-49 | 64 lowercase hex characters that decode to the digest of the configured library id, the access key, the expiry and the video id |
| Bunny.SignatureIgnoresLibraryArgument | modules/media/bunny_service.go:44-45 | the `libraryId` argument does not affect the signature |
| Bunny.SignatureDeterminesDigest | modules/media/bunny_service.go:46-48 | two signatures are equal iff their digests are |
| Bunny.CreateVideoUrl | modules/media/bunny_service.go:53 | the POST target is the video library prefix, then the library id in decimal, then "/videos"; the id is the whole middle segment |
| Bunny.CreateVideoUrlInjective | modules/media/bunny_service.go:53 | different libraries get different create-video URLs |
| Bunny.CreateVideo | modules/media/bunny_service.go:51-74 | a transport error, a status other than 200, and an unreadable body are the three failures; otherwise the parsed video |
| Decimal.ParseUint | modules/user/user_controller.go:71 | `ParseUint(s, 10, bits)` rejects the empty text, any non-digit and any value from 2^bits up, and otherwise returns the value of the digits |
| Decimal.ParseFormatRoundTrip | modules/user/user_controller.go:71 | parsing the `%d` text of a number below 2^bits gives the number back |
| Decimal.DecimalLength | modules/media/media_service.go:229-234 | the decimal text of `n` has `k` digits when `10^(k-1) <= n < 10^k` |
| Hex.DecodeEncode | modules/media/bunny_service.go:46-48 | decoding the lowercase hex encoding gives the bytes back |
| Hex.EncodeInjective | modules/media/bunny_service.go:46-48 | different digests give different hex texts |
| MediaService.FindManyMedia | modules/media/media_service.go:55-75 | the call fails iff a clause is refused; the count covers every selected record; at most `take` stored and selected records |
| MediaService.Ext | modules/media/media_service.go:115 | the extension is empty or starts at the last dot of the final path element, and is a suffix of the name |
| MediaService.Title | modules/media/media_service.go:115 | the title followed by the extension is the original name |
| MediaService.TitleOfDoubleExtension | modules/media/media_service.go:115 | "a.tar.gz" gives the title "a.tar" |
| MediaService.TitleWithoutExtension | modules/media/media_service.go:115 | "noext" keeps its whole name |
| MediaService.TitleWithDottedDirectory | modules/media/media_service.go:115 | a dot in a directory name is no extension |
| MediaService.TitleOfDotFile | modules/media/media_service.go:115 | ".env" gives an empty title |
| MediaService.RandomNumericFilename | modules/media/media_service.go:229-234 | the name is the decimal microsecond clock reading followed by the draw plus 100000, written with exactly six digits |
| MediaService.SixDigits | modules/media/media_service.go:232 | every draw from 100000 to 999999 is written with six digits |
| MediaService.FileName | modules/media/media_service.go:121 | the file name is exactly the base, "_", the size id and ".jpg" |
| MediaService.UploadSizes | modules/media/media_service.go:118-142 | the sizes succeed iff each one encodes and uploads; then one entry per size, in order, with its size and file name |
| MediaService.UploadPhoto | modules/media/media_service.go:108-164 | a decode, encode or upload failure saves nothing; otherwise one image record with version "1.0", three files sm/md/lg of 150/300/600, each named after its size and carrying the download URL of its upload, the stripped title and an empty description |
| MediaService.UploadVideoViaTus | modules/media/media_service.go:167-208 | a create-video failure saves nothing; otherwise one video record is saved, and the headers carry the video id, the configured expiry and library and a signature for them, while the metadata echoes the input |
| MediaService.VideoIdsAgree | modules/media/media_service.go:186-200 | the saved record names provider "bunny" and the same video as the returned headers |
| Http.ParseId | modules/user/user_controller.go:71 | a path id is accepted iff it is a non-empty string of digits whose value is below 2^32 |
| Http.ParseIdOfDecimal | modules/user/user_controller.go:71 | every id below 2^32 written in decimal is accepted as itself |
| Http.ListReply | modules/user/user_controller.go:33-52 | a build panic propagates, a service error is 500, otherwise 200 with the page and `meta` = count, defaulted page and take, and a `numPages` of ceiling(count/take) |
| Http.FindById | modules/user/user_controller.go:69-82 | a bad id is 400 "Invalid user ID"; a missing record is 500; otherwise 200 with the stored record; with the entity name in the message, the same code is at modules/order/order_controller.go:68-81, modules/course/category_controller.go:77-90, modules/course/course_controller.go:69-82, modules/media/media_controller.go:73-86 |
| Http.UpdateById | modules/order/order_controller.go:83-102 | the id is checked before the body; bad id 400, bad body 400, missing record 500 with the table unchanged; otherwise 200 and the patched record stored and returned; the same code is at modules/course/category_controller.go:92-110, modules/course/course_controller.go:84-102, modules/media/media_controller.go:88-107 |
| Http.DeleteById | modules/order/order_controller.go:104-117 | bad id 400 "invalid-params"; missing record 500 with the table unchanged; otherwise 204 with the record as it was, and only that id removed; the same code is at modules/course/category_controller.go:112-125, modules/course/course_controller.go:104-117, modules/media/media_controller.go:109-122 |
| Http.FindAfterInsert | modules/user/user_controller.go:69-82 | a record created through a handler is found through the by-id handler under the decimal text of its id |
| Http.FindAfterDeleteById | modules/order/order_controller.go:68-117 | after a 204 delete the by-id lookup of that id is 500, and every other id answers as before |
| UserController.FindManyUsers | modules/user/user_controller.go:27-53 | a bad query is 400; a build panic propagates; a refused clause is 500; otherwise 200 with at most `take` stored users and `meta` holding the selected count, the defaulted page and take, and the ceiling page count |
| UserController.FindManyUsersMeta | modules/user/user_controller.go:38-51 | `numItems` is the number of stored users meeting the filter, every listed user meets it, and a page past `numPages` is empty |
| UserController.CreateUser | modules/user/user_controller.go:55-67 | a bad body is 400; a duplicate username or email is 500 with the table unchanged; otherwise 201 with the new user stored under a fresh id |
| UserController.UpdateUserByID | modules/user/user_controller.go:84-103 | bad id 400 "Invalid user ID", bad body 400; a missing user or a clash is 500 with the table unchanged; 200 exactly when the id is stored and no other user has the new username or email, and then the overwritten user |
| UserController.DeleteUserByID | modules/user/user_controller.go:105-118 | a bad id is 400 with code "ok"; a missing user is 500 with the table unchanged; otherwise 204 with the record as it was, and only that id removed |
| UserController.FindCreatedUser | modules/user/user_controller.go:55-82 | a user created through the endpoint is found through the by-id handler |
| OrderController.FindManyOrders | modules/order/order_controller.go:26-52 | a bad query is 400; a refused clause is 500; otherwise 200 with at most `take` stored orders and `meta` holding the selected count, the defaulted page and take, and the ceiling page count |
| OrderController.FindManyOrdersMeta | modules/order/order_controller.go:37-51 | `numItems` is the number of stored orders meeting the filter, every listed order meets it, and a page past `numPages` is empty |
| OrderController.CreateOrder | modules/order/order_controller.go:54-66 | a bad body is 400; otherwise 201 with a new unpaid, zero-amount order for the input's user |
| CategoryController.FindManyCategories | modules/course/category_controller.go:29-55 | a bad query is 400; otherwise 200 with `numItems` the number of categories and the page a window of an ordering of all of them |
| CategoryController.FindManyCategoriesBeyond | modules/course/category_controller.go:42 | a page past `numPages` is empty |
| CategoryController.CreateCategory | modules/course/category_controller.go:57-75 | a failed read of the current user panics; a role other than super or admin is 401 before the body is read; a bad body is 400; otherwise 201 with the category stored under a fresh id |
| CategoryController.CreateCategoryByClaims | modules/course/category_controller.go:59-64 | for verified claims, 201 iff `sub` names a user, `aud` is "super" or "admin", and the body binds |
| CategoryController.CreatedOnlyWithBothClaims | core/routes.go:52 | through the router, a category is created only for a token whose `role` and `aud` both name super or admin |
| CourseController.CreateCourse | modules/course/course_controller.go:55-67 | a bad body is 400; otherwise 201 with the new course carrying the input's fields |
| MediaController.FindManyMedia | modules/media/media_controller.go:45-71 | a bad query is 400; a refused clause is 500; otherwise 200 with selected, stored media and `meta` as for the other lists |
| MediaController.FindManyMediaBeyond | modules/media/media_controller.go:58 | a page past `numPages` is empty |
| MediaController.UploadPhoto | modules/media/media_controller.go:29-44 | a missing file field is 400 before the service runs; a service error is 500 with nothing saved; 200 exactly when the service succeeds, with the record it saved |
| MediaController.UploadVideoViaTus | modules/media/media_controller.go:125-141 | a failed read of the current user panics; a bad body is 400; the user id is the body's if given, else the current user's; a service error is 400 with code "internal-server-error"; a panic saves nothing |
| MediaController.TusUserFromToken | modules/media/media_controller.go:127-130 | with a numeric `sub` and no `userId` in the body, the upload is recorded for the `sub` user |

## Left out

- HTTP transport, gin binding and JSON: a bound body or query is an `Option`. An error's message text is `ErrorText`. A 204 reply is modelled with its data, although the HTTP layer sends no body with 204.
- The auth controller (modules/auth/auth_controller.go): it only sets cookies, on top of the error mapping already modelled.
- SQL execution: gorm binds a list to `= ?` or `> ?`. The model accepts such a clause only with a single value and otherwise fails the list call (`Query.Accepted`), rather than modelling the expansion.
- Database errors other than "not found" and unique clashes are not modelled.
- Listing.FindMany: the sort column is taken verbatim into `ORDER BY`. PostgreSQL rejects a column the table does not have, so Go answers such a list request with 500. The model instead sorts by a column that is NULL in every row, and answers 200.
- KeyedStore.Insert: the belongs-to foreign keys that `AutoMigrate` creates (orders.user_id, courses.user_id and category_id, order_items.order_id, chapters.media_id) are not modelled. So `OrderService.CreateOrder`, `OrderController.CreateOrder`, `CourseService.CreateCourse` and `CourseController.CreateCourse` promise a created record even when the referenced user or category does not exist, or the id is absent (0), where Go answers 500.
- KeyedStore.Delete: for the same reason, deleting a user, category, order or media that another table still references succeeds in the model, where the database refuses it and Go answers 500.
- Routes.Dispatch: the request path is a registered route pattern (`/orders/:id`). gin's matching of `:id` segments against concrete paths and its trailing-slash redirects (`/users` to `/users/`) are not modelled. An unregistered pattern is `NotFound`.
- Text ordering is by code point. The database collation is not modelled.
- NULL sorts last when ascending and first when descending.
- Query.Value: the float `Amount` and `Price` columns are integers.
- CurrentUser.GetCurrentUser: a numeric `sub` claim is a non-negative integer (`Jwt.CNum` holds a `nat`); the `uint(subFloat)` conversion of a fractional, negative or out-of-range float is not modelled.
- Listing.ApplyPagination: the offset `(Page-1)*Take` and the limit are unbounded integers. In Go the product is a `uint` that wraps modulo 2^64 for huge page and take values, and `int(offset)`, `int(filter.Take)` and the controllers' `int64(take)` can turn negative; neither the wrap nor those conversions is modelled, so for such inputs the model returns an empty page where Go may serve rows from another offset.
- Listing.WithDefaults: `creasty/defaults` is modelled as zero-fill of the paging fields and of present filter operators. Its error path is not modelled.
- bcrypt, SHA-256 and HS256 signing and verification are parameters. So are image decoding, Lanczos resizing and JPEG encoding, which are floating point.
- The clock and the random draw behind the file name are parameters.
- AuthService.AccessClaims: Go reads the clock separately for `exp` and for `iat`; the model takes one reading `now` for both, so it states `exp - iat == 3600` exactly, which Go does not guarantee when a second boundary falls between the two reads.
- AuthService.Signin: `AccessTokenExpiredAt` comes from a further clock read in Go; the model uses the same `now` as the token, so it equates the expiry with the token's `exp`.
- MediaService.RandomNumericFilename: a negative Unix-microsecond clock is not modelled.
- The update DTOs of orders, categories, courses and media: `Http.UpdateById` takes the copy of the bound input onto the found record as a patch function. The course update's copying of optional fields and the media update DTO are not part of this model.
- The category create DTO is not modelled: the category to store is the bound value itself.
- The media filter DTO is not part of this model. Its clauses are a parameter of `MediaService.FindManyMedia`.
- `UploadStatus`/`Uploading` do not exist in the media model, so `VideoRecord` stores none.
- The TUS metadata's always-nil `collection` is dropped.
- The course list controller is left out. It expects three results from a service that returns two, so it does not compile.
- The order items association is not modelled.
- Configuration loading, the database connection, migrations, root-user seeding and dependency wiring are not modelled.
- The Bunny response DTOs are reduced to the `guid` field the callers read.
