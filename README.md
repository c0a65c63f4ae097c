# Authentication, authorization and keyed tables of the Digicheese API

This project is a Dafny model of the security core of the Digicheese API (a
FastAPI service) and of six of its table services.

The security core covers five areas:

- **Session tokens.** Login issues an access token in the response body and a
  refresh token in the `refresh_token` cookie. Both carry `sub`, `roles`, `exp`,
  `jti` and `type` (the registered claims of section 4.1 of RFC 7519, plus two
  private ones). Refreshing rotates the pair: the presented `jti` goes into the
  process-wide revocation set `blacklist_jti` before the new pair is issued.
  Logging out revokes both `jti`s.
- **Per-request validation.** A middleware reads the bearer token (section 2.1 of
  RFC 6750) and the cookie and decides whether the request is rejected, passes
  through, or runs with a user attached. The dependency `get_current_user` then
  resolves that user to an identity with a set of roles.
- **The role guard `is_granted`.** An endpoint runs only for a user who holds one
  of the allowed roles.
- **The password policy.** This is a regular expression, modelled as written and
  proved equal to the policy it states.
- **Role administration.** Admin-only endpoints add, remove, replace and list a
  user's roles; replacement parses a CSV list of role names.

The table services cover `conditionnement_items`, `order_items` and
`update_items` (keyed by id pairs), and `stock_lines`, `shops` and `zip_code`
(keyed by an auto-incremented id). For each, the model gives the lookups, the
listings, and create, update and delete. Update applies a patch through the
same `setattr` loop as the source.

## Layout

| file | module | models |
|---|---|---|
| wrappers.dfy | `Wrappers`, `Http` | `Option`, `Result`; an HTTP failure or an uncaught exception |
| text.dfy | `Text` | `str.upper`, `str.strip`, `str.split`, `str.isdigit`, `str(int)`; ASCII character classes |
| roles.dfy | `Roles` | `RoleEnum` (ADMIN, OP_COLIS, OP_STOCK) |
| jwt.dfy | `Jwt` | claims, token creation, `jwt.decode` over an abstract codec |
| hashing.dfy | `Hashing` | `Auth.password_hash`, `Auth.verify_password` over an abstract hasher |
| middleware.dfy | `Middleware` | `blacklist_jti` (class `Blacklist`), `jwt_validation_middleware` |
| current_user.dfy | `CurrentUser` | `get_current_user` |
| session.dfy | `Session` | `AuthService.authenticate/refresh/logout/create_session`, `Auth.refresh_token`, `Auth.erase_credentials` |
| guard.dfy | `Guard` | `is_granted` |
| password.dfy | `Validators` | `Validator.validate_password`, `Validator.validate_email` |
| admin_roles.dfy | `AdminRoles` | the four endpoints of the admin roles router (class `RoleStore`) |
| tables.dfy | `Tables` | `ORDER BY`, `OFFSET/LIMIT`, the patch loop |
| conditionnement_items.dfy, order_items.dfy, update_items.dfy, stock_lines.dfy, shops.dfy, zip_codes.dfy | one module each | one service class each, whose map field is the table |

Environment inputs are parameters:

- The clock is `now`, the instant at which PyJWT checks `exp`, plus `later` for
  the code's own clock readings.
- `uuid4()` becomes `jti` parameters.
- The salt becomes a `salt` parameter.
- The RS256 signature (section 3.3 of RFC 7518) is a `Codec` value. `Jwt.Sound`
  requires only that its decode undoes its encode.
- Argon2 is a `Hasher` value.

Each service class models the referenced tables as sets of ids and carries a
`Valid()` invariant: every row sits under its own key and references existing
rows. Every method preserves it.

## Model

| member | source | states |
|---|---|---|
| Roles.Name | src/routers/admin_roles_router.py:115 | a role's name is non-empty and has no lower-case letter |
| Roles.Parse | src/routers/admin_roles_router.py:100-102 | a recognised name is the name of the role it gives; an unrecognised one is the name of no role |
| Roles.ParseName | src/routers/admin_roles_router.py:100-102 | parsing a role's name gives back that role |
| Roles.NameInjective | src/routers/admin_roles_router.py:100-102 | two roles with the same name are the same role |
| Roles.UpperName | src/security/guard/role_gard_decorator.py:11 | upper-casing a role name leaves it unchanged |
| Roles.Names | src/routers/admin_roles_router.py:136 | the names list has one entry per role, in order, each the role's name |
| Text.Upper | src/routers/admin_roles_router.py:97 | same length; each character upper-cased, a non-lower-case one kept |
| Text.UpperIdempotent | src/routers/admin_roles_router.py:97 | upper-casing twice is upper-casing once |
| Text.Strip | src/routers/admin_roles_router.py:97 | the stripped text neither starts nor ends with whitespace |
| Text.StripDropsSpaces | src/routers/admin_roles_router.py:97 | the stripped text is a contiguous slice of the input, and everything dropped on either side is whitespace |
| Text.StripFixed | src/routers/admin_roles_router.py:97 | text without whitespace at its ends is left unchanged |
| Text.Split | src/routers/admin_roles_router.py:96 | the result has at least one part, and no part contains the separator |
| Text.SplitJoin | src/routers/admin_roles_router.py:96 | joining the parts with the separator gives back the input |
| Text.JoinSplit | src/routers/admin_roles_router.py:96 | splitting a join of separator-free parts gives back the parts |
| Text.Decimal | src/security/auth.py:135 | `str(n)` is a non-empty string of digits with no leading zero |
| Text.DecimalRoundTrip | src/security/auth.py:135 | the digits of `str(n)` denote `n` |
| Jwt.Get | src/security/auth.py:82-84 | `payload.get(key)` is present exactly when the claim is, and then holds its value |
| Jwt.Render | src/security/auth.py:135 | `str(user_id)` of a string is that string |
| Jwt.EncodeInjective | src/security/auth.py:155-161 | under a sound codec, equal tokens carry equal claims |
| Jwt.Decode | src/security/auth.py:155-161 | a success is what the codec decodes, with an integer `exp` later than `now` (or no `exp`); `Expired` only for a token that decodes |
| Jwt.Payload | src/security/auth.py:134-140 | a created payload has exactly the keys `sub`, `roles`, `exp`, `jti`, `type`, with `sub` rendered as a string |
| Jwt.CreateAccessToken | src/security/auth.py:132-141 | under a sound codec, the token decodes to the access payload: type `access_token`, `exp` = now + 60 minutes |
| Jwt.CreateRefreshToken | src/security/auth.py:143-152 | under a sound codec, the token decodes to the refresh payload: type `refresh_token`, `exp` = now + 1 day |
| Jwt.JwtEncode | src/security/auth.py:163-173 | `jwt_encode` produces the same token as `create_access_token` |
| Jwt.CreatedTokenLifetime | src/security/auth.py:137 | a created token decodes to its payload before `exp` and is expired from `exp` on |
| Jwt.PairInvariant | src/security/auth.py:133-152 | a live pair decodes to the same `sub` and `roles`, with the two type tags, and the refresh token expires later |
| Jwt.NoSudClaim | src/security/auth.py:133-152 | no created token carries a `sud` claim |
| Hashing.PasswordHash | src/security/auth.py:62-64 | the stored hash is a well-formed Argon2 string with the drawn salt |
| Hashing.VerifyPassword | src/security/auth.py:66-71 | raises exactly on an unparseable hash; otherwise true iff the digest matches, and a mismatch is `false`, not an error |
| Hashing.VerifyHashed | src/security/auth.py:62-71 | a password verifies against its own hash |
| Middleware.Blacklist.constructor | src/security/middleware.py:8 | the revocation set starts empty |
| Middleware.IndexOf | src/security/middleware.py:20 | the index is that of the first occurrence of the character |
| Middleware.BearerTokenAfterPrefix | src/security/middleware.py:17-20 | on a `Bearer ` header, `split(" ", 1)[1]` is everything after the prefix |
| Middleware.WrapString | src/security/middleware.py:34-36 | a string `roles` claim becomes a one-element list; any other value is kept |
| Middleware.Validate | src/security/middleware.py:10-49 | no cookie or no `Bearer ` header passes through; with both present the request never passes through, a user is attached iff both tokens decode and the pair is neither revoked nor mismatched, the user is then the access token's `sub`, wrapped `roles` and `jti`, a decode failure rejects with that token's detail, and a revoked or mismatched pair is rejected with "Invalid credentials" |
| Middleware.DecodeFailureRejects | src/security/middleware.py:44-47 | if either token fails to decode (expired or invalid), the request is rejected |
| Middleware.RevocationTest | src/security/middleware.py:26-27 | the revocation set matters only through the refresh `jti`, and only when the access `jti` is truthy |
| Middleware.SudQuirk | src/security/middleware.py:31-32 | with no `sud` claim, the mismatch test is exactly "the roles differ" |
| Middleware.SubjectMismatchAccepted | src/security/middleware.py:29-42 | a pair with equal roles and different subjects is accepted, with the access subject attached |
| Middleware.IssuedPairAccepted | src/security/middleware.py:22-42 | a live, unrevoked issued pair attaches its subject, roles and access `jti` |
| Middleware.RevokedPairRejected | src/security/middleware.py:26-27 | a pair whose refresh `jti` is revoked is always rejected |
| CurrentUser.ToRoles | src/security/auth.py:55 | succeeds iff every name is a role name, and then gives exactly the roles with those names |
| CurrentUser.Resolve | src/security/auth.py:18-57 | 401 without a user or cookie; a refresh token that fails to decode raises; 401 when the subject or roles differ from the refresh token's; a roles claim that cannot be iterated raises `TypeError` and an upper-cased name that is not a role raises `KeyError`; it succeeds iff none of these happens, and then the id is the refresh `sub` and the roles are exactly those the upper-cased names of the refresh `roles` name |
| CurrentUser.GetCurrentUser | src/security/auth.py:18-57 | the loop collecting upper-cased role names produces the result of `Resolve` |
| CurrentUser.UpperNamesOfRoles | src/security/auth.py:44-55 | the upper-cased names of a role list name exactly its roles, and all of them parse |
| CurrentUser.IssuedPairIdentity | src/security/auth.py:18-57 | a live issued pair passes the middleware and resolves to its user id and exactly its roles |
| Guard.NamesMeet | src/security/guard/role_gard_decorator.py:18-20 | the name sets are disjoint iff the user holds no allowed role |
| Guard.IsGranted | src/security/guard/role_gard_decorator.py:10-29 | the dependency's failure is passed on; the endpoint runs iff the user holds an allowed role, with the original arguments and its result unchanged; otherwise 403 `Accès refusé` |
| Guard.GrantMonotone | src/security/guard/role_gard_decorator.py:20-24 | more allowed roles or more held roles never turn access into refusal |
| Guard.NothingGranted | src/security/guard/role_gard_decorator.py:11-24 | a user with no roles, or a guard with no allowed roles, always gets 403 |
| Guard.AdminGuard | src/security/guard/role_gard_decorator.py:10-24 | `is_granted(ADMIN)` lets a user through iff they hold ADMIN |
| Validators.MatchesMeansPolicy | src/validators/validator.py:19 | the regular expression as written (line-feed semantics of `.` and `$` included) matches exactly the passwords meeting the policy |
| Validators.ValidatePassword | src/validators/validator.py:6-21 | `None` gives the "missing" error; a password is accepted iff it has 12+ characters, upper, lower, digit, a non-word character and no whitespace; an accepted password is returned unchanged |
| Validators.TrailingLineFeedRefused | src/validators/validator.py:19 | a final line feed, which `$` alone would allow, is refused |
| Validators.ValidateEmail | src/validators/validator.py:23-25 | every address is accepted unchanged |
| Session.SessionCookie | src/services/auth_service.py:71-79 | the cookie is `refresh_token`, httponly, secure, samesite strict, path `/`, and carries the token |
| Session.CookieOutlivesToken | src/services/auth_service.py:77 | the cookie's 7-day max age exceeds the 1-day refresh lifetime by 6 days |
| Session.CreateSession | src/services/auth_service.py:67-79 | sets the session cookie with a refresh token for the user's id and role names |
| Session.Authenticate | src/services/auth_service.py:19-46 | success iff the user exists, the password verifies and the token is non-empty; then the body and cookie hold a pair for the same id and roles; unknown user gives 401 `Invalid credentials`; an unparseable hash is an uncaught error; a failure sets no cookie |
| Session.SameAnswerForUnknownUserAndWrongPassword | src/services/auth_service.py:22-32 | an unknown user name and a wrong password produce identical replies |
| Session.CorrectPasswordLogsIn | src/services/auth_service.py:19-46 | a user whose hash was made from the password logs in |
| Session.LoginSessionResolves | src/services/auth_service.py:34-46 | the login's token and cookie pass the middleware and resolve to the user's id and exactly the user's roles |
| Session.Rotate | src/security/auth.py:73-107 | decode errors, a wrong type and a revoked `jti` fail with 401 and change nothing; on success the token was a live refresh token, its `jti` is now revoked, and the new pair carries the old `sub` and `roles` |
| Session.RefreshToken | src/security/auth.py:73-107 | the method's result, cookie and new revocation set are those of `Rotate` |
| Session.Refresh | src/services/auth_service.py:48-55 | an absent or empty token fails with 401 before decoding and revokes nothing; otherwise it rotates |
| Session.RotationSingleUse | src/security/auth.py:84-89 | after a successful rotation, presenting the same token again fails with 401 at any time |
| Session.AccessTokenCannotRotate | src/security/auth.py:82-83 | a live access token is refused with `Invalid credentials` and nothing is revoked |
| Session.IssuedRefreshRotates | src/security/auth.py:88-103 | a live, unrevoked issued refresh token rotates, revoking exactly its own `jti`, to a new pair for the same subject and roles |
| Session.RotationReplacesPair | src/security/auth.py:88-103 | after rotation the middleware rejects the old pair and accepts the new one |
| Session.Erase | src/security/auth.py:109-129 | succeeds iff the cookie decodes; then the cookie is deleted and, when either `jti` is truthy, both are revoked; a failure is an uncaught error and changes nothing |
| Session.EraseCredentials | src/security/auth.py:109-129 | the method's result and new revocation set are those of `Erase`; on success `request.state.user` is cleared |
| Session.Logout | src/services/auth_service.py:57-65 | without a cookie it fails with 401 and changes nothing; otherwise it erases the credentials, clearing `request.user` on success and leaving it unchanged on failure |
| Session.LogoutRevokesSession | src/security/auth.py:121-126 | after logout with a live pair, both `jti`s are revoked, the middleware rejects the pair and rotation refuses the refresh token |
| AdminRoles.AdminRefusal | src/routers/admin_roles_router.py:15 | no refusal iff the caller resolved and holds ADMIN; a resolution failure is passed on |
| AdminRoles.WithRole | src/routers/admin_roles_router.py:39-40 | the role is present after; a role already there leaves the list unchanged; otherwise it is appended |
| AdminRoles.FirstIndex | src/routers/admin_roles_router.py:70 | the index is that of the first occurrence |
| AdminRoles.WithoutRole | src/routers/admin_roles_router.py:69-70 | an absent role leaves the list unchanged; otherwise exactly its first occurrence is removed |
| AdminRoles.AddKeepsDistinct | src/routers/admin_roles_router.py:39-40 | adding keeps a list free of duplicates |
| AdminRoles.RemoveFromDistinct | src/routers/admin_roles_router.py:69-70 | from a duplicate-free list, removal takes the role out entirely and keeps every other role |
| AdminRoles.RemoveUndoesAdd | src/routers/admin_roles_router.py:39-70 | adding a missing role and then removing it restores the list |
| AdminRoles.Normals | src/routers/admin_roles_router.py:97 | each part is stripped and upper-cased, one name per part |
| AdminRoles.WantedLast | src/routers/admin_roles_router.py:96-102 | the last name adds at most its own role, keeps the earlier roles, and when non-empty is a parsed, wanted role |
| AdminRoles.WantedOnlyNamed | src/routers/admin_roles_router.py:96-102 | every wanted role was named in the CSV |
| AdminRoles.WantedAllNamed | src/routers/admin_roles_router.py:96-102 | every non-empty name is a role, and that role is wanted (empty parts are skipped) |
| AdminRoles.FailureSticks | src/routers/admin_roles_router.py:100-101 | once a prefix fails, the whole list fails with the same name |
| AdminRoles.WantedFailureNamesPart | src/routers/admin_roles_router.py:100-101 | a failure names a non-empty part of the CSV that is not a role |
| AdminRoles.ParseWanted | src/routers/admin_roles_router.py:94-102 | the parsing loop gives the roles the normalised CSV parts ask for, or the first invalid name |
| AdminRoles.NormalNames | src/routers/admin_roles_router.py:97 | role names are unchanged by strip and upper |
| AdminRoles.WantedOfNames | src/routers/admin_roles_router.py:96-102 | the names of a role list ask for exactly that list |
| AdminRoles.CsvRoundTrip | src/routers/admin_roles_router.py:80-102 | a role list written as CSV parses back to the same list |
| AdminRoles.RowsFor | src/routers/admin_roles_router.py:105 | the rows found are exactly the wanted roles present in the table, without duplicates |
| AdminRoles.DistinctCount | src/routers/admin_roles_router.py:107 | a duplicate-free list has as many elements as its set |
| AdminRoles.CountTest | src/routers/admin_roles_router.py:107-108 | the length test passes iff every wanted role is in the table |
| AdminRoles.RoleStore.AddRoleToUser | src/routers/admin_roles_router.py:14-44 | refused unless ADMIN; 404 for a missing user, then a missing role, changing nothing; otherwise idempotent add to that user only |
| AdminRoles.RoleStore.RemoveRoleFromUser | src/routers/admin_roles_router.py:47-74 | refused unless ADMIN; 404 for a missing user or role; otherwise the first occurrence is removed, and an absent role changes nothing |
| AdminRoles.RoleStore.SetRolesForUser | src/routers/admin_roles_router.py:76-115 | refused unless ADMIN; 404 for a missing user; 400 naming the first invalid part; 400 when a wanted role is not in the table; any failure changes nothing; on success the user's roles are exactly the wanted ones, without duplicates, other users unchanged |
| AdminRoles.RoleStore.GetUserRoles | src/routers/admin_roles_router.py:117-137 | refused unless ADMIN; 404 for a missing user; otherwise the names of the user's roles, one per stored role, in order |
| Tables.Min | src/services/shop_service.py:38 | the smallest id of a non-empty set |
| Tables.Ascending | src/services/shop_service.py:38 | `ORDER BY id` lists exactly the ids, strictly increasing |
| Tables.AscendingSize | src/services/shop_service.py:38 | ordering neither drops nor repeats an id |
| Tables.AscendingRank | src/services/shop_service.py:38 | the id at position `n` has exactly `n` smaller ids |
| Tables.SecondsOf | src/services/conditionnement_item_service.py:70-76 | the second key parts paired with the first, increasing |
| Tables.FirstsOf | src/services/conditionnement_item_service.py:79-85 | the first key parts paired with the second, increasing |
| Tables.RowsWithFirst | src/services/conditionnement_item_service.py:70-76 | the rows whose key starts with the value, ordered by the key's second part |
| Tables.RowsWithSecond | src/services/conditionnement_item_service.py:79-85 | the rows whose key ends with the value, ordered by the key's first part |
| Tables.RowsWhere | src/services/shop_service.py:49-51 | exactly the rows the filter keeps, in increasing id order |
| Tables.Page | src/services/shop_service.py:37-39 | `OFFSET skip LIMIT limit`: empty past the end, otherwise `min(limit, n - skip)` rows, the `i`-th being row `skip + i` |
| Tables.KeyPage | src/services/stock_line_service.py:51-53 | the page's ids are increasing, and the `i`-th has exactly `skip + i` smaller ids in the table |
| Tables.ConsecutivePages | src/services/shop_service.py:37-39 | reading two consecutive pages equals reading one page as long as both |
| Tables.ApplyPatch | src/services/conditionnement_item_service.py:114-116 | the `setattr` loop assigns the dumped fields in order |
| Tables.AppliedConcat | src/services/conditionnement_item_service.py:114-116 | applying two batches of fields is applying their concatenation |
| Tables.AppliedStep | src/services/conditionnement_item_service.py:114-116 | applying at most one more field |
| Tables.AppliedOne | src/services/conditionnement_item_service.py:114-116 | applying one field is one assignment |
| ConditionnementItems.ValidateQtyRange | src/services/conditionnement_item_service.py:55-57 | an error exactly when `quantity_min > quantity_max` |
| ConditionnementItems.PatchMerges | src/services/conditionnement_item_service.py:114-116 | the loop yields the row with each set field replaced and the others kept; the key never changes |
| ConditionnementItems.ConditionnementItemService.GetLink | src/services/conditionnement_item_service.py:61-67 | not found exactly when the pair is absent; a found row has that key and a valid range |
| ConditionnementItems.ConditionnementItemService.ListByConditionnement | src/services/conditionnement_item_service.py:70-76 | exactly that conditionnement's rows, by increasing item id |
| ConditionnementItems.ConditionnementItemService.ListByItem | src/services/conditionnement_item_service.py:79-85 | exactly that item's rows, by increasing conditionnement id |
| ConditionnementItems.ConditionnementItemService.CreateLink | src/services/conditionnement_item_service.py:88-103 | checks conditionnement, item, range, duplicate in that order, each failure leaving the table unchanged; success inserts exactly the payload under its key |
| ConditionnementItems.ConditionnementItemService.UpdateLink | src/services/conditionnement_item_service.py:106-124 | not found for a missing pair; the merged row is committed iff its range holds, else a range error with the table unchanged |
| ConditionnementItems.ConditionnementItemService.DeleteLink | src/services/conditionnement_item_service.py:127-130 | not found for a missing pair; otherwise exactly that row is removed |
| OrderItems.PatchMerges | src/services/order_item_service.py:98-100 | the loop yields the row with each set field replaced (a set comment may be null); the key never changes |
| OrderItems.OrderItemService.GetOrderItem | src/services/order_item_service.py:46-52 | not found exactly when the pair is absent; a found row has that key |
| OrderItems.OrderItemService.ListByCommande | src/services/order_item_service.py:55-61 | exactly that commande's rows, by increasing item id |
| OrderItems.OrderItemService.ListByItem | src/services/order_item_service.py:64-70 | exactly that item's rows, by increasing commande id |
| OrderItems.OrderItemService.CreateOrderItem | src/services/order_item_service.py:73-87 | checks commande, item, duplicate in that order, each failure leaving the table unchanged; success inserts exactly the payload |
| OrderItems.OrderItemService.UpdateOrderItem | src/services/order_item_service.py:90-105 | not found for a missing pair; otherwise only the patched fields of that row change |
| OrderItems.OrderItemService.DeleteOrderItem | src/services/order_item_service.py:108-111 | not found for a missing pair; otherwise exactly that row is removed |
| UpdateItems.PatchMerges | src/services/update_item_service.py:96-98 | the loop yields the row with the quantity replaced when set; the key never changes |
| UpdateItems.UpdateItemService.GetUpdateItem | src/services/update_item_service.py:46-50 | not found exactly when the pair is absent; a found row has that key |
| UpdateItems.UpdateItemService.ListByUpdate | src/services/update_item_service.py:53-59 | exactly that update's rows, by increasing item id |
| UpdateItems.UpdateItemService.ListByItem | src/services/update_item_service.py:62-68 | exactly that item's rows, by increasing update id |
| UpdateItems.UpdateItemService.CreateUpdateItem | src/services/update_item_service.py:71-85 | checks update, item, duplicate in that order, each failure leaving the table unchanged; success inserts exactly the payload |
| UpdateItems.UpdateItemService.UpdateUpdateItem | src/services/update_item_service.py:88-103 | not found for a missing pair; otherwise only the patched field of that row changes |
| UpdateItems.UpdateItemService.DeleteUpdateItem | src/services/update_item_service.py:106-109 | not found for a missing pair; otherwise exactly that row is removed |
| StockLines.LinkFieldsApplied | src/services/stock_line_service.py:85-86 | the item, stock and designation fields of a patch are applied as set |
| StockLines.ContentFieldsApplied | src/services/stock_line_service.py:85-86 | the two date fields and the quantity field of a patch are applied as set |
| StockLines.PatchMerges | src/services/stock_line_service.py:85-86 | the loop yields the row with each set field replaced (nullable ones possibly to null); the id never changes |
| StockLines.StockLineService.GetStockLine | src/services/stock_line_service.py:56-60 | not found exactly when the id is absent; a found row has that id and an existing item |
| StockLines.StockLineService.ListStockLines | src/services/stock_line_service.py:51-53 | rows by increasing id, `skip` skipped, `min(limit, n - skip)` kept; the `i`-th row has exactly `skip + i` smaller ids |
| StockLines.StockLineService.GetStockLinesByItem | src/services/stock_line_service.py:63-65 | exactly that item's rows, by increasing id |
| StockLines.StockLineService.CreateStockLine | src/services/stock_line_service.py:32-48 | the item must exist, and the stock only when one is given; a failure changes nothing; success inserts the row under the next id |
| StockLines.StockLineService.UpdateStockLine | src/services/stock_line_service.py:68-91 | a patched item must exist; a patched stock must exist unless null; a failure changes nothing; otherwise only the patched fields change |
| StockLines.StockLineService.DeleteStockLine | src/services/stock_line_service.py:94-97 | not found for a missing id; otherwise exactly that row is removed |
| Shops.PatchMerges | src/services/shop_service.py:63-64 | the loop yields the row with each set field replaced; the id never changes |
| Shops.ShopService.GetShop | src/services/shop_service.py:42-46 | not found exactly when the id is absent; a found row has that id and an existing item |
| Shops.ShopService.ListShops | src/services/shop_service.py:37-39 | rows by increasing id, `skip` skipped, `min(limit, n - skip)` kept; the `i`-th row has exactly `skip + i` smaller ids |
| Shops.ShopService.ListShopsByItem | src/services/shop_service.py:49-51 | exactly that item's rows, by increasing id |
| Shops.ShopService.CreateShop | src/services/shop_service.py:26-34 | fails iff the item is missing, changing nothing; success inserts the row under the next id |
| Shops.ShopService.UpdateShop | src/services/shop_service.py:54-69 | not found for a missing id; a patched item must exist; a failure changes nothing; otherwise only the patched fields change |
| Shops.ShopService.DeleteShop | src/services/shop_service.py:72-75 | not found for a missing id; otherwise exactly that row is removed |
| ZipCodes.InvalidCode | src/services/zip_code_service.py:41 | a code is valid iff it is exactly five ASCII digits |
| ZipCodes.PatchMerges | src/services/zip_code_service.py:56-57 | the loop yields the row with each set field replaced; the id never changes |
| ZipCodes.ZipCodeService.constructor | src/services/zip_code_service.py:15-18 | an empty table satisfies the invariant, unique codes included |
| ZipCodes.ZipCodeService.GetZipCodeById | src/services/zip_code_service.py:24-30 | not found exactly when the id is absent; a found row has that id and is the only row with its code |
| ZipCodes.ZipCodeService.CreateZipCode | src/services/zip_code_service.py:32-48 | department first, then a duplicate code, then the five-digit format, each failure changing nothing; success inserts under the next id and keeps codes unique |
| ZipCodes.ZipCodeService.UpdateZipCode | src/services/zip_code_service.py:50-59 | not found for a missing id; any patched code already in the table is refused, the row's own included; otherwise only the set fields change, and codes stay unique |
| ZipCodes.ZipCodeService.DeleteZipCode | src/services/zip_code_service.py:61-66 | removes the id if present; a missing id is silently ignored |

## Left out

- Cryptography. RS256 signing and Argon2 hashing are abstract function values. Key loading (src/config/jwt_config.py) is file I/O and is left out.
- Wall clock, `uuid4()` and the password salt are parameters. Nothing in the model makes the `jti`s fresh; lemmas that need distinct ids require them.
- PyJWT's expiry rule is taken as "expired once `exp <= now`", with one clock reading per call. PyJWT also accepts a numeric string as `exp`; here `exp` must be an integer claim.
- `Auth.refresh_token` reads the clock again after decoding. That check is modelled with `later`; when `later == now` it can never fire.
- Session.EraseCredentials: an absent refresh cookie is modelled as an uncaught decode error, as `jwt.decode(None)` raises. Which exception class it is does not matter to the model.
- Hashing.VerifyPassword: a stored hash that Argon2 cannot parse raises, as the code catches only `VerifyMismatchError`. The model does not fold it into `false`.
- Middleware.Validate: the revocation set holds `Option<Claim>`, because `erase_credentials` can add `None`; the middleware's test is modelled as written against that set.
- The `RoleEnum` file is not part of this model. Its members ADMIN, OP_COLIS and OP_STOCK come from their uses, and each member's value is taken to equal its name.
- FastAPI plumbing is left out: `Request`/`Response` objects, `Depends`, `async`/`await`, the guard's awaitable branch and the call to the next handler. Handlers are plain function values. Calls are sequential; concurrency on `blacklist_jti` is not modelled.
- Text: `str.upper`, `str.strip`, `str.isdigit` and the regex classes `\d`, `\w`, `\s` are restricted to ASCII. Python's Unicode case mapping and Unicode digits are not modelled.
- AdminRoles.RoleStore.SetRolesForUser: the stored list's order is the declaration order of the roles. The database's row order is not modelled. A user's duplicate role rows are not modelled beyond what `remove` does to the first occurrence.
- AdminRoles.CountTest: the role table is a set of roles, so it is assumed to hold at most one row per role name. The source compares the number of rows found with the number of distinct wanted names (src/routers/admin_roles_router.py:107). With two rows of the same name it answers 400 even when every wanted role exists. The equivalence proved here, and AdminRoles.RowsFor and AdminRoles.RoleStore.SetRolesForUser, rely on this assumption. The `Role` table's definition is not part of this model.
- Jwt: a claim value is a string, a list of strings or an integer. Floats, booleans, `null` and lists of non-strings are not modelled, since only the application signs tokens. So the `str(role).upper()` fallback of `get_current_user` for a non-string list element (src/security/auth.py:51-53) has no counterpart.
- AdminRoles.RoleStore.RemoveRoleFromUser: the source's lookup compares `Role.name` with the enum member rather than its value. With values equal to names, the two lookups coincide.
- Pydantic schema validation is left out (bounds such as `ge`, `gt`, `min_length`, `max_length`). Patches model a field as unset (`None`) or set, so they cannot express an explicit `null`.
- An explicit `null` in an update body is accepted by every patch schema, since each field is declared `Optional`. The source then applies it with `setattr` and fails in ways the model does not capture. `{"quantity_min": null}` makes `_validate_qty_range` compare `None` with an integer and raise `TypeError` (src/services/conditionnement_item_service.py:56). `{"item_id": null}` on a shop or a stock line looks up `Item` with `None`. A `null` on a NOT NULL column fails at commit.
- Database constraints are left out: the `CHECK` on quantities and the foreign keys. Only the existence checks the code performs are modelled. In particular, `update_zip_code` does not check the patched department, and neither does the model.
- ZipCodes.ZipCodeService.CreateZipCode: a missing department fails with "Department not found", raised by `DepartmentService.get_department_by_id` (src/services/department_service.py:22-28). The service's own "Zip Code not found" branch is therefore unreachable and does not appear.
- ZipCodes.ZipCodeService.UpdateZipCode: a patch without a code queries `code IS NULL`. That matches no row, since the column is not nullable.
- `get_all_zip_codes` (a plain `find_all`) is not part of this model.
- ConditionnementItems.ConditionnementItemService.UpdateLink: on a failed range check the source has already patched the session's copy of the row in memory, without committing it. The model leaves the table unchanged and does not model the session cache.
- Auto-increment ids are a `nextId` counter starting at 1. Ids the database skips after failed inserts are not modelled.
- Dates are day numbers. The default `date` of a new shop entry (the current day) is supplied by the caller.
- Listing functions are ghost functions. `skip` and `limit` are natural numbers, so negative offsets are not modelled. `DEFAULT_LIMIT` (50) is what the listings use when the caller gives no limit.
