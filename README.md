# teletienda: authentication, revocation and record rules in Dafny

teletienda is a FastAPI shop back end. This project models its session
authority and the record rules around it:

- **Credentials.** A user is looked up by username or email and the password
  is checked against its bcrypt digest.
- **Tokens.** Access tokens carry `sub`, `role` and `exp`, are signed with the
  access secret and last 15 minutes by default. Refresh tokens carry `sub` and
  `exp`, are signed with a separate refresh secret and last 7 days. Signing
  is JWT (RFC 7519) with HS256 (section 3.2 of RFC 7518).
- **Revocation store.** This is the Redis client. Logout writes the access
  token with a time-to-live equal to its remaining lifetime, and only when
  that lifetime is positive. Every request guard asks the store before
  anything else.
- **Guards.**
  - `get_current_user`: not revoked, then decodes, then `int(sub)` names an
    existing and active user.
  - `get_current_active_admin`: the stored role must be `admin`.
- **Endpoints.**
  - Login mints a pair of tokens for the authenticated user.
  - Refresh mints a new pair from a refresh token.
  - Logout revokes the bearer token.
- **Records.** These cover creating, reading, updating and deleting users
  and orders, the export endpoint's choice of orders and its file naming,
  and the models' defaults, unique columns and schema constraints.

The model follows the source's shape:

- The token codec, the guards, login and refresh are functions.
- The Redis client is the class `Revocation.RevocationStore`, with a
  `map<Token, int>` from token to expiry instant and a clock.
- The database session is the class `Db.Session`, with the three tables as
  sequences kept in primary-key order. `Session.Valid` holds the schema's
  constraints: keys, unique username and email, and the foreign keys from
  orders to users and from items to orders.
- The CRUD operations that commit changes are methods on the session. The
  rows that `create_order` adds are built in a loop.
- An `HTTPException` is a `Failure(HttpError(status, detail))`.
- An exception nothing catches is `Failure(ServerError)`, which is status 500.

Tables are sequences, not maps keyed by id, kept in primary-key order.
`get_users` pages with `OFFSET`/`LIMIT` and the login lookup takes the
`.first()` match, both without `ORDER BY`; the model reads both in key
order.

Refresh keeps the source's behaviour: a refreshed access token always claims
the role `"cliente"` (app/routers/auth.py:49), whatever the user's stored
role. `AuthRouter.RefreshDemotesRoleClaim` shows that the claim of a
refreshed admin token no longer matches the stored role.
`AuthRouter.RefreshedAdminStillAdmin` and `Auth.RoleClaimIgnored` show the
mismatch has no effect today, because the guards read the role from the
stored row and never from the claim.

Refresh tokens are not rotated (`AuthRouter.RefreshReplayable`). Login does
not look at `is_active` (`Auth.AuthenticateOwnPassword`); an inactive user
still gets tokens and is then refused by the guard.

## Model

| member | source | states |
|---|---|---|
| Passwords.VerifyPassword | app/auth.py:39-40 | a password verifies against a digest exactly when the digest is that password's hash |
| Passwords.GetPasswordHash | app/auth.py:42-43 | the digest is determined by the password it was made from, which is what verification later checks against |
| Passwords.HashInjective | app/auth.py:42-43 | different passwords never share a digest |
| Passwords.VerifyOwnHash | app/auth.py:39-43 | a stored digest verifies the password it was made from and no other |
| Auth.GetUserByUsernameOrEmail | app/auth.py:49-51 | none exactly when no row has that username or email; otherwise a matching row with no matching row before it in key order |
| Auth.LookupByUsername | app/auth.py:49-51 | with unique columns, a username that is nobody's email finds its own row |
| Auth.LookupByEmail | app/auth.py:49-51 | with unique columns, an email that is nobody's username finds its own row |
| Auth.AuthenticateUser | app/auth.py:53-59 | none when no row matches the login text; some exactly when the found row's digest is the password's hash, and then it is that row |
| Auth.AuthenticateOwnPassword | app/auth.py:53-59 | a stored user authenticates with their own password, whether active or not, and not with any other password |
| Tokens.AccessLifetimeFor | app/auth.py:67 | a missing or zero `expires_delta` gives 15 minutes; any other value is used as given |
| Tokens.CreateAccessToken | app/auth.py:65-69 | the token is signed with the access secret and carries the subject, the role and an `exp` one lifetime after `now` |
| Tokens.CreateRefreshToken | app/auth.py:71-74 | the token is signed with the refresh secret and carries the subject, no role and an `exp` seven days after `now` |
| Tokens.AccessRoundTrip | app/auth.py:65-69 | an access token decodes to the subject, role and `exp = now + lifetime` it was minted with until `exp`, and to "Token expirado" from then on |
| Tokens.RefreshRoundTrip | app/auth.py:71-74 | a refresh token yields its subject until its `exp = now + 7 days` has passed, then "Refresh token expirado" |
| Tokens.DecodeAccessToken | app/auth.py:96-103 | success exactly when the token decodes under the access secret with a role claim, giving its claims; an uncaught server error exactly when it decodes without a role claim; "Token expirado" exactly for an expired signature; "Token inválido" exactly for a bad signature or malformed token |
| Tokens.DecodeRefreshToken | app/auth.py:105-112 | the subject exactly when the token decodes under the refresh secret; otherwise "Refresh token expirado" for expired and "Refresh token inválido" for invalid |
| Tokens.RefreshIsNotAccess | app/auth.py:21-22 | with distinct secrets a refresh token is "Token inválido" as an access token |
| Tokens.AccessIsNotRefresh | app/auth.py:21-22 | with distinct secrets an access token is "Refresh token inválido" as a refresh token |
| Tokens.SharedSecretRefreshAsAccess | app/auth.py:96-99 | with one secret for both, a live refresh token passes the signature check as an access token but, having no role, fails payload validation (500) |
| Tokens.DefaultSecretsDiffer | app/auth.py:21-22 | the two default secrets differ |
| Tokens.DecodeAccessTokenAsWritten | app/auth.py:96-103 | as written: every non-expiry decode failure is a server error; other outcomes agree with the corrected decoder |
| Tokens.DecodeRefreshTokenAsWritten | app/auth.py:105-112 | as written: every non-expiry decode failure is a server error; other outcomes agree with the corrected decoder |
| Tokens.GarbageAccessTokenAsWritten | app/auth.py:96-103 | a malformed bearer string gets 500 as written and "Token inválido" as intended |
| Tokens.AccessTokenRefreshedAsWritten | app/auth.py:105-112 | an access token offered for refresh gets 500 as written and "Refresh token inválido" as intended |
| Jwt.Encode | app/auth.py:65-74 | the token is signed, carries exactly the given claims and records the secret it was signed with |
| Jwt.Decode | app/auth.py:98 | invalid exactly when the signing secret differs or the token is malformed; expired only for a well-signed token with `exp <= now`; valid claims are those the token was encoded with, and unexpired |
| Jwt.EncodeDecode | app/auth.py:69 | decoding with the signing secret gives the claims back until they expire |
| Jwt.WrongKeyRejected | app/auth.py:98 | a token never decodes under a secret other than its own |
| Jwt.ExpiredStaysExpired | app/auth.py:98 | an expired token stays expired as the clock advances |
| Revocation.RemainingTtl | app/auth.py:81-84 | a remaining lifetime exactly when the token decodes under the access secret, and then it is `exp - now` |
| Revocation.Revoke | app/auth.py:76-88 | the store gains the token, lapsing at its `exp`, exactly when it decodes and has a positive time-to-live; otherwise the store is unchanged |
| Revocation.RevokedUntilExpiry | app/auth.py:85-86 | a token revoked while live reads as revoked exactly until its `exp` |
| Revocation.RevokeIsolated | app/auth.py:86 | revoking one token changes nothing the store says about any other |
| Revocation.RevokeKeepsBounded | app/auth.py:84-86 | revocation keeps every entry an access token stored until its own expiry |
| Revocation.EntryNeverOutlivesToken | app/auth.py:84-86 | in a bounded store, a token reported revoked would otherwise still decode |
| Revocation.NeverRevokedReadsFalse | app/auth.py:90-94 | a token never passed to revocation reads as not revoked after any history of revocations |
| Revocation.ReplayKeepsBounded | app/auth.py:76-94 | any history of revocations keeps the store bounded |
| Revocation.RevocationStore.constructor | app/auth.py:30 | the store starts empty at the given instant |
| Revocation.RevocationStore.RevokeTokenJwt | app/auth.py:76-88 | the new entries are `Revoke` of the old at the store's clock; the clock is unchanged |
| Revocation.RevocationStore.IsTokenRevoked | app/auth.py:90-94 | answers `IsRevoked` of the store's entries at its clock: true exactly when the token is stored and its time-to-live has not run out |
| Revocation.RevocationStore.Advance | app/auth.py:83 | time moves forward; the entries stay as they are |
| Revocation.RevokeAsWritten | app/auth.py:76-88 | as written: a server error exactly when the token does not decode, expired ones included; otherwise the corrected store |
| Revocation.ExpiredRevokeAsWritten | app/auth.py:80-88 | logout with an expired token gets 500 as written; as intended the store is unchanged |
| Auth.CurrentUser | app/auth.py:118-128 | revoked gives "Token revocado" before any decoding; otherwise decode failures pass through; an uncaught server error when `int(sub)` fails; success exactly for an unrevoked, decodable token whose `int(sub)` is the id of a stored, active row, and then it is that row; "Usuario no válido o inactivo" exactly when that row is missing or inactive |
| Auth.RequireAdmin | app/auth.py:133-136 | passes exactly the users whose role is admin, unchanged; any other role gets 403 "Se requieren privilegios de administrador" |
| Auth.CurrentAdmin | app/auth.py:133-136 | succeeds exactly when the current-user guard succeeds with an admin; its failures pass through; a non-admin gets the 403 |
| Auth.GetCurrentUser | app/auth.py:118-128 | asks the store, then answers what `CurrentUser` answers for the store's verdict at its clock |
| Auth.GetCurrentActiveAdmin | app/auth.py:133-136 | answers what `CurrentAdmin` answers for the store's verdict |
| Auth.RoleClaimIgnored | app/auth.py:118-136 | two tokens that differ only in their role claim are resolved identically by both guards |
| Decimal.IdRoundTrip | app/auth.py:125 | `int(str(id)) == id` for every id, so the login subject resolves back to the user's key |
| Decimal.ParseInt | app/auth.py:125 | `int(s)`: a value only for an optional sign followed by digits, always for plain digits (then non-negative), negative only after a minus sign |
| Decimal.IntToString | app/routers/auth.py:35 | `str(id)`: non-empty, with a leading minus exactly for a negative id |
| Decimal.IntToStringInjective | app/routers/auth.py:35 | distinct ids give distinct subjects |
| Decimal.NatRoundTrip | app/routers/auth.py:35 | reading the decimal digits of a natural number gives the number back |
| AuthRouter.LoginForAccessToken | app/routers/auth.py:22-40 | 401 "Credenciales inválidas" and no tokens exactly when authentication fails; otherwise an access token decoding to `str(id)`, the stored role and `exp = now + 15 min` (the lifetime the endpoint passes), a refresh token for the same subject lasting 7 days, and type "bearer" |
| AuthRouter.RefreshAccessToken | app/routers/auth.py:43-51 | fails, minting nothing, exactly when the refresh token does not decode, with its refresh error; otherwise a pair for the same subject whose access token says role "cliente" with the default 15 minutes and whose refresh token lasts 7 days |
| AuthRouter.Logout | app/routers/auth.py:54-62 | the store becomes `Revoke` of the old store and the answer is always "Sesión cerrada correctamente" |
| AuthRouter.LoginResolvesToUser | app/routers/auth.py:30-40 | an active user's fresh login token, unrevoked, resolves to that very user for 15 minutes |
| AuthRouter.LoginTokenExpires | app/routers/auth.py:33-38 | from minute 15 on the login token is "Token expirado" |
| AuthRouter.RefreshDemotesRoleClaim | app/routers/auth.py:48-49 | an admin's login token claims "admin"; the token refreshed from it claims "cliente" |
| AuthRouter.RefreshedAdminStillAdmin | app/routers/auth.py:48-50 | an active admin's refreshed access token still passes the admin guard while live |
| AuthRouter.RefreshReplayable | app/routers/auth.py:43-51 | a used refresh token still refreshes, for the same subject, until its own `exp` |
| AuthRouter.LogoutIgnoresRefreshToken | app/routers/auth.py:54-62 | with distinct secrets, logging out with a refresh token writes nothing |
| Lifecycle.StateOf | app/auth.py:118-128 | revoked exactly when the store says so; expired tokens decode to "Token expirado" and rejected ones to "Token inválido" |
| Lifecycle.OnlyActivePasses | app/auth.py:118-128 | only an active token can pass the guard; revoked, expired and rejected tokens fail with their own message |
| Lifecycle.MintedIsActive | app/auth.py:65-69 | an unrevoked freshly minted access token is active throughout its lifetime |
| Lifecycle.LogoutRevokes | app/routers/auth.py:54-62 | logging out an active token makes it revoked at once and until its `exp` |
| Lifecycle.RevokedThenExpired | app/auth.py:84-86 | in a bounded store a revoked token becomes expired when its `exp` arrives |
| Lifecycle.ExpiredIsTerminal | app/auth.py:85 | an expired token stays expired whatever a bounded store holds later; revoking it writes nothing |
| Lifecycle.RejectedIsTerminal | app/auth.py:80-88 | a token that does not decode stays rejected; revoking it writes nothing |
| Lifecycle.LogoutIsolated | app/auth.py:86 | logging out one token leaves every other token's state as it was |
| Lifecycle.LoginLogoutScenario | app/routers/auth.py:22-62 | login at t0: accepted at +10 min, "Token expirado" at +20 min; after a logout at +5 min, "Token revocado" at +6 min although the token still decodes |
| Models.ParseRole | app/models.py:6-8 | exactly "cliente" and "admin" name a role, and the role's value is the text |
| Models.RoleRoundTrip | app/models.py:6-8 | each role's value parses back to that role |
| Models.RoleValueInjective | app/models.py:6-8 | the two roles have different values |
| Models.NewUser | app/models.py:18-19 | a new user row is active and has the given id, logins and role, `cliente` unless one is given |
| Models.NewOrder | app/models.py:29-31 | a new order is "pendiente" and has the given owner and instant |
| Models.NewOrderItem | app/models.py:40-43 | a new item has the given order, product and quantity |
| Models.ItemQuantityDefault | app/models.py:43 | an item made without a quantity has quantity 1 |
| Schemas.CheckUserCreate | app/schemas.py:10-14 | accepted exactly when the username has 3 to 50 characters and the password at least 6; otherwise 422 |
| Schemas.CheckUserUpdate | app/schemas.py:28-33 | accepted exactly when any password given has at least 6 characters; otherwise 422 |
| Schemas.ParseExportFormat | app/schemas.py:105-108 | exactly "csv", "excel" and "pdf" name a format, and the format's value is the text |
| Schemas.FormatRoundTrip | app/schemas.py:105-108 | each format's value parses back to that format |
| Db.UserIndex | app/crud_users.py:34 | none exactly when no row has that key; otherwise the position of a row with it |
| Db.FindUser | app/crud_users.py:34 | none exactly when no row has that key; otherwise a stored row with it |
| Db.OrderIndex | app/crud_orders.py:27 | none exactly when no order has that key; otherwise the position of one with it |
| Db.FindUserByKey | app/models.py:13 | with unique keys, the lookup by a row's key returns that very row |
| Db.AppendKeepsUsers | app/models.py:29 | appending a user keeps every existing user key present |
| Db.AppendKeepsOrders | app/models.py:41 | appending an order keeps every existing order key present |
| Db.RemoveRowKeys | app/crud_users.py:68 | removing one row removes exactly its key and keeps every other |
| Db.Session.constructor | app/models.py:13 | empty tables at the given instant; every sequence starts at 1 |
| Db.Session.Tick | app/models.py:20 | the clock that stamps `created_at` advances; the tables are unchanged |
| CrudUsers.CreateUser | app/crud_users.py:12-30 | 400 "Usuario o email ya existente" with the table unchanged exactly when the username or email is taken; otherwise one row appended with the next key, the password's digest, the given role and `is_active`; the user sequence advances by one exactly on success and the other sequences stay; constraints kept |
| CrudUsers.GetUser | app/crud_users.py:33-40 | the stored row with that key exactly when there is one; otherwise 404 "Usuario no encontrado" |
| CrudUsers.GetUsers | app/crud_users.py:43-45 | at most `limit` rows, being the rows from position `skip` on in key order; a negative offset or limit, or one outside the `bigint` range, is a server error |
| CrudUsers.ApplyUpdate | app/crud_users.py:50-59 | email, full name, password and role change only when the new value is truthy; `is_active` changes whenever given; id, username and created_at never change |
| CrudUsers.EmptyUpdateKeepsRow | app/crud_users.py:50-59 | an update with nothing truthy and no `is_active` leaves the row as it is |
| CrudUsers.DeactivateOnly | app/crud_users.py:58-59 | `is_active = False` alone deactivates and changes nothing else |
| CrudUsers.UpdateIdempotent | app/crud_users.py:48-63 | applying the same update twice equals applying it once |
| CrudUsers.UpdateUser | app/crud_users.py:48-63 | 404 for a missing key; a role text outside the enum or another row's email fails the commit (500) with the table unchanged; success exactly when neither happens, and then only that row changes, to `ApplyUpdate` of it; no sequence moves; constraints kept |
| CrudUsers.RemoveRowKeepsUserRows | app/crud_users.py:68-69 | removing a row keeps the others in key order with unique logins |
| CrudUsers.DeleteUser | app/crud_users.py:66-70 | 404 for a missing key; a user who owns orders fails the foreign key (500); otherwise exactly that row is removed and "Usuario eliminado" returned; every other key stays; no sequence moves |
| CrudOrders.ItemsOf | app/models.py:34 | the `order.items` relationship holds exactly the item rows that point at the order, and so at most as many rows as the item table |
| CrudOrders.ItemsOfFresh | app/crud_orders.py:15-21 | item rows appended for an order that had none are exactly that order's items |
| CrudOrders.AppendItemsKeepsRows | app/crud_orders.py:15-22 | appending rows with the next keys that point at an existing order keeps the item table's keys and foreign key |
| CrudOrders.CreateOrder | app/crud_orders.py:11-24 | a missing owner fails the foreign key (500) with nothing written; so does a product id or quantity outside the four-byte `integer` range, at commit; otherwise one "pendiente" order with the next key, owned by the user and stamped now, whose items repeat the requested lines one for one and in order; the order sequence advances by one and the item sequence by the number of lines, and on failure neither moves; the user sequence stays; other rows unchanged; constraints kept |
| CrudOrders.GetOrder | app/crud_orders.py:26-33 | 404 "Pedido no encontrado" exactly for a missing key; 403 "Acceso denegado" exactly for a non-admin who does not own the order; otherwise, for an admin or the owner of an existing order, that order |
| CrudOrders.OwnedBy | app/crud_orders.py:36 | an order is in the result exactly when it is in the table and has that owner |
| CrudOrders.OwnedByOldestFirst | app/crud_orders.py:36 | filtering keeps table order |
| CrudOrders.Reverse | app/crud_orders.py:36 | the same orders in the opposite order |
| CrudOrders.ReverseNewestFirst | app/crud_orders.py:40 | reversing the table gives newest first, with the same orders |
| CrudOrders.OrdersOf | app/routers/exports.py:33-34 | exactly the orders of that user id, newest first in a valid session |
| CrudOrders.GetOrdersByUser | app/crud_orders.py:35-37 | exactly the user's orders, newest first in a valid session |
| CrudOrders.GetAllOrders | app/crud_orders.py:39-41 | every order exactly once, newest first in a valid session |
| CrudOrders.UpdateOrderState | app/crud_orders.py:43-51 | 404 for a missing key; otherwise that order's `state` becomes the given text, unchecked, and nothing else changes, sequences included |
| Exports.SelectOrders | app/routers/exports.py:29-39 | a non-admin gets exactly their own orders; an admin with a truthy `user_id` gets exactly that user's; an admin otherwise gets every order; always newest first in a valid session |
| Exports.ClientExportIgnoresUserId | app/routers/exports.py:37-39 | for a non-admin, `user_id` makes no difference |
| Exports.AdminZeroMeansAll | app/routers/exports.py:31-36 | for an admin, `user_id = 0` exports everything, as no `user_id` does |
| Exports.AdminOwnIdLikeClient | app/routers/exports.py:30-39 | an admin naming their own id gets what the same user would get as a client |
| Exports.FormatOfExtension | app/routers/exports.py:45-56 | an extension read back names the format that has it |
| Exports.MediaType | app/routers/exports.py:45-58 | CSV is "text/csv", Excel the spreadsheetml type and PDF "application/pdf", each for exactly its format |
| Exports.Extension | app/routers/exports.py:45-58 | the extension is "csv", "xlsx" or "pdf" exactly when the media type is the matching one |
| Exports.FormatsDistinguished | app/routers/exports.py:45-56 | each format has its own media type and extension, and the extension gives the format back |
| Exports.ExportFilename | app/routers/exports.py:48-56 | the file name is "orders_", then the timestamp, then "." and the format's extension |
| Exports.ContentDisposition | app/routers/exports.py:60-62 | the header value is `attachment; filename="…"` with exactly the file name between the quotes |
| Exports.FilenameOf | app/routers/exports.py:60-62 | a name read from a header is one that header carries |
| Exports.DispositionRoundTrip | app/routers/exports.py:60-62 | the Content-Disposition header gives its file name back |
| Exports.ExportOrders | app/routers/exports.py:29-63 | the rendered orders are the selection; the media type is the format's; the header carries the file name, whose extension gives the format back |

## Left out

- Cryptography. bcrypt is a `Digest` that records its password: it is injective and has no salt or cost. HS256 signing is a `Token` that records its claims and the secret. Forgery, collisions and timing are outside the model.
- Secrets come from the environment (app/auth.py:21-22) and are a `Config` parameter. `Tokens.DefaultConfig` holds the defaults.
- The expiry boundary is a single predicate, `Jwt.Expired` (`exp <= now`). python-jose decides it and is not part of this model.
- Clocks are integer seconds. The float `timestamp()` and its truncation by `int(...)` (app/auth.py:83-84) are not modelled, and neither is the naive-UTC interpretation.
- Tokens are decoded at the revocation store's clock. The database keeps its own clock for `created_at`.
- The Redis connection is modelled only through its map-with-expiry behaviour. Network failures and concurrent access from several instances are outside the model.
- `Revocation.RevocationStore.IsTokenRevoked`: a key whose time-to-live has run out is treated as absent. Redis evicts such keys lazily, and the model does not show the entry being deleted.
- `get_current_active_user` returns its argument unchanged (app/auth.py:130-131); `Auth.GetCurrentUser` stands for both.
- `Decimal.ParseInt`: Python's `int()` also accepts surrounding whitespace, `_` separators and non-ASCII digits. The model refuses those; subjects minted by the service never contain them.
- Schema validation: the email format (`EmailStr`) is not modelled, and the 422 detail text is a placeholder.
- `CrudUsers.CreateUser`: a failed insert consumes no key from the sequence in the model, whereas PostgreSQL would consume one.
- `Auth.GetUserByUsernameOrEmail`, `CrudUsers.GetUsers`: the queries have no `ORDER BY`, so SQL does not fix which row `.first()` returns when a login text is one user's username and another's email, nor the order of a page. The model takes key order in both.
- `CrudOrders.CreateOrder`: when the commit fails, PostgreSQL has already used up order and item keys from its sequences; the model uses none.
- `CrudOrders.GetOrdersByUser`, `CrudOrders.GetAllOrders`: among orders with equal `created_at`, the model lists the higher key first; SQL leaves that order unspecified.
- `CrudUsers.UpdateUser`: `role` can be any text. The model rejects a text outside the enum at commit time with a server error; what the database driver actually raises is outside the model.
- `enrich_order` and `enrich_orders_list` (app/crud_orders.py:53-84) are left out: async product fetches and float totals.
- The CSV, Excel and PDF renderers in app/utils.py are not part of this model; `Exports.ExportOrders` returns the selected orders in place of the bytes.
- app/main.py (startup migration, admin bootstrap, CORS, logging), app/database.py and the thin routers in app/routers/users.py, app/routers/orders.py and app/routers/products.py are not part of this model. They only wire in the guards and CRUD operations modelled here.

## Findings

| source | as written | input that shows it | evidently intended | confidence | as-written member | corrected member |
|---|---|---|---|---|---|---|
| app/auth.py:96-103 | `except jwt.PyJWTError` names an attribute python-jose's `jwt` module does not have, so any non-expiry decode failure raises AttributeError, which becomes 500 | a malformed bearer string such as `not-a-jwt` | 401 "Token inválido" | not executed; medium-high | Tokens.DecodeAccessTokenAsWritten | Tokens.DecodeAccessToken |
| app/auth.py:105-112 | the same `except` in `decode_refresh_token` | an access token sent to `/auth/token/refresh` | 401 "Refresh token inválido" | not executed; medium-high | Tokens.DecodeRefreshTokenAsWritten | Tokens.DecodeRefreshToken |
| app/auth.py:76-88 | the only handler in `revoke_token_jwt` is that `except`, so every decode failure escapes and logout answers 500 | logout with an expired access token | the failure is swallowed and the store left as it is | not executed; medium-high | Revocation.RevokeAsWritten | Revocation.Revoke |
