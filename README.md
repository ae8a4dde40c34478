# Resource rental service: order lifecycle, token gate, accounts and session store

This project is a Dafny model of the decision logic in a small Express/MySQL
service for renting computing resources, and of its browser-side session store.
It covers the following parts:

- **Order lifecycle** (`OrderController`). Placing an order validates the body
  and fills in defaults only for absent fields. It looks up an *available*
  resource and freezes `price × quantity × duration × 24` into the new row,
  whose status is `未支付` (unpaid). Cancel and pay are read–check–write steps
  from `未支付` to `已取消` (cancelled) or `已支付` (paid), and both targets are
  terminal. Every read is scoped by the caller's id, and each write follows a
  scoped read, so an order of another user answers exactly as a missing one. The order list grows its SQL
  and parameters step by step and returns the caller's orders newest first.
- **Token gate** (`AuthMiddleware`). `verifyToken` splits the `Authorization`
  header and maps the verifier's outcome to exactly one 401 code. `verifyAdmin`
  reads the role from the stored user row and never from the token.
- **Accounts** (`AuthController`, `Profiles`):
  - user and administrator login as guard chains over an abstract
    `compare(password, hash)`, with the `last_login` stamp;
  - logout;
  - password change, through an abstract `hash`;
  - the partial profile update shared by `updateUserInfo` and
    `PUT /users/profile`. It emits one `SET` clause and one parameter per
    truthy field, in the order username, email, phone, and the user id last.
- **Caller-scoped reads** (`UserRoutes`): profile, orders and the ten most
  recent browsing-history entries.
- **Resource catalogue** (`ResourceRoutes`). The filtered list grows one `AND`
  clause per present filter in a fixed order. There is also a random sample of
  at most three available resources and a lookup by id.
- **Client session store** (`SessionStore.UserSession`). It holds `token`,
  `userType` and `userInfo` and mirrors the first two in `localStorage`.
  Login, logout and user-info refresh overwrite them.

The four tables and the `NOW()` clock live in one `Database.Db` object; the
handlers that write change its fields in place. A SQL statement is modelled as
a list of literal fragments and placeholders (`Sql.Query`) plus a parameter
list. `Sql.RenderPlaceholders` ties the fragments to the number of `?` in the
rendered text. The things the code relies on but does not compute are
parameters:

| parameter | stands for |
|---|---|
| `compare`, `hash` | bcrypt |
| `sign` | `jwt.sign` |
| `verify` | `jwt.verify`, returning an outcome |
| `toInt` | `parseInt` and `CAST(... AS SIGNED)` |
| `shuffled` | the order `ORDER BY RAND()` produced |
| `reply` | the server's answers to the session store |

In three places the code is laxer than one might expect, and the model follows the code:
- the order quantity is not checked to be at least 1;
- no administrator can read or settle another user's order;
- the first word of the `Authorization` header is never compared with `Bearer`
  (`AuthMiddleware.AnySchemeAccepted`).

The list of resources tests its six filter fields in six `if` blocks of one
shape. `ResourceRoutes.BuildQuery` runs that shape once per field, over the
six fields listed by `ResourceRoutes.Slots` in source order; each run is one
`ResourceRoutes.Push`.

A login answer with `data` but no `user` stores the token, then throws reading
`user.type`, and returns false. After such an answer the token field and its
`localStorage` key disagree. `SessionStore.UserSession.Login` models this as
written.

## Model

| member | source | states |
|---|---|---|
| Strings.Split | backend/middlewares/auth.js:14 | `split(' ')` yields one more piece than the header has spaces, and no piece contains a space |
| Strings.SplitJoin | backend/middlewares/auth.js:14 | splitting the space-join of space-free words gives the words back |
| Strings.JoinSplit | backend/middlewares/auth.js:14 | joining the pieces of a split with the separator gives back the original header |
| Sql.RenderPlaceholders | backend/routes/users.js:53-59 | a query whose literals hold no `?` renders to text with exactly one `?` per placeholder fragment |
| Sql.JoinQueriesHoles | backend/routes/users.js:55 | `updateFields.join(', ')` neither adds nor loses placeholders and keeps fragments well formed |
| Sql.AppendWellFormed | backend/controllers/orderController.js:86-91 | appending to a query (`sql += ...`) adds up placeholders and keeps it well formed |
| Ordering.Insert | backend/controllers/orderController.js:91 | inserting a row keeps every row already there and adds exactly that one (multiset) |
| Ordering.InsertDescending | backend/controllers/orderController.js:91 | insertion by key keeps a newest-first sequence newest first |
| Ordering.SortDescending | backend/routes/users.js:101 | `ORDER BY ... DESC` keeps exactly the rows it is given (multiset) |
| Ordering.SortDescendingSorted | backend/routes/users.js:101 | the sorted rows are in descending key order |
| Tables.First | backend/controllers/authController.js:30 | `rows[0]` of a `WHERE` is the first matching row: it matches and no earlier row does; none when no row matches |
| Tables.ApplyWrite | backend/controllers/authController.js:47 | the three `UPDATE users SET` bodies on one row: `last_login = NOW()` (also lines 106 and 130), `password = ?` (line 271) and the profile `SET` list (lines 204-208) |
| Tables.UpdateWhereId | backend/controllers/authController.js:46-49 | `UPDATE users ... WHERE id = ?` rewrites every row with that id and leaves every other row and the row count unchanged |
| Tables.WriteKeepsId | backend/controllers/authController.js:270-273 | no `UPDATE` the handlers issue changes a row's id |
| Tables.FindUser | backend/routes/users.js:9-16 | `SELECT ... WHERE id = ?` finds a row iff some row has that id, and the row found has it |
| Tables.FindUserAfterWrite | backend/routes/users.js:59-65 | reading back by id after an update by the same id gives the first such row with the write applied |
| Tables.FindLogin | backend/controllers/authController.js:18-23 | the login lookup finds a row with that email and type and no earlier row has both, and finds none iff no row has both |
| Tables.FindLoginAfterWrite | backend/controllers/authController.js:46-49 | stamping `last_login` or replacing a hash never changes which row a login matches |
| Tables.FindResource | backend/routes/resources.js:117 | finds a resource iff one has that id |
| Tables.FindAvailable | backend/controllers/orderController.js:18-21 | finds a resource iff one has that id and status `available`, and the one found has both |
| Database.Db.constructor | backend/controllers/orderController.js:31-37 | an empty order table whose auto-increment counter starts at 1 satisfies the table invariant |
| Database.Db.Tick | backend/controllers/orderController.js:35 | the `NOW()` clock only moves forward, and the table invariant survives it |
| AuthMiddleware.BearerSegment | backend/middlewares/auth.js:14 | the second segment is absent iff the header has no space, and never contains a space |
| AuthMiddleware.Classify | backend/middlewares/auth.js:22-46 | `next` is reached iff the verifier decoded the token, with `req.user` set to its claims |
| AuthMiddleware.VerifyToken | backend/middlewares/auth.js:5-48 | `TOKEN_MISSING` iff the header is absent or empty; `TOKEN_INVALID_FORMAT` iff present but its second segment is absent or empty; `next` only with the claims the verifier decoded from that segment; every denial is 401 |
| AuthMiddleware.AnySchemeAccepted | backend/middlewares/auth.js:14-25 | any space-free first word is accepted in front of a token: the result is the verifier's outcome on the token |
| AuthMiddleware.TrailingWordsIgnored | backend/middlewares/auth.js:14 | words after the token are ignored |
| AuthMiddleware.NoSpaceIsInvalidFormat | backend/middlewares/auth.js:14-20 | a non-empty header without a space is `TOKEN_INVALID_FORMAT` |
| AuthMiddleware.FailuresDistinguished | backend/middlewares/auth.js:29-46 | expired, malformed and other verification failures get three different codes |
| AuthMiddleware.VerifyAdmin | backend/middlewares/auth.js:51-80 | `UNAUTHORIZED` iff there is no `req.user` or its id is falsy; `next` iff the first stored row with that id has type `admin`; every other case is 403 `ADMIN_REQUIRED` |
| AuthMiddleware.ClaimedRoleIgnored | backend/middlewares/auth.js:60-72 | the role in the token never changes the admin decision |
| Profiles.PresentColumns | backend/routes/users.js:32-45 | a column is set iff its body field is truthy, in the order username, email, phone |
| Profiles.PresentValues | backend/routes/users.js:32-45 | one parameter per set column |
| Profiles.SetClause | backend/routes/users.js:33 | each `<column> = ?` clause holds one placeholder and no stray `?` |
| Profiles.SetClauses | backend/routes/users.js:32-45 | one well-formed clause per present column |
| Profiles.SetClausesHoles | backend/routes/users.js:32-45 | the clauses together hold one placeholder per column |
| Profiles.UpdateTextHoles | backend/routes/users.js:51-57 | the `UPDATE` text has one placeholder per column plus the one of `WHERE id = ?`, and renders to text with that many `?` |
| Profiles.BuildUpdate | backend/controllers/authController.js:177-208 | none (400) iff no field is truthy; otherwise the clauses in fixed order, the field values then the user id as parameters, and as many placeholders as parameters |
| Profiles.PatchProfile | backend/routes/users.js:26-59 | fails iff no field is truthy, leaving the table alone; otherwise patches exactly the truthy fields of the caller's rows, touches no other row, and reading back finds the patched row |
| Profiles.AddField | backend/routes/users.js:32-45 | one `if (field)` step: pushes `<column> = ?` onto the clauses and the value onto the parameters iff the field is truthy, and nothing otherwise |
| Profiles.Patched | backend/routes/users.js:53-59 | the row the update is meant to produce: each truthy field replaced by its value, each falsy one and every other column (id, hash, type, dates, status) kept |
| Profiles.SummaryOf | backend/controllers/authController.js:214 | the read-back columns `id, username, email, phone` |
| Profiles.ProfileOf | backend/routes/users.js:10 | the profile columns `id, username, email, phone, type, registration_date, last_login, status`; the password hash is not among them |
| Profiles.SetListPatches | backend/routes/users.js:53-59 | executing the emitted `SET` list on a row gives that row with exactly the truthy fields replaced |
| Profiles.UpdateScope | backend/routes/users.js:51-59 | the update patches every row of the caller and leaves every other row unchanged |
| AuthController.LoginDecision | backend/controllers/authController.js:6-63 | 400 iff email or password is falsy; success iff a row with that email and role exists and `compare` accepts the password against the first such row's hash; the token signs `{id, email, type}` of that row for 24 hours and the summary is `{id, email, username, type}`; the status of a failure is 400 for a missing field and 401 otherwise |
| AuthController.LoginFailureUniform | backend/controllers/authController.js:23-38 | an unknown email and a wrong password give the same 401 answer |
| AuthController.SummaryHidesPassword | backend/controllers/authController.js:40-61 | the token claims and the returned summary do not depend on the password hash |
| AuthController.Login | backend/controllers/authController.js:18-49 | the answer is the login decision; on success every row with the matched id gets `last_login = NOW()` and nothing else changes; on failure the table is untouched |
| AuthController.UserLogin | backend/controllers/authController.js:6-71 | the decision for type `user` only, with the `last_login` stamp on success |
| AuthController.AdminLogin | backend/controllers/authController.js:74-123 | the decision for type `admin` only, with the `last_login` stamp on success |
| AuthController.Logout | backend/controllers/authController.js:126-139 | stamps `last_login` iff the request carries a truthy user id; otherwise the table is untouched |
| AuthController.UpdateUserInfo | backend/controllers/authController.js:172-230 | 400 and no write iff no field is truthy; otherwise the caller's rows are patched and `id, username, email, phone` of the patched row are read back (absent when the caller has no row) |
| AuthController.PasswordDecision | backend/controllers/authController.js:233-264 | in order: 400 iff a password is falsy; 404 iff no row has the caller's id; 401 iff `compare` rejects the old password against the stored hash; success otherwise |
| AuthController.ChangePassword | backend/controllers/authController.js:233-286 | the answer is the password decision; on success the caller's rows get `hash(newPassword)` and nothing else changes; on failure the table is untouched |
| AuthController.ChangeThenLogin | backend/controllers/authController.js:258-273 | for a `compare` that accepts exactly the hashed password and unique emails, after a change the account logs in with the new password and not with the old one |
| OrderController.Validate | backend/controllers/orderController.js:7-15 | 400 `resourceId` iff it is absent or 0; 400 duration iff it is given and below 1; otherwise absent fields become quantity 1, duration 1 and remark `''`, and the duration is at least 1 |
| OrderController.TotalPrice | backend/controllers/orderController.js:28 | the total frozen into a new order: `price × quantity × duration × 24` |
| OrderController.PlanOrder | backend/controllers/orderController.js:4-37 | a validation error first; then 404 iff no available resource has the id; otherwise the row has the caller as owner, the validated terms, status `未支付`, the frozen total and creation time `NOW()` |
| OrderController.CreateOrder | backend/controllers/orderController.js:4-37 | on success exactly one row is added, under a fresh id, and the counter moves past it; on any error the table is unchanged; the table invariant is kept |
| OrderController.FindOwned | backend/controllers/orderController.js:102-129 | an order is found iff it exists and belongs to the caller; otherwise 404 |
| OrderController.OrderDetailHidesOthers | backend/controllers/orderController.js:107-122 | an order of another user answers exactly as a missing one, with 404 |
| OrderController.ListStatement | backend/controllers/orderController.js:72-91 | the caller's id, then the status text when it is truthy, as parameters; the status clause only then; as many placeholders as parameters |
| OrderController.SelectedAmongStep | backend/controllers/orderController.js:82-88 | looking at one more stored order adds it to the answer, once, exactly when it is the caller's and matches the status filter |
| OrderController.SelectNewestFirst | backend/controllers/orderController.js:93 | the database's answer: exactly the listed orders, each once, newest first |
| OrderController.ScanStep | backend/controllers/orderController.js:82-93 | looking at one more stored order keeps the partial answer newest first and equal to the listed orders among those seen |
| OrderController.ListOrders | backend/controllers/orderController.js:67-99 | the statement and the answer: the caller's orders with the requested status (all of them when none is requested), each once, by `created_at` descending |
| OrderController.Listed | backend/controllers/orderController.js:82-88 | `o.user_id = ?`, and `o.status = ?` only when the status text is truthy |
| OrderController.ListedRowsAreOwned | backend/controllers/orderController.js:82-88 | every listed order is a stored order of the caller, with the requested status when one is given |
| OrderController.Settle | backend/controllers/orderController.js:132-202 | 404 iff the order is missing or another user's; 400 iff it is the caller's but no longer unpaid; otherwise only that order changes, and only its status (to the target) and `updated_at` |
| OrderController.SettledIsTerminal | backend/controllers/orderController.js:150-152 | a paid or cancelled order is refused by both transitions and nothing is written |
| OrderController.SettleAtMostOnce | backend/controllers/orderController.js:186-188 | after one successful cancel or pay, every further one is refused with no write |
| OrderController.SettleHidesOthers | backend/controllers/orderController.js:138-145 | cancel or pay on another user's order answers and writes exactly as on a missing one |
| OrderController.CancelOrder | backend/controllers/orderController.js:132-165 | answers and writes as the settlement towards `已取消`, keeping the table invariant |
| OrderController.PayOrder | backend/controllers/orderController.js:168-202 | answers and writes as the settlement towards `已支付`, keeping the table invariant |
| OrderController.Transit | backend/controllers/orderController.js:138-158 | the read, the status check and the update of one row, stamped with `NOW()`, equal the settlement |
| OrderController.ApplyKeepsOrder | backend/controllers/orderController.js:155-158 | no single request removes an order, changes its frozen fields, or moves it out of paid or cancelled |
| OrderController.Apply | backend/controllers/orderController.js:4-202 | one request on the order table: a placement adds the planned row under the counter's id and advances the counter, or changes nothing on error; cancel or pay writes the settlement; a resource edit replaces only the resource table |
| OrderController.Run | backend/controllers/orderController.js:4-202 | a sequence of requests applied in order |
| OrderController.PlaceAddsIff | backend/controllers/orderController.js:6-37 | placing an order adds a row under the counter's id iff the terms are valid and the resource exists and is available |
| OrderController.PlacedTotalFrozen | backend/controllers/orderController.js:28-37 | an order placed through `createOrder` keeps its owner, terms (resource, quantity, duration, remark), creation time and the total computed from the resource's price at placement, along any later requests including price edits |
| OrderController.RunKeepsOrder | backend/controllers/orderController.js:28-37 | along any sequence of requests, including resource edits, an order persists with its owner, terms, total price and creation time unchanged, and a paid or cancelled status never changes |
| UserRoutes.GetProfile | backend/routes/users.js:7-23 | 404 iff no row has the caller's id; otherwise the caller's row without its password |
| UserRoutes.PutProfile | backend/routes/users.js:26-72 | 400 and no write iff no field is truthy; otherwise the caller's rows are patched and the patched row is read back without its password (absent when the caller has no row) |
| UserRoutes.GetOrders | backend/routes/users.js:75-91 | exactly the caller's stored orders, each once, newest first, whatever their status |
| UserRoutes.Owned | backend/routes/users.js:100 | the history rows kept are exactly the caller's, each as many times as in the table |
| UserRoutes.History | backend/routes/users.js:94-111 | `min(10, n)` entries for a caller with `n` entries, all the caller's, newest first, each taken from the caller's entries |
| UserRoutes.HistoryKeepsNewest | backend/routes/users.js:101-102 | the answer is a prefix of the caller's entries sorted newest first, so no entry left out is newer than one kept |
| ResourceRoutes.Slots | backend/routes/resources.js:12-36 | the six filter tests in the order cpu, memory, storage_type, usage_type, status, keyword |
| ResourceRoutes.PresentFromSlots | backend/routes/resources.js:12-36 | every condition the query carries comes from a truthy filter field |
| ResourceRoutes.ConditionsSteps | backend/routes/resources.js:12-36 | the conditions are the six `if (field)` steps applied in order |
| ResourceRoutes.ConditionsOrdered | backend/routes/resources.js:12-36 | clauses appear in the fixed order, each at most once |
| ResourceRoutes.CategoryAndTypeIgnored | backend/routes/resources.js:8 | `category` and `type` never change the query |
| ResourceRoutes.Clause | backend/routes/resources.js:12-36 | the text each filter appends: ` AND CAST(cpu AS SIGNED) = ?`, ` AND CAST(memory AS SIGNED) = ?`, ` AND storage_type = ?`, ` AND usage_type = ?`, ` AND status = ?`, and ` AND (name LIKE ? OR description LIKE ?)` |
| ResourceRoutes.Holds | backend/routes/resources.js:12-36 | a row satisfies a condition: cpu and memory compared as integers, the text columns by exact equality, the keyword as a substring of name or description |
| ResourceRoutes.ClauseParams | backend/routes/resources.js:32-36 | `keyword` pushes the pattern `%keyword%` twice; every other filter pushes one value |
| ResourceRoutes.ClauseHoles | backend/routes/resources.js:12-36 | each clause holds one placeholder per parameter it pushes |
| ResourceRoutes.BuildQuery | backend/routes/resources.js:9-36 | starts from `WHERE 1=1` and, field by field in the fixed order, appends the clauses of the truthy fields; the query is well formed, with as many placeholders as parameters |
| ResourceRoutes.Push | backend/routes/resources.js:12-15 | one `if (field)` block: appends its clause and its parameters when the field is truthy and nothing otherwise, so the query so far is built from the truthy fields among those tested, with as many placeholders as parameters |
| ResourceRoutes.AppendStage | backend/routes/resources.js:12-15 | a truthy field's clause and parameters, appended to the query so far, keep it well formed with as many placeholders as parameters |
| ResourceRoutes.NoFilterBaseQuery | backend/routes/resources.js:9-10 | with no filter the query is the bare base and there are no parameters |
| ResourceRoutes.Select | backend/routes/resources.js:41 | a row is returned iff it satisfies every condition |
| ResourceRoutes.HoldsAllFilter | backend/routes/resources.js:12-36 | a resource passes iff it matches every truthy field: cpu and memory as integers, the keyword in name or description |
| ResourceRoutes.ListResources | backend/routes/resources.js:6-69 | the statement built and the matching rows, with `total` equal to the number of rows |
| ResourceRoutes.AvailableRows | backend/routes/resources.js:77 | exactly the rows with status `available` |
| ResourceRoutes.Hot | backend/routes/resources.js:72-112 | `min(3, n)` rows when `n` are available, all available, each taken from the available rows |
| ResourceRoutes.ResourceDetail | backend/routes/resources.js:115-145 | 404 iff no row has the id; otherwise a row with that id |
| SessionStore.UserSession.IsLoggedIn | frontend/src/stores/user.js:11 | `!!token`: logged in iff the token is non-empty |
| SessionStore.UserSession.IsAdmin | frontend/src/stores/user.js:12 | `userType === 'admin'` |
| SessionStore.UserSession.constructor | frontend/src/stores/user.js:7-12 | token and type come from storage, `''` when missing; logged in iff a non-empty token is stored; admin iff the stored type is `admin` |
| SessionStore.UserSession.Login | frontend/src/stores/user.js:14-33 | true iff the answer has `data` with a user; then token, type and user are taken and persisted, and `isAdmin` follows the user's type; no `data` or a thrown call changes nothing; `data` without a user changes only the token field |
| SessionStore.UserSession.Logout | frontend/src/stores/user.js:35-49 | calls the server iff a token is present; always ends with empty fields and both storage keys removed |
| SessionStore.UserSession.FetchUserInfo | frontend/src/stores/user.js:51-65 | calls the server iff logged in; `data` replaces the user info; a 401 logs out; any other failure or a missing token changes nothing; fields and storage stay in step if they were |

## Left out

- Connection pool, startup probe and the 500 answers for database failures. The SQL engine is replaced by the row-level functions in `Tables` and by `SelectNewestFirst`, `Select`, `AvailableRows` and `History`.
- The unique constraint on `users.email` is assumed only in `AuthController.ChangeThenLogin`. The update that would violate it, and its 500 answer, are not modelled.
- bcrypt and JWT: `compare`, `hash`, `sign` and `verify` are parameters. Salt randomness, the secret and expiry arithmetic are not modelled, and `hash` is a deterministic function.
- `ORDER BY RAND()`: the random order is the parameter `shuffled` of `ResourceRoutes.Hot`.
- `parseInt`, `parseFloat` and `CAST(... AS SIGNED)` are the parameter `toInt`. Prices and quantities are integers, and the `.map` formatting of resource rows is not modelled.
- `ResourceRoutes.Holds`: one `toInt` stands for both `parseInt` on the filter value and `CAST(... AS SIGNED)` on the column. They agree on decimal text but not at the edges: `parseInt("0x10")` is 16 while the cast gives 0, and a filter with no leading digits gives `NaN`, which makes the query fail with a 500 where the model compares integers.
- Every `=` comparison on a text column is exact in the model: `email = ?` in the login lookups (`Tables.FindLogin`), `o.status = ?` in the order list (`OrderController.Listed`) and `storage_type`, `usage_type` and `status = ?` in the resource list (`ResourceRoutes.Holds`). Under a case-insensitive collation the database would also match text that differs only in letter case.
- `LIKE '%k%'` is plain substring search. The collation's case-insensitivity and the `%`/`_` wildcards inside the keyword are not modelled.
- The `LEFT JOIN` display columns (`resource_name`, `cpu`, `memory`, `storage`, `price`) added to order and history rows are left out. The rows carry only their own table's columns.
- Response envelopes, messages, the `code` fields and the re-read of the inserted order after `createOrder` are left out. The model answers with the row itself.
- `getUserInfo` in `authController` is the same owner-scoped read as `UserRoutes.GetProfile` with fewer columns, so it is not modelled separately.
- Request identifiers (`req.params.id`, `req.user.id`) are integers. String ids coerced by MySQL are not modelled.
- Concurrency: two requests interleaving between the read and the write of cancel or pay. Each handler runs to completion.
- Route wiring (`routes/auth.js`), `userController`, the axios client with its interceptors, the one-line API wrappers, console logging and toast messages are not part of this model.
- SessionStore.UserSession.FetchUserInfo: the logout it starts on a 401 is not awaited in the code; the model lets it complete before returning.
- SessionStore.UserSession.Login: a user object without `type` stores `undefined` in the code. The model stores the empty type for it.
- `localStorage` is two optional strings. Other storage behaviour and the reactivity of the fields are not modelled.
