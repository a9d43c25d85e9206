# Auth and user-table core of a Gin/GORM user service, in Dafny

This project models the decision logic of a small Go web service. The service
offers registration and login with JSON Web Tokens, and a bearer-token gate in
front of CRUD handlers over a `users` table. The model covers:

- **The gate** (`app/http/middleware/auth.go`), in `Middleware`.
  - `Authenticate` is the gate's decision for one `Authorization` header: a
    missing header, a malformed header, an invalid token, or an identity.
  - `AuthMiddleware` carries the decision out on a `Context` object. The
    object logs what the gate does to the request: `Set`, `JSON`, `Abort`,
    `Next`.
  - The header split is `Text.Split`, a model of Go's `strings.Split`. The
    token check is `Crypto.Parse`, which models `jwt.Parse` of jwt/v5:
    decode, the registered-algorithm check, key function, signature, then
    the "exp" and "nbf" checks of sections 4.1.4 and 4.1.5 of RFC 7519 as
    jwt/v5 reads those claims (absent or 0 means not set; a non-number,
    null included, is an error).
- **Token issuance** (`generateToken`), in `AuthController`.
  - The claim set is exactly `user_id`, `email`, `exp` and `iat`, signed with
    HS256 (section 3.2 of RFC 7518).
  - `exp` and `iat` come from two separate clock readings.
- **Register and Login**, in `AuthController`.
  - Register and CreateUser share one sequence: look up the email, hash the
    password, insert. It is modelled once, in `Signup`, and the seeder reuses
    it.
- **The user handlers** `GetUsers`, `GetUser`, `CreateUser`, `UpdateUser` and
  `DeleteUser`, in `UserController`.
  - A path ID is read the way `strconv.ParseUint(id, 10, 32)` reads it
    (`Text.ParseUint32`).
- **The user record** (`Models.User`, a class whose `HashPassword` changes its
  password in place), and the table it is stored in.
  - The table is `Database.Table`: rows keyed by ID, new IDs handed out in
    increasing order, and a unique index on email.
- **Configuration** (`Config.JWTSecret` with its fallback, `Config.DSN`).
- **The seeder** `SeedUsers` (`Seeders`).

bcrypt and JWT signing are abstract:

- `Crypto.Bcrypt` and `Crypto.Jwt` hold their operations as function values.
- The laws the service relies on are the `Sound()` predicates. The lemmas
  that need them take them as preconditions.
- The laws are that a hash verifies against its password, and that a signed
  token decodes to what was signed, has a valid signature, and contains no
  space.

Everything that comes from outside the service is a parameter:

- the configuration map, clock readings in nanoseconds, and bcrypt salts;
- database faults, as an `Io` value per request;
- the outcome of Gin's JSON binding, as `Http.Bind`.

Each handler is a method on the table. Its `ensures` pins the new table state
and the response to a pure outcome function (`RegisterOutcome`, `LoginOutcome`,
`UpdateUserOutcome`, …). The exception is `GetUsers`: its `ensures` says its
200 response is `ListData` of some listing of the rows (`IsListing`: every
row exactly once), since the order `Find` returns is not fixed. The handlers'
rules are lemmas about those functions, for example:

- a duplicate email gives 409, or, when the lookup fails, the unique index
  refuses the insert;
- an unknown email and a wrong password get the same 401;
- a token is issued only after the insert;
- an update merges the non-empty fields and hashes a new password;
- responses never carry a `password` field.

Other lemmas connect the operations to each other:

- `RegisterThenLogin`: the credentials just registered log in as the new user.
- `IssuedTokenAuthorizes`: a token that `generateToken` issued passes the gate
  until it expires, with the same user ID and email.
- `SeedUsersIdempotent`: after a run without hashing or write failures, a
  second run inserts nothing.

Two behaviours of the code, modelled as written:

- `GetUsers` on an empty table answers `{"data": null}`. The `response` slice
  is never appended to, so it stays nil.
- A user's `exp` − `iat` is 86400 seconds, or 86399 seconds when a second
  boundary falls between the two clock readings.

## Model

| member | source | states |
|---|---|---|
| Base.Unix | app/http/controllers/AuthController.go:153-154 | `time.Unix()` is the whole number of seconds in a nanosecond clock reading |
| Text.Split | app/http/middleware/auth.go:28 | `strings.Split` always gives at least one piece and no piece contains the separator |
| Text.JoinSplit | app/http/middleware/auth.go:28 | joining the pieces with the separator gives back the header |
| Text.SplitJoin | app/http/middleware/auth.go:28 | splitting a join of separator-free pieces gives back the pieces |
| Text.SplitTwo | app/http/middleware/auth.go:28-29 | a string splits into exactly `[a, b]` iff it is `a`, one separator, `b`, with no separator in `a` or `b` |
| Text.ParseUint32 | app/http/controllers/UserController.go:87-91 | `ParseUint(id, 10, 32)` succeeds iff the ID is a non-empty string of decimal digits with value below 2^32; the result is that value |
| Text.ScanMatchesValue | app/http/controllers/UserController.go:87 | the left-to-right digit scan, which stops at the first range error, agrees with the value of the whole numeral and the 2^32 bound |
| Text.DecimalRoundTrip | app/http/controllers/UserController.go:87 | reading back the decimal numeral of n gives n |
| Text.ParseDecimal | app/http/controllers/UserController.go:87-91 | every ID below 2^32, written in decimal, parses to itself |
| Config.JWTSecret | config/app.go:36-42 | the secret is `JWT_SECRET` when that is non-empty, `"your-secret-key-change-this-in-production"` otherwise, and never empty |
| Config.DSN | config/app.go:10-20 | when no setting contains a space, the DSN splits on spaces into `host=… user=… password=… dbname=… port=…`, then `sslmode=disable`, then `TimeZone=Asia/Jakarta` |
| Crypto.ValidateClaims | app/http/middleware/auth.go:38-46 | the time claims pass iff "exp" and "nbf" are each absent or a number, now is before a set (non-zero) exp and not before a set nbf; a null or otherwise non-numeric time claim fails; "iat" is not checked |
| Crypto.TimeClaimEdgeCases | app/http/middleware/auth.go:38-46 | an "exp" or "nbf" of 0 is no constraint, one of null is rejected as the wrong type, and a claim set with neither passes |
| Crypto.Parse | app/http/middleware/auth.go:38-46 | `jwt.Parse` accepts iff the token decodes, its algorithm is a registered one, the key function gives a key, the signature checks under it and the time claims pass; the accepted token is the decoded one |
| Models.User.constructor | app/http/controllers/AuthController.go:54-58 | a new user holds the request's name, email and plaintext password, with ID 0 |
| Models.User.HashPassword | app/models/User.go:17-24 | on success the password becomes the bcrypt hash of the old password; on error it is unchanged; nothing else changes; with a sound bcrypt the new hash accepts the old password |
| Models.User.CheckPassword | app/models/User.go:27-30 | a read-only comparison that, with a sound bcrypt, accepts any password the stored hash was made from |
| Http.ErrorBodyMentionsOnlyError | app/http/controllers/AuthController.go:42 | an error body `{"error": msg}` names no field but `error` |
| Database.Inserted | app/models/User.go:10-12 | an insert adds one row under the next ID, with both timestamps now, keeps all other rows and keeps IDs and emails consistent and unique |
| Database.Saved | app/http/controllers/UserController.go:233 | a save replaces one row, stamps `UpdatedAt`, keeps the others and keeps emails unique |
| Database.Removed | app/http/controllers/UserController.go:283 | a delete removes exactly that ID and keeps the table consistent |
| Database.Table.FindById | app/http/controllers/UserController.go:94-101 | `First(&user, id)` finds the row with that ID, reports not-found when there is none, or fails with the database error |
| Database.Table.FindByEmail | app/http/controllers/AuthController.go:113-120 | the email lookup finds a row iff the email is stored, and under the unique index it is the one row with that email |
| Database.Table.FindByEmailExcept | app/http/controllers/UserController.go:218 | the lookup finds a row iff another ID holds that email |
| Database.Table.FindAll | app/http/controllers/UserController.go:49-54 | `Find(&users)` lists every row exactly once, or fails with the database error |
| Database.Table.Create | app/http/controllers/AuthController.go:67-70 | `Create` succeeds iff there is no write error and the email is new (unique index); it then inserts and writes ID and timestamps back into the user, and otherwise changes nothing |
| Database.Table.Save | app/http/controllers/UserController.go:233-236 | `Save` succeeds iff there is no write error and no other row holds the email; it then stores the user's fields with a fresh `UpdatedAt`, and otherwise changes nothing |
| Database.Table.Delete | app/http/controllers/UserController.go:283-286 | `Delete` removes the row unless the write fails, in which case nothing changes |
| Middleware.GetJWTSecretKey | app/http/middleware/auth.go:13-15 | the verification key is the configured JWT secret, never empty |
| Middleware.KeyFuncIgnoresClaims | app/http/middleware/auth.go:38-44 | the key function answers from the header's algorithm alone, whatever the claims: every HMAC token gets the one configured, non-empty secret and every other algorithm is refused |
| Middleware.BearerToken | app/http/middleware/auth.go:28-35 | the header has the shape `["Bearer", tok]` iff it is "Bearer " followed by a token without spaces; the token is everything after "Bearer " |
| Middleware.BearerTokenShape | app/http/middleware/auth.go:28-29 | the two-piece split test, stated both ways, against the header's prefix and remainder |
| Middleware.Authenticate | app/http/middleware/auth.go:20-59 | an empty header is missing; a header other than "Bearer " plus a space-free token is malformed; an identity is decided only for an HMAC token signed with the configured secret whose time claims hold, and it is that token's `user_id` and `email`; a valid token with a non-numeric `user_id` is the panic case |
| Middleware.GateSteps | app/http/middleware/auth.go:20-59 | `Next` is called iff the token was valid and numeric; every rejection aborts; identity is only ever stored before `Next` |
| Middleware.AuthMiddleware | app/http/middleware/auth.go:18-61 | the context receives exactly the steps of the gate's decision; identity is stored only for a valid token, and every rejection aborts |
| Middleware.ShapeCheckedFirst | app/http/middleware/auth.go:20-33 | an empty or malformed header is refused whatever the secret, the token library or the clock |
| Middleware.MalformedExamples | app/http/middleware/auth.go:28-33 | `"Token abc123"`, `"bearer x"` and `"Bearer a b"` are refused as malformed |
| Middleware.VerifierSeesToken | app/http/middleware/auth.go:28-38 | the verifier gets exactly the text after "Bearer " and alone decides such a header; "Bearer " passes the shape test with the empty token |
| Middleware.NonHmacRefused | app/http/middleware/auth.go:40-42 | a token naming a non-HMAC algorithm is refused before a key is given out |
| Middleware.AuthorizedNeedsSecret | app/http/middleware/auth.go:38-50 | an authorized header carries an HMAC token whose signature checks under the configured secret and whose time claims hold |
| Middleware.OneInvalidTokenResponse | app/http/middleware/auth.go:46-50 | every verifier failure gives the same 401 "Token tidak valid atau telah kedaluwarsa" and aborts |
| Signup.SignupOutcome | app/http/controllers/AuthController.go:47-70 | a signup keeps the table consistent and never succeeds for a stored email |
| Signup.SignupFailure | app/http/controllers/AuthController.go:47-70 | a registered email is the only 409; hashing and insert failures are 500; no password field |
| Signup.SignupUser | app/http/controllers/AuthController.go:47-70 | the lookup, hash and insert on the table produce exactly the signup outcome, and return the stored row |
| Signup.SignupNeverDuplicates | app/http/controllers/AuthController.go:47-51 | a stored email is refused as registered when the lookup works, and the insert fails otherwise |
| Signup.SignupStoresHash | app/http/controllers/AuthController.go:54-70 | a signup succeeds iff the email is new, hashing works and the write goes through; it then adds one row under the next ID holding the bcrypt hash |
| Signup.SignupHashAcceptsPassword | app/models/User.go:17-30 | with a sound bcrypt the stored hash accepts the password it was made from |
| AuthController.TokenClaims | app/http/controllers/AuthController.go:150-155 | the claim set is exactly `user_id`, `email`, `exp`, `iat`, with no "nbf" |
| AuthController.TokenLifetimeBounds | app/http/controllers/AuthController.go:153-154 | `exp - iat` is 86400 or 86399 across two readings less than a second apart, and exactly 86400 for one reading |
| AuthController.GenerateToken | app/http/controllers/AuthController.go:149-159 | an issued token decodes to the HS256 token over the claim set and its signature checks under the same secret the gate uses |
| AuthController.IssuedTokenAuthorizes | app/http/controllers/AuthController.go:149-159 | an issued token passes the gate, with the same user ID and email, until its "exp" second |
| AuthController.IssuedTokenExpires | app/http/controllers/AuthController.go:153 | from its "exp" second on, an issued token is refused as expired |
| AuthController.UserSummary | app/http/controllers/AuthController.go:82-86 | the user part of the body has exactly `id`, `name`, `email` |
| AuthController.AuthBody | app/http/controllers/AuthController.go:79-89 | the success body holds `message` and `data`, with `user` and the token, and no password field |
| AuthController.RegisterOutcome | app/http/controllers/AuthController.go:39-90 | registration keeps the table consistent, and a 201 always comes with a new row |
| AuthController.Register | app/http/controllers/AuthController.go:39-90 | the handler's table change and response are exactly the registration outcome |
| AuthController.RegisterNeverDuplicates | app/http/controllers/AuthController.go:47-51 | a stored email gives 409, or 500 when the lookup fails; the table is unchanged and no token is issued |
| AuthController.RegisterStoresHash | app/http/controllers/AuthController.go:54-70 | the table either stays as it was or gains exactly the request's user with the bcrypt hash; a 201 implies the insert |
| AuthController.RegisterTokenFailureKeepsUser | app/http/controllers/AuthController.go:67-77 | a signing failure after the insert answers 500 and keeps the new user |
| AuthController.RegisterHidesPassword | app/http/controllers/AuthController.go:79-89 | no response of Register carries a password field |
| AuthController.RegisterTokenAuthorizes | app/http/controllers/AuthController.go:72-89 | a 201 carries the token issued for the new row's ID and email, and that token passes the gate |
| AuthController.LoginOutcome | app/http/controllers/AuthController.go:104-146 | no response of Login carries a password field |
| AuthController.Login | app/http/controllers/AuthController.go:104-146 | the handler changes nothing and answers exactly the login outcome |
| AuthController.LoginRejectionsIndistinguishable | app/http/controllers/AuthController.go:113-126 | a 401 is given iff the email is unknown or the password is wrong, and it is the same response in both cases |
| AuthController.LoginSucceedsOnlyWithPassword | app/http/controllers/AuthController.go:122-145 | a 200 means the stored user with that email accepted the password, and carries the token issued for that user |
| AuthController.RegisterThenLogin | app/http/controllers/AuthController.go:104-146 | right after a successful registration, the same email and password log in as the new user |
| UserController.UserDetail | app/http/controllers/UserController.go:59-65 | a listed user has exactly `id`, `name`, `email`, `created_at`, `updated_at` and no password |
| UserController.ListData | app/http/controllers/UserController.go:57-68 | the listing's data carries no password field |
| UserController.ListDataEntries | app/http/controllers/UserController.go:57-66 | one entry per user, in order, each being that user's detail: exactly `id`, `name`, `email`, `created_at`, `updated_at` with that user's values |
| UserController.GetUsers | app/http/controllers/UserController.go:40-69 | no database gives 500 "Database tidak terhubung"; a read error gives 500 with its text; otherwise 200 with every stored user exactly once |
| UserController.GetUsersHidesPassword | app/http/controllers/UserController.go:56-68 | the listing response carries no password field |
| UserController.GetUserOutcome | app/http/controllers/UserController.go:85-110 | no response of GetUser carries a password field |
| UserController.GetUser | app/http/controllers/UserController.go:85-110 | the handler changes nothing and answers exactly the outcome |
| UserController.GetUserShowsRow | app/http/controllers/UserController.go:93-109 | 200 iff the ID parses, the read works and the row exists; the body is that row's public view |
| UserController.CreatedData | app/http/controllers/UserController.go:161-166 | the created user's data has exactly `id`, `name`, `email`, `created_at` |
| UserController.MessageAndData | app/http/controllers/UserController.go:159-167 | a message with password-free data carries no password field |
| UserController.CreateUserOutcome | app/http/controllers/UserController.go:126-168 | creation keeps the table consistent and never answers with a password field |
| UserController.CreateUser | app/http/controllers/UserController.go:126-168 | the handler's table change and response are exactly the creation outcome |
| UserController.CreateUserRules | app/http/controllers/UserController.go:133-157 | a stored email gives 409 when readable and leaves the table unchanged; the table changes iff the answer is 201, by the insert of the hashed user |
| UserController.NewPassword | app/http/controllers/UserController.go:224-230 | an empty requested password keeps the stored hash; a new one is stored only as its bcrypt hash, which (sound bcrypt) accepts it |
| UserController.UpdatedData | app/http/controllers/UserController.go:240-245 | the updated user's data has exactly `id`, `name`, `email`, `updated_at` |
| UserController.UpdateUserOutcome | app/http/controllers/UserController.go:186-247 | an update keeps the table consistent (emails unique) and never answers with a password field |
| UserController.UpdateUser | app/http/controllers/UserController.go:186-247 | the field-by-field update and save produce exactly the update outcome |
| UserController.UpdateMergesFields | app/http/controllers/UserController.go:211-236 | a 200 changes only that row: empty fields keep their value, non-empty ones replace it, ID and `CreatedAt` stay, `UpdatedAt` becomes now, and a new password is stored hashed so that (sound bcrypt) the new password is accepted |
| UserController.UpdateEmailConflict | app/http/controllers/UserController.go:215-221 | 409 iff another user holds the requested email; then nothing is saved; keeping one's own email is never a conflict |
| UserController.DeleteUserOutcome | app/http/controllers/UserController.go:263-289 | a delete keeps the table consistent and never answers with a password field |
| UserController.DeleteUser | app/http/controllers/UserController.go:263-289 | the handler's table change and response are exactly the delete outcome |
| UserController.DeleteRemovesExactly | app/http/controllers/UserController.go:282-288 | 200 iff the ID parses, is stored and the database works; then exactly that row is gone; otherwise nothing changes |
| UserController.BadIdRejected | app/http/controllers/UserController.go:87-91 | an ID that is not a decimal below 2^32 gets 400 "ID tidak valid" from Get, Update and Delete, whatever the table, and nothing changes |
| UserController.AbsentIdNotFound | app/http/controllers/UserController.go:87-98 | any parameter strconv reads as an unstored ID (leading zeros included) gets 404 "User tidak ditemukan" from Get, Update and Delete, and nothing changes |
| UserController.AbsentCanonicalIdNotFound | app/http/controllers/UserController.go:87-98 | in particular the plain decimal numeral of an unstored 32-bit ID gets that 404 from all three handlers |
| Seeders.SeedListShape | database/seeders/user_seeder.go:12-38 | five seeds with pairwise distinct emails, all with password "password123" |
| Seeders.SeedStep | database/seeders/user_seeder.go:42-61 | one iteration keeps the table consistent |
| Seeders.SeedRun | database/seeders/user_seeder.go:41-62 | the whole run keeps the table consistent |
| Seeders.SeedUsers | database/seeders/user_seeder.go:10-65 | the loop gives every seed its iteration, so the table ends in the run's state; the result is always nil |
| Seeders.SeedRunKeepsRows | database/seeders/user_seeder.go:44-47 | stored rows are never changed or removed by a run |
| Seeders.SeedRunSkipsStored | database/seeders/user_seeder.go:43-47 | when every seed's email is stored, the run changes nothing |
| Seeders.SeedRunStoresUndisturbed | database/seeders/user_seeder.go:49-59 | a failure skips only its own seed: every seed that meets no hashing or write failure is stored afterwards |
| Seeders.SeedUsersIdempotent | database/seeders/user_seeder.go:41-47 | after a run without failures, a second run inserts nothing |
| Seeders.SeedRunStoresHashes | database/seeders/user_seeder.go:50-56 | every added row is one of the seeds, holding bcrypt's hash of its password |

## Left out

- bcrypt internals: the salt, the cost and Blowfish are outside the model. `GenerateFromPassword` is an abstract function of password and salt. Its error (for example a password over 72 bytes) is its `None`.
- JWT internals: base64url segments, JSON decoding of the header and HMAC-SHA256 are outside the model. `decode`, `sign` and `signatureOk` are abstract. That an attacker cannot forge a signature is therefore not stated.
- Crypto.ValidateClaims: jwt/v5 joins all the validation errors it finds into one error; the model reports only the first. The gate maps every error to the same 401 either way.
- Crypto.ClaimValue: claim numbers are non-negative integers. `float64` decoding, fractional or negative numbers, precision loss above 2^53 and the `uint(...)` conversion of `user_id` are not modelled.
- Middleware.AuthMiddleware: a valid token whose `user_id` is not a number makes the type assertion panic. This is recorded as a `Panic` step; the response of Gin's recovery handler is not modelled. The `claims.(jwt.MapClaims)` assertion always holds for `jwt.Parse` and is not modelled as a branch.
- The `json` tags of `User` are not modelled: no handler encodes a `User` value; each builds its own `gin.H`.
- Gin's JSON binding and its validators (`required`, `email`, `min=6`): the binding outcome is a parameter (`Http.Bind`), and the error text is taken as given.
- Soft delete is not modelled; a deleted row is removed outright. GORM's `gorm.Model` really marks the row with `DeletedAt`, hides it from queries, and leaves it under the unique index.
- Database.Table.Save requires the row to exist. GORM's `Save` of an unknown primary key inserts; the handlers only save rows they have just fetched.
- Database.Table.Create: an insert refused by the unique index or by a write error consumes no ID here, so `nextId` stays. With gorm.Model on PostgreSQL the ID is a `bigserial` whose `nextval` is not rolled back, so the next user's ID (in the 201 body and the token's `user_id`) can be higher than the model's `nextId`. No proved property depends on IDs being gap-free; only that new IDs are fresh and increasing.
- Database faults are one read error and one write error per request, shared by all its queries. Partial failures within one query are not modelled.
- The `ErrRecordNotFound` exemption in `GetUsers` is not modelled, because `Find` never returns that error.
- Handlers other than `GetUsers` dereference `DBConnection` without a nil check; that panic is not modelled, because their table is never null.
- Timestamps: GORM reads the clock for `CreatedAt` and `UpdatedAt`, and `generateToken` makes two `time.Now()` calls. All of these are parameters. JSON encodes `time.Time` as an RFC 3339 string (`JTime`), which is not modelled as text.
- Config.DSN: the field layout is stated only when no setting contains a space. The string itself is still the seven fields joined by single spaces.
- Handlers return their status and body instead of writing them into the Gin context. Only the middleware, whose effect on the context is the point, uses `Context`.
- Seeders.SeedUsers: the log lines are left out. Each seed gets a fresh `User` rather than an element of the Go slice; the data written is the same.
- `LoadConfig` and its `log.Fatal`, `RunAllSeeders`, `main`, route registration and Swagger annotations are wiring and I/O, and are left out.
- Concurrent requests are left out, including the race between the email check and the insert. The model is sequential; the unique index is what refuses a duplicate either way.
