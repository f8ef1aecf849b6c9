# Account service: lifecycle and token claims, in Dafny

This project models the core of a small Go account microservice. It covers
registration with an emailed six-digit code, email verification, login, and
JWT access/refresh tokens. It also models the users table these operations
read and write.

The account lifecycle is Unregistered → Unverified(code, expiry) → Verified.
`Model.StateOf` reads this state off the table, and `UserService.AttemptVerify`
is the verification step on that abstract state. The service methods are
proved against both.

Modules (one per modelled source file, plus three support modules: `Wrappers` for `Option`/`Result`, `Decimal` for the `%d` conversions, `Scenarios` for a walk-through):

- `Model` (`backend/model/user_model.go`): the `UserModel` row as a datatype,
  with the nullable code and expiry columns as `Option`s. Also holds the
  lifecycle state, the per-row lifecycle invariant `WellFormed`, and the
  history invariant `Evolves`: rows are never removed, identity and
  credentials are never rewritten, and the admin and verified flags are never
  reset.
- `UserClient` (`backend/clients/user/user_clients.go`): the package-global
  `Db` handle becomes the class `UserStore`. It holds a `map<int, UserModel>`
  and the AUTO_INCREMENT counter. Its class invariant `Valid()` includes the
  unique email column. Each client function is a method that states the whole
  new table and that nothing else changes.
- `Email` (`backend/utils/email.go`): `GenerateVerificationCode` as a loop
  over an input stream of digit draws.
- `Decimal`: `fmt.Sprintf("%d")` and `fmt.Sscanf("%d")`, which the token code
  uses to carry the user id in the `jti` claim.
- `Jwt` (`backend/utils/jwt.go`): the claims are built and checked for real.
  They follow RFC 7519 (registered claims in section 4.1), with HS256 from
  section 3.2 of RFC 7518.
- `UserService` (`backend/services/user_servicies.go`): the use cases.
- `Scenarios`: one walk-through, proved from the service contracts alone:
  register, a refused early login, verify, then verify again.

These inputs are parameters:

- the wall clock, as integer Unix seconds (`now`);
- `HashSHA256`, as a function parameter `hash`;
- the `crypto/rand` draws, as `seq<Email.Draw>`;
- the signing key (`jwtSecret`);
- whether each external call succeeds: a store read or write (`readOk`,
  `writeOk`), SMTP delivery (`mailOk`), and token signing (`accessSignOk`,
  `refreshSignOk`).

Lifetimes are 600 s for access tokens, 604800 s for refresh tokens and 900 s
for verification codes.

Signing is symbolic. A signature is the value `Mac(key, alg, claims)`, and
`Jwt.Parse` accepts a token only if it has an HMAC `alg` and that exact
signature under the key. The Sign/Parse round trip is therefore a proved
lemma, not an assumption.

`Jwt.Parse` also applies the claim check that the JWT library
(golang-jwt v5) runs inside `ParseWithClaims` by default:

- `exp` must be strictly after `now`;
- `nbf` must not be after `now`;
- `iat` is not checked.

As a result, with a single clock reading (see "Left out"), the code's own
`ExpiresAt.Before(now)` checks can never fire after a successful parse. `Jwt.ValidateJWT`'s contract shows this: it passes
exactly when `Parse` does. Because of the library check, an access token is
refused from its expiry second onward.

Four behaviours of the code that a reader might not expect:

- A duplicate-email rejection from the insert is reported as a creation
  error, not as "email taken".
- Verification succeeds without tokens when signing fails.
- `GetUserByID` never copies the verified flag into its reply, so the reply
  always has `isVerified == false`.
- Login wraps the not-found error rather than returning a distinct
  "not found".

## Model

| member | source | states |
|---|---|---|
| `Model.IdOfEmailUnique` | backend/model/user_model.go:7 | with the unique email column, the row found for an email is the only row holding it |
| `Model.MarkVerified` | backend/clients/user/user_clients.go:72-78 | verification sets the verified flag and clears code and expiry; every other column is unchanged |
| `Decimal.Digits` | backend/utils/jwt.go:47 | `%d` of a natural number is a non-empty digit string without a leading zero |
| `Decimal.Format` | backend/utils/jwt.go:137 | `%d` of an int starts with '-' exactly for negatives and is otherwise all digits |
| `Decimal.ValueOfDigits` | backend/utils/jwt.go:47 | reading back the printed digits of n gives n |
| `Decimal.Scan` | backend/utils/jwt.go:180-184 | `Sscanf("%d")` either fails or yields a 64-bit int |
| `Decimal.ScanFormat` | backend/utils/jwt.go:180-184 | round trip: scanning `%d` output recovers every 64-bit int |
| `Email.GenerateVerificationCode` | backend/utils/email.go:14-24 | fails exactly when one of the six draws fails, returning "" then; otherwise returns six decimal digits, the i-th being the i-th draw |
| `Email.CodeOfShape` | backend/utils/email.go:16-22 | a code exists iff no draw failed; it has one digit per draw, in draw order |
| `Email.DrawnCodeIsSixDigits` | backend/utils/email.go:15-23 | every code that can be stored has exactly six characters, all in '0'..'9' |
| `Jwt.Parse` | backend/utils/jwt.go:65-75 | a token is accepted iff it has an HMAC alg, is signed with the key over its claims, and is time-valid; the result is its claims |
| `Jwt.Sign` | backend/utils/jwt.go:52-59 | signing succeeds iff the library does; the token parses back to its claims under the key whenever time-valid, and never under another key |
| `Jwt.GenerateJWT` | backend/utils/jwt.go:34-60 | claims are sub "auth", iss "backend", jti = decimal user id, the admin flag, iat = nbf = now, exp = now + 600; parse succeeds exactly in [now, now + 600) |
| `Jwt.GenerateRefreshToken` | backend/utils/jwt.go:124-150 | same claims with sub "refresh" and exp = now + 604800; parse succeeds exactly in [now, now + 604800) |
| `Jwt.GenerateTokenPair` | backend/utils/jwt.go:193-205 | all or nothing: both generated tokens, or two empty tokens and the error |
| `Jwt.ValidateJWT` | backend/utils/jwt.go:63-89 | passes exactly when the token parses; subject and admin flag are ignored |
| `Jwt.ValidateAdminJWT` | backend/utils/jwt.go:91-121 | passes iff the token parses and its admin claim is set; a non-admin token fails with NotAdmin |
| `Jwt.ValidateRefreshToken` | backend/utils/jwt.go:153-190 | succeeds iff the token parses, has subject "refresh" and a scannable jti, returning that id and admin flag; every failure returns (0, false, err) |
| `Jwt.AccessTokenWindow` | backend/utils/jwt.go:36-44 | an access token passes ValidateJWT iff issued <= now < issued + 600 (so it fails at the expiry second) |
| `Jwt.RefreshRoundTrip` | backend/utils/jwt.go:168-186 | an unexpired refresh token for (u, a) validates to (u, a, no error) |
| `Jwt.RefreshValidatorRefusesAccessToken` | backend/utils/jwt.go:174-177 | an access token is always refused by the refresh validator |
| `Jwt.AccessValidatorAcceptsRefreshToken` | backend/utils/jwt.go:78-86 | ValidateJWT accepts an unexpired refresh token |
| `Jwt.AdminValidatorAcceptsRefreshToken` | backend/utils/jwt.go:106-118 | ValidateAdminJWT accepts an admin's unexpired refresh token, since it never checks the subject |
| `Jwt.ValidatorsRefuse` | backend/utils/jwt.go:65-71 | all three validators refuse a non-HMAC alg or an exp not after now, and the refresh validator then returns (0, false, err) |
| `UserClient.UserStore.constructor` | backend/db/db.go:47 | an empty users table satisfies the table invariant |
| `UserClient.UserStore.GetUserByUsername` | backend/clients/user/user_clients.go:13-21 | looks up by email; found iff the read works and the email is stored; every failure is wrapped and comes with an empty record |
| `UserClient.UserStore.GetUserByID` | backend/clients/user/user_clients.go:24-37 | missing id gives a wrapped error; a row with ID 0 gives the bare not-found error; otherwise the row |
| `UserClient.UserStore.CreateUser` | backend/clients/user/user_clients.go:40-46 | the insert succeeds iff the write works and key and email are free; it stores the record under the next AUTO_INCREMENT id with createdAt stamped; a failure changes nothing |
| `UserClient.UserStore.GetUserByEmail` | backend/clients/user/user_clients.go:58-68 | the bare not-found error comes exactly when the read works and no row has the email; driver failures are wrapped |
| `UserClient.UserStore.VerifyUserEmail` | backend/clients/user/user_clients.go:71-83 | the matching row becomes verified with code and expiry NULL; no other row or column changes |
| `UserClient.UserStore.UpdateVerificationCode` | backend/clients/user/user_clients.go:86-97 | only the code and expiry of the matching row change |
| `UserClient.PromoteRowsAffected` | backend/clients/user/user_clients.go:101-107 | the promotion UPDATE changes one row iff the id exists and is not yet admin |
| `UserClient.UserStore.PromoteToAdmin` | backend/clients/user/user_clients.go:100-111 | sets is_admin on the matching row and nothing else; reports not-found when no row changed (already-admin included) |
| `UserClient.PromoteExistingAdminAffectsNoRow` | backend/clients/user/user_clients.go:107-109 | for every table and every id whose row is already admin, the promotion UPDATE affects zero rows |
| `UserClient.UserStore.PromoteToAdminMatched` | backend/clients/user/user_clients.go:100-111 | corrected promotion: not-found exactly when the id is absent |
| `Model.StateOf` | backend/services/user_servicies.go:71-90 | the lifecycle state read off the table: Unregistered iff no row has the email, Verified iff its row is verified, otherwise Unverified with exactly the row's stored code and expiry |
| `UserService.AttemptVerify` | backend/services/user_servicies.go:77-90 | a verification attempt succeeds iff the account is unverified, the code matches and now is not after the expiry; success always leads to Verified; an unknown account is "user not found" |
| `UserService.VerificationOrder` | backend/services/user_servicies.go:77-90 | a verified account is always refused; a wrong code is "invalid" even after expiry; the right code is accepted up to and including the expiry second and refused after; after success every further attempt is "already verified" |
| `UserService.Register` | backend/services/user_servicies.go:16-67 | a taken email or a non-not-found lookup error aborts without writing; otherwise it stores (next id, email, hash(password), names, not admin, not verified, code, now + 900), so the account becomes Unverified(code, now + 900), and advances the AUTO_INCREMENT counter by one; the email outcome is ignored |
| `UserService.VerifyEmail` | backend/services/user_servicies.go:69-120 | refuses as AttemptVerify says, without writing; on success the row is MarkVerified and the state Verified; the reply carries the token pair for the row's id and existing admin flag, or no tokens when signing fails |
| `UserService.ResendVerificationCode` | backend/services/user_servicies.go:122-157 | unknown or verified accounts are refused without writing; otherwise a new code expiring at now + 900 is stored before sending; a failed send fails the call but the code stays |
| `UserService.Login` | backend/services/user_servicies.go:159-190 | an unverified account is refused whatever the password; a hash mismatch is refused; otherwise the token pair for (id, isAdmin) plus first and last name |
| `UserService.GetUserByID` | backend/services/user_servicies.go:192-205 | returns the row's public projection with an empty password and isVerified false; client errors are passed through |
| `UserService.VerifyToken` | backend/services/user_servicies.go:207-214 | passes exactly when the token parses, access or refresh alike; a failure is the token error |
| `UserService.VerifyAdminToken` | backend/services/user_servicies.go:216-223 | passes exactly when the token parses and carries the admin claim, whatever its subject; a failure is the admin-token error |
| `UserService.RefreshAccessToken` | backend/services/user_servicies.go:226-245 | an invalid refresh token is refused; otherwise the reply is exactly the token pair generated at now for the identity the old token carries (an access token with sub "auth", jti = that id, exp = now + 600, and a refresh token that validates to the same identity); a signing failure gives the token-generation error |
| `UserService.RefreshKeepsIdentity` | backend/services/user_servicies.go:228-235 | exchanging a refresh token at any second of its life yields one that carries the same (id, admin) for its whole life |
| `UserService.RefreshRefusesAccessToken` | backend/services/user_servicies.go:228-232 | an access token cannot be exchanged for a new pair |
| `Scenarios.RegisterLoginVerifyTwice` | backend/services/user_servicies.go:16-120 | on an empty table: registration succeeds despite a failed email; early login is refused; the drawn code verifies; a second verification is "already verified" |

## Findings

| source | as written | input that shows it | evidently intended | confidence | as-written member | corrected member |
|---|---|---|---|---|---|---|
| backend/clients/user/user_clients.go:107-109 | `RowsAffected == 0` is reported as record-not-found. MySQL's driver counts changed rows by default, and the DSN does not ask for found rows, so promoting a user who is already admin reports not-found | `PromoteToAdmin(id)` where row `id` already has `is_admin = true` | not-found only when no row has the id | medium, not executed; it depends on the MySQL driver's default affected-rows semantics | `UserClient.UserStore.PromoteToAdmin` | `UserClient.UserStore.PromoteToAdminMatched` |

`UserClient.PromoteExistingAdminAffectsNoRow` shows that every already-admin row is such an input. Nothing
else in the model calls either promotion method: there is no service-level
promotion.

## Left out

- SMTP delivery (`SendVerificationEmail` and `SendWelcomeEmail`, backend/utils/email.go:27-114): network I/O. Each send is reduced to its outcome, `mailOk`.
- `HashSHA256`: its definition is not part of this model. It is the function parameter `hash`.
- HMAC-SHA256 computation, base64url/JSON encoding of tokens, and the `aud` claim: a foreign crypto library. Signatures are symbolic.
- Signing failure: HS256 with a byte-slice key cannot fail in practice. It is kept as an input so that the error paths in the code are modelled.
- `crypto/rand` and the wall clock: inputs. Each operation uses one `now`, although the code reads the clock several times; in particular the second `time.Now()` of backend/utils/jwt.go:82, :108 and :170 is taken to equal the library's, so the model cannot show those expiry checks firing when the clock passes `exp` between the two readings.
- Sub-second time: times are whole seconds, so the nanosecond part of `CodeExpiresAt` is not modelled.
- gorm and MySQL internals, connection setup and migrations (backend/db/db.go):
  - email equality is exact, whereas MySQL's default collation ignores case;
  - VARCHAR length limits are not enforced;
  - a failed insert leaves the AUTO_INCREMENT counter unchanged.
- Startup configuration, including the fatal exit when `JWT_SECRET` is empty (backend/utils/jwt.go:21-26): configuration plumbing. The key is a parameter.
- HTTP binding, status codes, routing and CORS (backend/controllers/user_controller.go, backend/app/url_mappings.go). The route to a promotion controller names a function that does not exist, so only the client operation is modelled.
- `UpdateUser` (backend/clients/user/user_clients.go:49-55): no service calls it.
- The `VerificationToken` table (backend/model/user_model.go:18-24): migrated but never used.
- Concurrent registrations racing on one email: concurrency, which only the database's unique constraint resolves.
- `Decimal.Scan`:
  - skips only space, tab and carriage return as leading blanks, not other Unicode spaces;
  - assumes a 64-bit `int`.
- `UserClient.UserStore.GetUserByUsername`, `UserClient.UserStore.GetUserByEmail`: both require the table invariant. So the choice among several rows with one email (by primary key) is not modelled.
