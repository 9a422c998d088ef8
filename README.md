# node-auth: the decision logic of a credential-auth service, in Dafny

This project models the core of a small Express/TypeScript authentication
service:

- **User store and handlers** (`auth_controller.dfy`, module `AuthController`).
  The module-level `users` array is the class `UserStore`, with `register`,
  `login` and `getProfile` as its methods and `logout` as a constant response.
  Each method is proved equal to a pure step function (`RegisterStep`,
  `LoginStep`, `ProfileStep`), and the lemmas are about those functions.
  `find` is a scan from the front, written as a loop. It is specified by
  `FirstMatch`, the index of the first matching record.
- **Input schemas** (`auth_schema.dfy`, module `AuthSchema`). The password
  regex is written twice: once literally (four lookaheads, then an anchored
  `[A-Za-z\d@$!%*?&]{8,}`) and once as a plain rule. A lemma proves that the
  two accept the same passwords. The `min` rules are length bounds. `parse`
  returns either nothing or a ZodError listing every failed rule.
- **Middleware** (`middleware.dfy`). The bearer guard (`AuthMiddleware`) does
  `startsWith("Bearer ")`, `split(" ")[1]` and verifies with the access secret
  only. Every failure becomes `ApiError(401, "Invalid or expired token")`.
  The validation middleware (`ValidateMiddleware`) returns the ordered list of
  `next` arguments. The error mapper (`ErrorMiddleware`) turns an error into a
  status and a JSON body.
- **Routes** (`auth_routes.dfy`, module `AuthRoutes`). Each route's middleware
  chain is run through to the response the client receives. The end-to-end
  properties are stated here.
- **Stand-ins for the libraries** (`crypto.dfy`). bcrypt is modelled as
  `Hash`/`Compare`, with `Compare(p, Hash(p, salt))` proved. jsonwebtoken is
  modelled as `Sign`/`Verify` over an escaped, `.`-separated token whose last
  segment is a MAC that is injective in the secret. It is proved that a token
  verifies to its payload under the secret that signed it and under no other
  secret. `js_string.dfy` gives JavaScript's `startsWith`, `split`/`join` and
  `toString`. `types.dfy` mirrors the records of `src/types/index.ts`.

The code is modelled as written, in places where it departs from the intended
design:

- The failure branches of `register`, `login` and `getProfile` construct an
  `ApiError` and `return` without throwing it. So a duplicate email, an
  unknown email, a wrong password or a missing id ends with no response
  (`Returned`, and `None` at the route level), not with a 400/401/404.
- Responses carry the whole `User` record, including the `password` digest.
  `UserResponse` is declared but never used.
- The guard replaces "No token provided" with the single 401 message.
- `validate` calls `next` twice after a ZodError, because there is no
  `return` between the two calls.
- The controller reads `config.jwt.ACCESS_SECRET`, `ACCESS_EXPIRY`,
  `REFRESH_SECRET` and `REFRESH_EXPIRY`. `src/config/index.ts:22-27` exports
  these under other names (`accessSecret`, …), so at run time the reads are
  undefined. The model takes the four values as optional parameters (`JwtConfig`).
  When a secret is absent, `jwt.sign` throws after the record was pushed, and
  the catch block forwards the error. `UnsignedRegisterStoresAnd500` states
  this outcome for registration, and `UnsignedLoginIs500` states it for a
  login with the right credentials.
- The repository's test password `"Test123!@#"` is rejected by the regex,
  because `#` is not in its alphabet.

## Model

| member | source | states |
|---|---|---|
| `JsString.Split` | src/middleware/auth.middleware.ts:26 | `split` on one separator gives at least one field, at least two when the separator occurs, and no field holds the separator |
| `JsString.StartsWith` | src/middleware/auth.middleware.ts:22 | `startsWith` is a prefix test; the guard's use of it is stated by `AuthMiddleware.NoPrefixNoToken` and `AuthMiddleware.BearerTokenOf` |
| `JsString.Decimal` | src/controllers/auth.controller.ts:48 | the id string `Date.now().toString()` is a non-empty run of decimal digits |
| `JsString.DecimalValue` | src/controllers/auth.controller.ts:48 | the id's digits denote the clock reading they were written from |
| `JsString.DecimalInjective` | src/controllers/auth.controller.ts:48 | distinct clock readings give distinct ids |
| `Bcrypt.Hash` | src/controllers/auth.controller.ts:46 | the stored digest starts with the cost prefix `$2a$10$` and embeds the salt it was drawn with |
| `Bcrypt.Compare` | src/controllers/auth.controller.ts:91 | `bcrypt.compare` re-hashes the password with the salt read from the digest; `Bcrypt.CompareHash` states that a password always matches its own digest |
| `Bcrypt.CompareHash` | src/controllers/auth.controller.ts:91 | `compare(p, hash(p))` holds for every password and salt |
| `Jwt.Sign` | src/controllers/auth.controller.ts:13-27 | signing succeeds exactly when the secret is present and non-empty, and a token contains no space |
| `Jwt.Verify` | src/middleware/auth.middleware.ts:27 | a token verifies only under a non-empty secret, with exactly four segments whose last is the MAC of the first three under that secret; `Jwt.VerifySign` and `Jwt.VerifyOtherSecret` give its value on signed tokens |
| `Jwt.VerifySign` | src/middleware/auth.middleware.ts:27 | a token verifies, under the secret that signed it, to the payload it was signed with |
| `Jwt.VerifyOtherSecret` | src/middleware/auth.middleware.ts:27 | a token signed under one secret fails verification under any other secret |
| `AuthSchema.RegexIsStrongPassword` | src/schemas/auth.schema.ts:11 | the literal regex accepts a password iff it has length ≥ 8, one each of a-z, A-Z, 0-9 and `@$!%*?&`, and every character in that alphabet |
| `AuthSchema.PasswordRegexMatches` | src/schemas/auth.schema.ts:10-13 | the password regex read literally; `AuthSchema.RegexIsStrongPassword` states what it accepts |
| `AuthSchema.ForeignCharacterRejects` | src/schemas/auth.schema.ts:11 | one character outside the alphabet rejects the password whatever else holds |
| `AuthSchema.TestUserPasswordRejected` | src/__tests__/auth.test.ts:14 | the test user's password `"Test123!@#"` fails the regex |
| `AuthSchema.StrongPasswordExample` | src/schemas/auth.schema.ts:9-11 | `"Aa1!aaaa"` passes the regex |
| `AuthSchema.InvalidEmailRejected` | src/__tests__/auth.test.ts:27-33 | `"invalid-email"` fails the email rule |
| `AuthSchema.EmailShapedOf` | src/schemas/auth.schema.ts:3-5 | any address with a non-empty local part, a single '@' and a '.' in the domain passes the email stand-in |
| `AuthSchema.TestEmailAccepted` | src/schemas/auth.schema.ts:3-5 | `"test@example.com"` passes the email rule |
| `AuthSchema.Parse` | src/schemas/auth.schema.ts:19-34 | a failed parse throws a ZodError with at least one issue |
| `AuthSchema.Issues` | src/schemas/auth.schema.ts:3-34 | the issues zod reports, field by field; `AuthSchema.RegisterParse` and `AuthSchema.LoginParse` state when there are none, `AuthSchema.IssuesComeFromRules` that each carries a rule's message |
| `AuthSchema.RegisterParse` | src/schemas/auth.schema.ts:19-25 | register input parses iff email, password and name are all present, the email is well-formed, the password meets the regex and the name has length ≥ 2 |
| `AuthSchema.LoginParse` | src/schemas/auth.schema.ts:27-34 | login input parses iff email and password are present, the email is well-formed and the password is non-empty (no complexity rule) |
| `AuthSchema.IssuesComeFromRules` | src/schemas/auth.schema.ts:3-34 | every reported issue message is one of the schema's rule messages |
| `ErrorMiddleware.ErrorHandler` | src/middleware/error.middleware.ts:12-25 | the body status is always `"error"`; an ApiError keeps its status code and message; any other error becomes 500 with `"Internal server error"` |
| `ErrorMiddleware.InternalErrorsIndistinguishable` | src/middleware/error.middleware.ts:21-25 | two errors that are not ApiErrors get identical responses, so their messages never reach the client |
| `AuthMiddleware.Authenticate` | src/middleware/auth.middleware.ts:15-33 | the guard admits iff a bearer token is present and verifies under the access secret; it admits with the verified payload, and every failure is `ApiError(401, "Invalid or expired token")` |
| `AuthMiddleware.BearerToken` | src/middleware/auth.middleware.ts:21-26 | a token exists iff the header starts with the exact `"Bearer "` prefix, and it holds no space; it is field 1 of `split(" ")`, see `AuthMiddleware.NoPrefixNoToken`, `AuthMiddleware.BearerTokenOf` and `AuthMiddleware.TokenIsFirstFieldAfterPrefix` |
| `AuthMiddleware.NoPrefixNoToken` | src/middleware/auth.middleware.ts:21-23 | a header without the exact `"Bearer "` prefix yields no token, and the guard passes the 401 error whatever the access secret |
| `AuthMiddleware.LowerCaseSchemeRefused` | src/middleware/auth.middleware.ts:22 | the prefix check is case-sensitive: `"bearer x"` yields no token |
| `AuthMiddleware.BearerTokenOf` | src/middleware/auth.middleware.ts:26 | `"Bearer " + t` yields exactly `t` when `t` has no space |
| `AuthMiddleware.TokenIsFirstFieldAfterPrefix` | src/middleware/auth.middleware.ts:26 | the token is the first space-separated field after the prefix: `"Bearer a b"` gives `a`, and `"Bearer  x"` gives the empty string |
| `AuthMiddleware.AdmitsAccessToken` | src/middleware/auth.middleware.ts:26-29 | a token signed under the access secret, sent as `"Bearer " + token`, is admitted with its payload |
| `AuthMiddleware.RefusesOtherSecret` | src/middleware/auth.middleware.ts:27-31 | a token signed under any other secret (such as the refresh secret) is refused with the 401 error |
| `ValidateMiddleware.Validate` | src/middleware/validate.middleware.ts:14-19 | a successful parse gives exactly one `next()`; a ZodError gives `next(ApiError(400, errors[0].message))` followed by `next(zodError)`; any other error gives one `next(error)` |
| `ValidateMiddleware.ValidateRequest` | src/middleware/validate.middleware.ts:9-19 | the parser sees `{body, query, params}`; the chain proceeds iff that parses, and otherwise the first call is a 400 ApiError |
| `AuthController.GenerateTokens` | src/controllers/auth.controller.ts:11-30 | the same payload is signed twice: access under the access secret and expiry, refresh under the refresh ones; it fails iff a secret is missing |
| `AuthController.TokensCarryPayload` | src/controllers/auth.controller.ts:11-30 | each token verifies to the payload under its own secret, and the refresh token fails under a different access secret |
| `AuthController.FirstMatch` | src/controllers/auth.controller.ts:40 | `find` stops at the first record that matches, and finds nothing iff no record matches |
| `AuthController.FindUser` | src/controllers/auth.controller.ts:40 | `users.find` gives a record iff some record matches, and the record it gives is stored and matches |
| `AuthController.AuthResponse` | src/controllers/auth.controller.ts:60-70 | the success response of register and login: the `refreshToken` cookie holding the refresh token with maxAge 604800000, and body status `"success"` with the user and the access token |
| `AuthController.RegisterStep` | src/controllers/auth.controller.ts:32-74 | the register handler on a store; `AuthController.RegisterNewEmail`, `AuthController.RegisterTakenEmail` and `AuthController.RegisterKeepsEmailsDistinct` state its outcomes |
| `AuthController.LoginStep` | src/controllers/auth.controller.ts:76-114 | the login handler on a store; `AuthController.LoginFailures` and `AuthController.RegisterThenLogin` state its outcomes |
| `AuthController.ProfileStep` | src/controllers/auth.controller.ts:124-144 | the getProfile handler on a store; `AuthController.ProfileFindsFirstId` states its outcomes |
| `AuthController.Logout` | src/controllers/auth.controller.ts:116-122 | logout clears the `refreshToken` cookie and answers 200 with `"Logged out successfully"` |
| `AuthController.RegisterNewEmail` | src/controllers/auth.controller.ts:40-70 | a new email appends exactly one record at the end, with the email, name and `Hash(password)`, and leaves the earlier records as they were; with both secrets present, the handler sends exactly the 201 response: body status `"success"` with that record and the access token, and the `refreshToken` cookie holding the refresh token with maxAge 604800000; without them, it forwards the error |
| `AuthController.RegisterTakenEmail` | src/controllers/auth.controller.ts:40-44 | an email already present (case-sensitive) leaves the store unchanged and sends nothing |
| `AuthController.RegisterKeepsEmailsDistinct` | src/controllers/auth.controller.ts:40-56 | if emails are pairwise distinct before `register`, they still are afterwards |
| `AuthController.LoginFailures` | src/controllers/auth.controller.ts:84-96 | an unknown email or a failed `compare` ends login with no tokens and no response |
| `AuthController.RegisterThenLogin` | src/controllers/auth.controller.ts:84-113 | after `register(e, p, n)` of a new email, `login(e, p)` finds the new record and the password matches its digest, whatever the secrets; with both controller secrets present it answers 200 with tokens for `{userId: id, email: e}`, and without them it forwards the signing error |
| `AuthController.ProfileFindsFirstId` | src/controllers/auth.controller.ts:130-140 | getProfile answers iff some record has the token's user id, with status 200 and the first such record; otherwise it returns without any response (never an error) |
| `AuthController.UserStore.constructor` | src/controllers/auth.controller.ts:9 | the store starts empty |
| `AuthController.UserStore.Find` | src/controllers/auth.controller.ts:84 | the loop returns the record `find` returns: the first match, or none |
| `AuthController.UserStore.Register` | src/controllers/auth.controller.ts:32-74 | the new store and the outcome are those of `RegisterStep`, and distinct emails are preserved |
| `AuthController.UserStore.Login` | src/controllers/auth.controller.ts:76-114 | the outcome is that of `LoginStep`; the store is not modified |
| `AuthController.UserStore.GetProfile` | src/controllers/auth.controller.ts:124-144 | the outcome is that of `ProfileStep`; the store is not modified |
| `AuthRoutes.GuardFailureIs401` | src/routes/auth.routes.ts:16-17 | on logout and profile, every guard failure reaches the client as the same 401 and the handler does not run |
| `AuthRoutes.Serve` | src/routes/auth.routes.ts:14-17 | one request on one route, with the error handler behind it; the `AuthRoutes` lemmas in this table state its outcomes |
| `AuthRoutes.LogoutAdmitted` | src/routes/auth.routes.ts:16 | behind a verified token, logout clears the refresh cookie and answers 200, leaving the store unchanged |
| `AuthRoutes.ProfileNeedsVerifiedToken` | src/routes/auth.routes.ts:17 | a 200 from the profile route needs a bearer token that verifies under the access secret, and carries a stored record with the token's user id; protected routes never change the store |
| `AuthRoutes.InvalidRegisterIs400` | src/routes/auth.routes.ts:14 | register input that breaks a schema rule leaves the store unchanged and gets a 400 with one of the schema's messages |
| `AuthRoutes.UnsignedRegisterStoresAnd500` | src/controllers/auth.controller.ts:56-73 | when the secrets the controller reads are absent, a valid new registration is still stored and the client gets a 500 |
| `AuthRoutes.FailedLoginGetsNoResponse` | src/routes/auth.routes.ts:15 | valid login input with an unknown email or a wrong password gets no response and leaves the store unchanged |
| `AuthRoutes.UnsignedLoginIs500` | src/controllers/auth.controller.ts:98-113 | the right credentials while a controller secret is missing: the client gets the generic 500 and the store is unchanged |
| `AuthRoutes.RegisterRouteNewEmail` | src/routes/auth.routes.ts:14 | with both controller secrets present, a valid new registration appends one record with the clock-reading id and the password digest, and answers with the full 201 response: that record, its access token and the refresh-token cookie |
| `AuthRoutes.RegisterRouteTakenEmail` | src/routes/auth.routes.ts:14 | registering a stored email again changes nothing and sends nothing |
| `AuthRoutes.LoginAfterRegister` | src/__tests__/auth.test.ts:38-44 | with both controller secrets present, logging in with the credentials just registered answers 200 with the new record |
| `AuthRoutes.ProfileOfStoredId` | src/routes/auth.routes.ts:17 | behind a token whose payload names the id of record i, the profile route answers 200 with a record of that id, and with record i itself when no earlier record has that id |
| `AuthRoutes.ProfileUnknownIdNoResponse` | src/controllers/auth.controller.ts:130-134 | behind a verified token whose id names no stored record, the profile route sends nothing and keeps the store |
| `AuthRoutes.ProfileAfterRegister` | src/routes/auth.routes.ts:14-17 | with both controller secrets present and the access token signed with the guard's secret, the access token from registration opens the profile route on a record with the new id. This is the new record itself when no earlier record has that id |

## Left out

- Asynchrony and concurrency: handlers run one at a time. In the source, `register` awaits `bcrypt.hash` between its `find` and its `push`, so two concurrent registrations of one email could both be stored. The model does not capture this.
- bcrypt: the checksum is a polynomial fingerprint, not the Blowfish-based key derivation. The random salt is an input. bcrypt's 72-byte password truncation is not modelled.
- jsonwebtoken: the token format, algorithm, and the `iat`/`exp` claims in the decoded payload are stand-ins. Expiry strings such as "15m" and "7d" are carried in the token but never checked, because there is no clock. The MAC models "verifies under the signing secret only", not unforgeability. A sign call with an absent expiry is treated as succeeding, because jsonwebtoken's own option validation is not part of this model.
- `src/config/index.ts`, `src/index.ts` (helmet, CORS, rate limiting, morgan, `listen`) and the logger calls are plumbing. The secrets are parameters instead.
- Cookie attributes other than name, value and maxAge (`httpOnly`, `secure`, `sameSite`) are not modelled.
- zod: `.email()` is library behaviour. `EmailShaped` is a stand-in: one `@`, a non-empty local part, and a `.` after the `@`. Body fields are strings or absent; non-string JSON values and zod's type-error messages are not modelled. Lengths count Dafny characters, not UTF-16 code units. The order of issues is field by field; the route lemmas state only that the message comes from the schema's rules.
- Express: after a validation error, the second `next(error)` call goes on down Express's chain after the response was sent. The model follows only the first call. A ZodError with no issues would make the catch block throw, so the model gives no `next` call.
- The controller destructures `req.body` without checks. The model gives it strings, which is what the validation in front of it guarantees.
- `Date.now()` ids and `new Date()` timestamps are inputs (`Draws`). Ids are not assumed unique.
