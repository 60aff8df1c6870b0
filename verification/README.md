# Verified model of the sign-up, refresh-token store and request validation

This project is a Dafny model of the parts of a small Express/Prisma
file-storage service that carry real logic, with proofs of their contracts:

- **Request validators.** These are the Joi schemas for credentials (`signUpSchema`, `signInSchema`), for the
  refresh-token body, for file metadata, for the file-list query (page and
  list size with defaults 1 and 10) and for a file id. They are read as Joi reads them:
  - a missing required key, a non-string, an empty string and a non-number are each the only error of their key;
  - `min`, `max`, `pattern` and `positive` are all reported (`abortEarly: false`);
  - lengths are counted in UTF-16 code units, as JavaScript does;
  - the messages are the overrides the schemas give, or Joi's own template where they give none;
  - the validated value keeps only the schema's keys, and a key the schema does not name is dropped without an error (see Left out for how Joi 17 differs);
  - a defaulted key that is absent takes its default.
- **The validation middleware** (`joiValidationMiddleware`). Its schemas are arbitrary functions, so
  its aggregation is proved for every validator:
  - each of body, params and query is validated only when it has a schema, and always against the part as it arrived;
  - every failing location is listed, and its `field` values are the detail paths joined with ".";
  - only the parts that passed are replaced, together with the matching `validated*` field;
  - the answer is 400 "Validation failed" exactly when a location failed, and `next()` exactly when none did.
- **Sign-up** (`AuthService.processSignUp`). This is a transition over a user store, keyed by login id, and a refresh-token store.
  - The bcrypt hash, the JWT signer and the random bytes are inputs.
  - Which awaited call throws, if any, is an input too (`Fault`).
  - If the login id is taken, the answer is "User already exist" and nothing changes.
  - Otherwise, on success, one user row is added with the hashed password and a fresh id.
  - One refresh row is added for that user, carrying the returned token. The token is the hex of 40 random bytes: 80 lower-case hex digits that decode back to the bytes.
  - The access token is signed over `{id: userId}` with `expiresIn: '10m'`, which is the 600000 ms of the access cookie.
  - Any throw gives "Internal server error" with no tokens. Rows written before the throw stay.
- **The refresh-token repository.** It is a sequence of `(token, userId)` rows, with no uniqueness of tokens.
  - Save appends one row.
  - Find returns a row with the token: the earliest stored one, an order the code itself does not fix.
  - Delete removes every row with the token and no other row, and answers `count > 0`. A second delete of the same token answers false and changes nothing.

Modules follow the source files: `Joi` (the subset of the schema library the
validators use), `AuthValidation`, `FileValidation`, `JoiMiddleware`,
`UserRepository`, `RefreshRepository`, `AuthService`, `Constants`, plus the
helpers `Wrappers`, `Text` and `Hex` and the composition module
`ValidatedRequests`.

A few facts about the code that the model keeps as they are:
- The conflict message is "User already exist".
- The payload passed to `jwt.sign` is `{id: userId}`; `jsonwebtoken` adds only `iat` and `exp`.
- Sign-up does not check for an existing session.
- The repository does not keep refresh tokens unique.

## Model

| member | source | states |
|---|---|---|
| Joi.ValidateKey | src/validation/auth.validation.ts:4-27 | One key: it draws no error exactly when the declarative `Accepts` holds. Every detail has path `[key]`. An absent key yields its default or nothing. An accepted string is kept unchanged, and an accepted number is kept as its converted value. |
| Joi.CollectErrors | src/middleware/joi.validation.ts:26-29 | All keys are validated (`abortEarly: false`). There are no details exactly when every key is accepted, and every detail's path names a schema key. |
| Joi.Validate | src/middleware/joi.validation.ts:26-29 | `schema.validate` is Valid exactly when every key is accepted. When Invalid, it has at least one detail, each naming a schema key. When Valid, the value holds only schema keys. Unknown keys are dropped without an error, which holds for Joi only on inputs without unknown keys (see Left out). |
| Joi.KeyErrorsInResult | src/middleware/joi.validation.ts:27 | Any detail of any one key makes the object Invalid and appears among its details: an error in one key does not hide the others. |
| Joi.OutputPair | src/middleware/joi.validation.ts:28 | A two-key object whose keys both produce a value validates to just those two entries, with everything else stripped. |
| Joi.OutputAt | src/middleware/joi.validation.ts:28 | With distinct keys, the validated object holds at each key exactly that key's validated value, and lacks the key when it produced none. |
| AuthValidation.LookaheadFindsMeaning | src/validation/auth.validation.ts:19 | The lookahead `(?=.*[c])` succeeds exactly when a character of class c occurs before the first line terminator. |
| AuthValidation.PasswordPatternOnOneLine | src/validation/auth.validation.ts:19 | On a string without line breaks, the pattern holds exactly when the string has a lower-case letter, an upper-case letter and a digit. |
| AuthValidation.PatternStopsAtLineBreak | src/validation/auth.validation.ts:19 | "Abcdef\n1" fails the pattern although it contains all three classes, and "Abcde1\nx" passes. |
| AuthValidation.SignUpSchema | src/validation/auth.validation.ts:3-28 | A body is accepted exactly when `id` is a string of 3 to 255 units and `password` is a string of 6 to 255 units that passes the pattern. Both keys are therefore required, and an empty id is refused. |
| AuthValidation.SignInSchema | src/validation/auth.validation.ts:30 | Sign-in validation gives the same result as sign-up validation on every body, and so accepts exactly the same bodies. |
| AuthValidation.CredentialErrorsSplit | src/validation/auth.validation.ts:3-28 | The credential details are the id's details followed by the password's. |
| AuthValidation.SignUpStripsUnknownKeys | src/middleware/joi.validation.ts:26-29 | An accepted body is reduced to exactly its `id` and `password`. |
| AuthValidation.MissingCredentialReported | src/validation/auth.validation.ts:5-26 | A missing `id` is reported as "ID is required" and a missing `password` as "Password is required", both of kind any.required. |
| AuthValidation.EmptyIdReported | src/validation/auth.validation.ts:10 | An empty id is reported as "ID cannot be empty", and that is the only error reported for the id. |
| AuthValidation.PasswordPatternReported | src/validation/auth.validation.ts:19-25 | A non-empty password failing the pattern is reported with the pattern message, of kind string.pattern.base. |
| AuthValidation.RefreshTokenSchema | src/validation/auth.validation.ts:32-40 | A body is accepted exactly when `refreshToken` is present, is a string and is not empty. The accepted value holds just that key. |
| FileValidation.FileUploadSchema | src/validation/file.validation.ts:3-48 | Metadata is accepted exactly when: `name` is a non-empty string of at most 255 units; `extension`, `mimeType` and `path` are non-empty strings; `size` and `userId` are strictly positive numbers. |
| Joi.EmptyStringTemplate | src/validation/file.validation.ts:14-19 | Without an override, an empty string is refused with Joi's template: the quoted key followed by "is not allowed to be empty". |
| FileValidation.EmptyExtensionUsesDefaultMessage | src/validation/file.validation.ts:14-19 | An empty `extension` is refused with Joi's own wording, because the schema overrides no empty-string message for it. |
| FileValidation.GetFilesSchema | src/validation/file.validation.ts:50-65 | The query is accepted exactly when `page` and `list_size` are each absent or strictly positive. The accepted value holds both keys, with 1 and 10 standing in for absent ones. |
| FileValidation.PagingOutput | src/validation/file.validation.ts:51-59 | The validated list query holds the converted page and list size, or their defaults when absent. |
| FileValidation.ListQueryDefaults | src/validation/file.validation.ts:52-59 | An empty query validates to page 1 and list size 10. |
| FileValidation.NonPositivePageReported | src/validation/file.validation.ts:53-56 | A page that is not positive is reported as "Page must be a positive number". |
| FileValidation.FileIdSchema | src/validation/file.validation.ts:67-76 | The params are accepted exactly when `id` is present and strictly positive. The accepted value holds just the converted id. |
| JoiMiddleware.Replace | src/middleware/joi.validation.ts:38-39 | Replacing a part sets it and its `validated*` field to the value. Every other part and `validated*` field stays as it was. |
| JoiMiddleware.Step | src/middleware/joi.validation.ts:25-41 | One block does one of three things. With no schema, it does nothing. On failure, it records the mapped details under its location and leaves the part alone. On success, it replaces the part. It never touches another location's part or errors. |
| JoiMiddleware.RunBlocksHandles | src/middleware/joi.validation.ts:24-79 | After the three blocks, each location is handled as its own schema dictates on the part as it arrived. A location is listed in the errors exactly when it failed. |
| JoiMiddleware.RunBlocksHandleAll | src/middleware/joi.validation.ts:24-79 | The per-location outcome holds for body, params and query alike, and the collected errors name exactly the failing locations. |
| JoiMiddleware.Middleware | src/middleware/joi.validation.ts:20-89 | Validation happens per location, failures are all collected, and only parts that passed are replaced. The answer is 400 "Validation failed" exactly when some location failed, with exactly the failing locations as error keys. `next()` is called exactly when none failed. |
| JoiMiddleware.FieldIsJoinedPath | src/middleware/joi.validation.ts:33 | Splitting an error's `field` on "." gives back the detail's path when no segment contains "." A one-segment path gives the key itself. |
| ValidatedRequests.MissingIdFieldError | src/middleware/joi.validation.ts:31-36 | If the middleware checked a body with the sign-up schema, a body without an id would yield the client-facing error with field "id", message "ID is required" and type any.required. |
| ValidatedRequests.CredentialsWithoutId | src/middleware/joi.validation.ts:31-36 | With the sign-up schema on the body, a body without an id is answered 400. Its only error location is the body, which lists field "id" with "ID is required". |
| ValidatedRequests.ListingWithEmptyQuery | src/middleware/joi.validation.ts:75-78 | With the list schema on the query, an empty query passes. The query is replaced by page 1 and list size 10. |
| Text.SplitJoin | src/middleware/joi.validation.ts:33 | Splitting `parts.join(sep)` on sep gives the parts back when no part contains sep and there is at least one part. |
| Text.Utf16LengthBasicPlane | src/validation/auth.validation.ts:6-7 | For text with no character outside the Basic Multilingual Plane, the length `min`/`max` compare is the character count. |
| Text.Utf16Length | src/validation/auth.validation.ts:6-7 | The length `min`/`max` compare is JavaScript's UTF-16 length, between the character count and twice it. |
| Hex.HexRoundTrip | src/service/auth.service.ts:54 | Decoding the hex encoding of a byte string gives the bytes back. |
| Hex.HexEncodeInjective | src/service/auth.service.ts:54 | Distinct byte strings have distinct hex encodings. |
| Constants.MinutesDuration | src/utils/constants.ts:13 | A duration string "<n>m" means n × 60000 ms. |
| Constants.AccessLifetimeAgrees | src/utils/constants.ts:13-14 | The JWT lifetime '10m' is the access cookie's max age, 600000 ms. |
| Constants.RefreshLifetime | src/utils/constants.ts:17 | The refresh max age is 2592000000 ms: thirty days, or 4320 access lifetimes. |
| RefreshRepository.SaveRefreshToken | src/repository/refresh.repository.ts:16-23 | Saving returns the row `(token, userId)` and appends it. The old rows stay in order, the multiset of rows grows by exactly that row, and the count of rows with that token grows by one. |
| RefreshRepository.GetRefreshDataByToken | src/repository/refresh.repository.ts:25-31 | The result is none exactly when no row has the token. Otherwise it is a row of the store carrying that token. |
| RefreshRepository.FindReturnsFirst | src/repository/refresh.repository.ts:25-31 | The lookup returns the earliest stored row that carries the token. The store keeps rows in insertion order, and the code gives no `orderBy`, so this order is the model's choice (see Left out). |
| RefreshRepository.Remaining | src/repository/refresh.repository.ts:33-38 | The rows left are exactly those whose token differs. As many rows go as carried the token. |
| RefreshRepository.RemainingMultiset | src/repository/refresh.repository.ts:33-38 | Every row with another token survives as often as it was stored, and no row with the token survives. |
| RefreshRepository.DeleteMany | src/repository/refresh.repository.ts:34-38 | `deleteMany` reports the number of rows that carried the token. Afterwards no row has the token, and other rows keep their multiplicity. |
| RefreshRepository.DeleteRefreshToken | src/repository/refresh.repository.ts:33-41 | Deleting answers true exactly when some row had the token. It removes every such row and no other. |
| RefreshRepository.DeleteTwice | src/repository/refresh.repository.ts:33-41 | A second delete of the same token answers false and leaves the store unchanged. |
| RefreshRepository.SaveThenFind | src/repository/refresh.repository.ts:16-31 | A token just saved is found. The row found is the saved one unless an older row already had that token. |
| RefreshRepository.SaveThenDelete | src/repository/refresh.repository.ts:16-41 | Deleting a token just saved answers true and leaves no row with it. |
| UserRepository.FindUserByLoginId | src/repository/user.repository.ts:18-20 | The lookup is none exactly when no user has the login id. In a well-formed store, a found user has that login id. |
| UserRepository.CreateUser | src/repository/user.repository.ts:22-29 | Creation fails exactly when the login id is taken. Otherwise it files a new user with the given login id and password, with an id no existing user has. It changes nothing else and keeps the store well formed. |
| AuthService.RefreshTokenFormat | src/service/auth.service.ts:53-55 | The refresh token is exactly 80 characters, each in 0-9a-f, and decodes back to the 40 random bytes. Distinct random bytes therefore give distinct tokens. |
| AuthService.AccessTokenRequest | src/service/auth.service.ts:45-51 | The payload passed to `jwt.sign` is `{id: userId}`, and its lifetime string means 600000 ms, the access cookie's max age. |
| AuthService.AccessTokenExpiry | src/service/auth.service.ts:49 | The `exp` of every access token is its issue time plus 600 seconds. |
| AuthService.MessagesDistinct | src/service/auth.service.ts:20-40 | The three result messages are pairwise different. |
| AuthService.IssueTokens | src/service/auth.service.ts:28-41 | After the user row is written, both tokens are returned exactly when nothing throws. Any throw gives "Internal server error", and the user table is left as it is. |
| AuthService.ProcessSignUp | src/service/auth.service.ts:15-43 | The message is one of the three. It is "User has been created" exactly when nothing throws and the login id is new, and both tokens are present exactly then. A taken login id gives "User already exist" with no tokens and no change. A failed lookup gives "Internal server error" and no change. |
| AuthService.SignUpPreservesConsistency | src/service/auth.service.ts:24-30 | Whatever fails, the user store stays well formed and every refresh row still names an existing user. |
| AuthService.SignUpSucceeds | src/service/auth.service.ts:24-36 | On success, exactly one user is added under the login id, holding hash(password) and a fresh id. Exactly one refresh row is appended for that user, carrying the returned token. The access token is signed over `{id}` of that user with '10m'. |
| AuthService.SignUpPartialFailure | src/service/auth.service.ts:26-41 | A throw after the user is created gives "Internal server error" with no tokens, and the user is not rolled back. The refresh row also stays when only signing failed, and is absent otherwise. |
| AuthService.SignUpEarlyFailure | src/service/auth.service.ts:17-26 | A throw in the lookup, the hash or the user creation leaves both stores unchanged, and no token is returned. |
| AuthService.SignUpTwice | src/service/auth.service.ts:17-22 | After a sign-up that wrote its user, a second sign-up with the same login id is answered "User already exist" without tokens and changes nothing. |

## Left out

- No route in the program installs `joiValidationMiddleware` or any of the six schemas. The middleware and schema contracts, and the ValidatedRequests lemmas, say what would happen if a route installed them. The controllers answer on their own: POST /auth/signup checks `!body.id || !body.password` and answers 400 "No credentials" (auth.controller.ts:30-31), and GET /file/list reads `Number(request.query.page ?? 1)` (file.controller.ts:88-89), so `page=0` gets through there.
- Express routing and the controllers (`auth.controller.ts`, `file.controller.ts`, `AuthController.ts`, `FileController.ts`, `index.ts`): HTTP plumbing. The controller's own `!body.id || !body.password` check is part of that.
- Sign-in, token refresh and rotation, logout, access-token validation and the 30-day session expiry. The sign-in, refresh and logout handlers are empty. `validateAccessToken` is called but defined nowhere. Only the refresh max-age constant is modelled.
- Prisma and MariaDB clients, `file.repository.ts`, the rest of `user.repository.ts`, and `FileService`. These are thin wrappers over the database library and the file system.
- bcrypt, `jsonwebtoken` sign/verify and `crypto.randomBytes` are inputs. The model says nothing about hash strength, signature validity, or the randomness and uniqueness of tokens.
- The user id chosen by the database is modelled as a counter. Any fresh id would satisfy the same contracts.
- Concurrency between the user lookup and the user creation is not modelled. Calls run one after another, so the unique-login-id failure of `CreateUser` cannot happen inside one sign-up.
- Joi's own conversion of numeric strings (a decimal-number pattern, then `parseFloat`, not `Number`) is a parameter (`Numeral`). Every contract holds for any conversion; to Joi `""`, `" "` and `"0x10"` are not numbers, so `?page=` is reported as "Page must be a number", although `Number` would read it as 0. The `number.infinity` and `number.unsafe` checks are not modelled.
- Joi.Validate: the model drops unknown keys from the validated value without an error. Joi 17 strips unknown keys under `stripUnknown: true` only when the schema sets no `unknown` flag; every schema here sets an explicit `.unknown(false)` (auth.validation.ts:28 and 40, file.validation.ts:48, 65 and 76), so Joi instead keeps each unknown key and reports it as `object.unknown` (`"<key>" is not allowed`). The "accepted exactly when" contracts of Joi.Validate, AuthValidation.SignUpSchema, AuthValidation.RefreshTokenSchema, FileValidation.FileUploadSchema, FileValidation.GetFilesSchema and FileValidation.FileIdSchema therefore hold for Joi only on request parts without unknown keys.
- AuthValidation.SignUpSchema: accepted exactly as stated only for bodies without unknown keys; see Joi.Validate.
- AuthValidation.RefreshTokenSchema: accepted exactly as stated only for bodies without unknown keys; see Joi.Validate.
- FileValidation.FileUploadSchema: accepted exactly as stated only for bodies without unknown keys; see Joi.Validate.
- FileValidation.GetFilesSchema: accepted exactly as stated only for queries without unknown keys; see Joi.Validate.
- FileValidation.FileIdSchema: accepted exactly as stated only for params without unknown keys; see Joi.Validate.
- Request parts are flat maps. A body that is not an object (`undefined`, an array, a string) is not modelled.
- The key order of the JSON `errors` object is not modelled, because errors are a map from location to list. Joi's `detail.context` is not modelled either.
- The duration strings of the `ms` package: only digits followed by a lower-case ms, s, m, h, d or w (or nothing) are read. The unit `y`, upper-case or mixed-case units (`ms` reads "10M" as ten minutes), decimals, signs, spaces and long unit names are not.
- AuthService.SignUpSucceeds: it states that the stored password is `hash(password)`. That this differs from the plaintext is a property of bcrypt and is not stated.
- Cookie options and environment-variable reads are configuration.
- JoiMiddleware.Middleware: assumes `req.query` can be assigned, as in Express 4. In Express 5 `req.query` is a getter without a setter, so the assignment at joi.validation.ts:76 throws once a query schema passes, and `next()` is never called.
- JoiMiddleware.Replace: the Query case rests on the same Express 4 assumption.
- ValidatedRequests.ListingWithEmptyQuery: rests on the same Express 4 assumption; under Express 5 the replacement of the query throws.
- RefreshRepository.FindReturnsFirst: `findFirst` is called without `orderBy`, so the code fixes no order among rows that share a token. Returning the earliest row assumes the database gives matching rows in insertion (primary-key) order.
- Login ids and refresh tokens are compared by exact string equality (map keys and `==`). The database compares them under its column collation. MariaDB's default case-insensitive collations ignore case and trailing spaces, and then "Alice" finds an existing "alice" where the model would create a second user. Collations are database configuration outside the source.
- The `console.error(error)` call in the catch block of `processSignUp` is logging and has no effect on the result or the stores, so it is not modelled.
