# User authentication API: a Dafny model of its authentication core

This project models the authentication core of a small FastAPI user service and proves properties of it. The core covers:

- registration of users with hashed passwords;
- login, which issues a pair of JSON Web Tokens (an access token and a refresh token, HS256);
- validation of bearer tokens on `/users/me` and `/refresh`;
- the handler that turns request-validation errors into Spanish messages.

The property that matters most is the asymmetric token-type check, which is proved in full:

- a refresh token never authenticates a resource request;
- an access token, which carries no `type` claim, is never accepted as a refresh token;
- no token is accepted by both validators.

Files, one module each:

- `optional.dfy`: `Option`.
- `jwt.dfy`: the token codec the service uses (python-jose). A token is a claims record plus a signature. The signature comes from an abstract keyed function `Signer`. Decoding checks the signature and the `exp` claim.
- `passwords.dfy`: the password hasher (Argon2 through passlib). It is an abstract `Hasher` whose stated properties are collected in `Sound`. A concrete witness shows that the properties can all hold together.
- `auth.py` becomes `auth.dfy`: the configuration as an explicit `Config` value, the two token constructors and the two validators.
- `schemas.py` becomes `schemas.dfy`: length constraints as predicates, the validator's field errors, the `Token` and `UserInDB` shapes.
- `models.py` becomes `models.dfy`: the `User` row and the table's column constraints.
- `crud.py` becomes `crud.dfy`: class `UserStore`, a map from username to row plus the next primary key, with `GetUserByUsername` and `CreateUser`.
- `main.py` becomes `api.dfy`: `Register`, `Login`, `ReadUsersMe` and `Refresh` as methods over the store, a `Config`, a `Signer` and the current time.
- `main.py` also becomes `validation_handler.dfy`: the validation-error handler, a loop proved against `Detail`.
- `test_main.py` becomes `scenarios.dfy`, which replays three request sequences: duplicate registration (test_main.py:38-51), the authentication flow (test_main.py:89-180) and the special-character password (test_main.py:214-231). Each method's postcondition is what those tests assert. The validation tests are lemmas in `validation_handler.dfy`, and the hashing tests are lemmas in `passwords.dfy`.

Clock, randomness and secrets are parameters:

- `now` is an integer number of seconds.
- Each registration receives its salt.
- The secret key and the two lifetimes are fields of `Config`. `DefaultConfig` gives the values used when the environment sets none.

## Model

| member | source | states |
|---|---|---|
| `Jwt.DecodeEncode` | auth.py:62 | decoding a token encoded under the same key gives its claims back exactly while `now < exp`, and fails afterwards |
| `Jwt.DecodeOnlyGenuine` | auth.py:62 | a token that decodes is exactly the encoding of its claims under the verifying key and has not expired |
| `Jwt.KeyRotationInvalidates` | auth.py:15 | under a key-separating signer, a token encoded under one key does not decode under another |
| `Jwt.KeySeparatingSatisfiable` | auth.py:16 | the key-separation property is consistent: some signer satisfies it |
| `Passwords.HashVerifies` | auth.py:26-30 | a password verifies against its own hash, for every salt |
| `Passwords.WrongPasswordRejected` | test_main.py:201-208 | a different password does not verify against the hash |
| `Passwords.HashesOfSamePasswordDiffer` | test_main.py:186-199 | two salts give two different hashes of one password, and both verify |
| `Passwords.HashIsNotPlaintext` | auth.py:29-30 | a hash never equals a password shorter than the encoded hash length |
| `Passwords.SoundSatisfiable` | auth.py:22 | the stated hasher properties are consistent: a concrete hasher has them all |
| `Api.DefaultLifetimes` | auth.py:15-18 | with the default configuration an issued access token lives 30 minutes, which `expires_in` reports as 1800 seconds, and is accepted exactly until then; the refresh token lives 7 days and is accepted exactly until then |
| `Auth.CreateAccessToken` | auth.py:32-41 | the claims are the caller's `sub` and `type` unchanged plus `exp`, which is `now + delta` for a truthy delta and `now + 15 minutes` otherwise; the token is signed with the configured key |
| `Auth.CreateRefreshToken` | auth.py:43-52 | the claims are the caller's `sub`, `type = "refresh"` whatever the data held, and `exp`, which is `now + delta` for a truthy delta and `now + REFRESH_TOKEN_EXPIRE_DAYS` days otherwise |
| `Auth.GetCurrentUser` | auth.py:54-74 | a subject is returned only for a token that decodes, whose `type` is not "refresh", and only that token's `sub` |
| `Auth.GetCurrentUserFromRefreshToken` | auth.py:76-96 | a subject is returned only for a token that decodes, whose `type` is exactly "refresh", and only that token's `sub` |
| `Auth.TypeCheckAsymmetry` | auth.py:54-96 | on a genuine, unexpired token with a subject, the access check accepts every type but "refresh" (a missing type included) and the refresh check accepts "refresh" only (a missing type rejected) |
| `Auth.NoTokenPassesBothChecks` | auth.py:64-68 | no token is accepted by both validators |
| `Auth.ValidatorsRejectUndecodableOrSubjectless` | auth.py:70-73 | both validators reject a token that fails to decode or has no `sub` |
| `Auth.ExpiredTokensRejected` | auth.py:62 | both validators reject a token from the second its `exp` is reached |
| `Auth.RefreshTokenNeverAccess` | auth.py:43-68 | no refresh token, whatever its data and delta, authenticates as an access token |
| `Auth.AccessTokenNeverRefresh` | auth.py:86-90 | no access token built from data without `type = "refresh"` is accepted as a refresh token |
| `Auth.AccessRoundTrip` | auth.py:32-74 | `get_current_user(create_access_token({"sub": u}, d))` is `u` exactly until the token's lifetime has passed |
| `Auth.RefreshRoundTrip` | auth.py:43-96 | the refresh validator returns `u` for `create_refresh_token({"sub": u}, d)` exactly until the token's lifetime has passed |
| `Auth.RotatedKeyRejects` | auth.py:15 | under a key-separating signer, after the secret key changes both validators reject tokens issued under the old key |
| `Schemas.LengthErrors` | schemas.py:19-23 | a field gets no error exactly when it is present and within its bounds, and at most one error otherwise |
| `Schemas.ValidationAcceptsExactlyValid` | schemas.py:17-23 | a register body passes validation iff both fields are present, the username has 3 to 50 characters and the password 8 to 72 |
| `Schemas.MissingFieldRejected` | schemas.py:19-23 | a body missing a field fails validation with a "Field required" error for that field |
| `Models.InsertKeepsConstraints` | models.py:14-16 | inserting a row under a new username with the next key keeps usernames and ids unique and leaves other rows unchanged |
| `Models.RowsAreDistinct` | models.py:14-15 | two different rows differ in username and in id |
| `Models.ViewHidesHash` | schemas.py:25-28 | the `UserInDB` view does not depend on the password hash |
| `Crud.UserStore.GetUserByUsername` | crud.py:10-13 | a row is found iff the username is stored, and it is the row with that username |
| `Crud.UserStore.CreateUser` | crud.py:15-22 | a new username gets exactly one new row holding the hash of the password (never the password), the next id and the insertion time, and other rows are unchanged; a taken username leaves the store unchanged |
| `Crud.StoredHashVerifiesOnlyItsPassword` | crud.py:17-18 | a stored hash verifies against a password iff it is the one it was made from |
| `Crud.NoStoredHashIsAPassword` | crud.py:17-18 | no stored hash equals any acceptable password, its own included |
| `Api.AccessLifetime` | main.py:181-184 | the access lifetime is the configured minutes, or 15 minutes when they are zero (a zero `timedelta` is falsy) |
| `Api.RefreshLifetime` | main.py:185-188 | the refresh lifetime is the configured days |
| `Api.IssueTokenPair` | main.py:181-195 | the pair is an access token for the subject without `type`, a refresh token for the subject with `type = "refresh"`, `token_type = "bearer"` and `expires_in = ACCESS_TOKEN_EXPIRE_MINUTES * 60` |
| `Api.IssuedPairKeepsTypes` | main.py:181-195 | the issued access token authenticates its subject until it expires and is never a refresh token; the issued refresh token works the other way round |
| `Api.ExpiresInMatchesLifetime` | main.py:194 | `expires_in` equals the real access lifetime iff the configured minutes are non-zero |
| `Api.Register` | main.py:128-147 | a taken username gives 400 with "El nombre de usuario ya está registrado" and an unchanged store; a new one gives 201 with the new record; the store gains exactly the row holding the next id, the hash of the password under the given salt and the insertion time, and the id counter advances by one |
| `Api.Login` | main.py:161-195 | success iff the user exists and the password is the registered one; every failure is the same 401; success gives 200 and the issued pair; the store is not modified |
| `Api.ReadUsersMe` | main.py:209-224 | an invalid access token gives 401; a valid one whose subject is gone gives 404; otherwise 200 with the stored record of the token's subject, and never for a refresh token |
| `Api.Refresh` | main.py:237-258 | success iff the refresh validator accepts the token; failure is 401 with "Token de refresco inválido"; success gives 200 and a new pair for the same subject, without touching the store |
| `Api.RefreshTokenStaysValid` | main.py:244-258 | a refresh token accepted now is still accepted, for the same subject, at every later time before its expiry |
| `ValidationHandler.HandleValidationErrors` | main.py:69-100 | the loop's result is the generic "Error de validación" for no errors and the messages joined by " \| " otherwise |
| `ValidationHandler.DetailReportsEveryError` | main.py:98-100 | every error's message occurs in the detail |
| `ValidationHandler.SingleErrorDetail` | main.py:99 | one error is reported by its message alone |
| `ValidationHandler.TwoErrorsDetail` | main.py:99 | two errors are reported as their messages around one " \| " |
| `ValidationHandler.UsernameTooShortMessage` | main.py:88-90 | any username error whose message contains "at least 3 characters" becomes "El usuario debe tener al menos 3 caracteres" |
| `ValidationHandler.UsernameTooLongMessage` | main.py:88-92 | any username error whose message contains "at most 50 characters" but not "at least 3 characters" becomes "El usuario no puede exceder 50 caracteres" |
| `ValidationHandler.UsernameOtherMessage` | main.py:88-94 | any username error whose message contains neither phrase becomes "Error en el usuario: " followed by the message |
| `ValidationHandler.PasswordTooShortMessage` | main.py:81-83 | any password error whose message contains "at least 8 characters" becomes "La contraseña debe tener al menos 8 caracteres" |
| `ValidationHandler.PasswordTooLongMessage` | main.py:81-85 | any password error whose message contains "at most 72 characters" but not "at least 8 characters" becomes "La contraseña no puede exceder 72 caracteres" |
| `ValidationHandler.PasswordOtherMessage` | main.py:81-87 | any password error whose message contains neither phrase becomes "Error en la contraseña: " followed by the message |
| `ValidationHandler.OtherFieldMessage` | main.py:95-96 | an error on any other field becomes "Error en ", the field, ": " and the message |
| `ValidationHandler.ShortPasswordDetail` | main.py:76-99 | the body of test_main.py:53-60 (a too-short password, a valid username) fails validation with the single detail "La contraseña debe tener al menos 8 caracteres" |
| `ValidationHandler.ShortUsernameDetail` | main.py:76-99 | the body of test_main.py:62-69 (a too-short username, a valid password) fails validation with the single detail "El usuario debe tener al menos 3 caracteres" |
| `ValidationHandler.LongUsernameDetail` | main.py:76-99 | the body of test_main.py:233-240 (a too-long username, a valid password) fails validation with the single detail "El usuario no puede exceder 50 caracteres" |
| `ValidationHandler.EmptyBodyDetail` | main.py:76-99 | the empty body of test_main.py:71-74 is reported as "Error en el usuario: Field required \| Error en la contraseña: Field required" |
| `Scenarios.DuplicateRegistration` | test_main.py:38-51 | the first registration gives 201 and the second gives 400 with the duplicate detail |
| `Scenarios.AuthenticationFlow` | test_main.py:89-180 | login succeeds with "bearer"; a wrong password and an unknown user give the same 401; the access token reads the user back; "invalid_token" gives 401; refresh gives 200 |
| `Scenarios.SpecialCharacterPassword` | test_main.py:214-231 | a password with special characters registers and logs in |

## Left out

- JWT byte encoding (header, base64url, HMAC-SHA256) is not modelled. A token is a claims record plus a signature from an abstract `Signer`. A key-separating signer is assumed only where a lemma says so. `KeySeparating` idealises HMAC-SHA256: under the real MAC, keys that differ only in trailing zero bytes, or a key longer than 64 bytes and its SHA-256 digest, give equal tags.
- The Argon2 algorithm is not modelled. A `Hasher` is any pair of functions with the properties in `Passwords.Sound`. Irreversibility is not modelled and no lemma depends on it. That "a hash differs from its password" rests on the encoded length: passlib's default argon2id encoding is 97 characters, and passwords have at most 72.
- Expiry boundary: python-jose rejects a token only when `exp < now`, so it still accepts one in the second `now == exp`. The model follows section 4.1.4 of RFC 7519 and requires `now < exp`. The library's code is not part of this model.
- Claims: other claims (`iat`, `nbf`, `aud`) are not modelled. Neither is a `type` claim holding JSON `null` (which `payload.get` would return instead of "access") or a non-string `sub`.
- A request without an `Authorization` header is refused by the framework's bearer scheme before any validator runs. That path is not modelled.
- The validation-error handler returns a plain dict carrying `detail` and sets no status code. The model covers that `detail` string only; what the framework answers with the returned value is not modelled. The validator's wording ("String should have at least 8 characters", "Field required") is the request validator's, which is not part of this model.
- `/health`, startup table creation, logging, rate limiting (main.py:127, 160), CORS and routing are framework plumbing and are left out.
- Concurrency: two simultaneous registrations of one username are not modelled. In `CreateUser` a taken username behaves like the unique constraint (nothing is stored). `Register` never reaches that case, because it checks first.
- Primary keys come from a counter. Key reuse by the database is not modelled; the core never deletes rows.
- Overflow of `timedelta` for huge configured lifetimes, and the parsing of the environment variables, are not modelled. Lifetimes are unbounded integers.
