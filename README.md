# auth-service: the token and credential lifecycle, in Dafny

This project models the core of the auth-service repository: the `AuthService` of
`src/services/auth_service.py`, and what that service rests on. The service signs
users in with a token pair and rotates refresh tokens. It ends one session or all
of a user's sessions, and it runs the forgotten-password flow.

The pieces it rests on are:

- token issuing and decoding (`src/core/security/security.py`, plus the older,
  shadowed `src/core/security.py` that the unit tests import);
- the bearer-token gate (`src/core/security/authentication.py`);
- registration and lookup of users (`src/services/user_service.py`,
  `src/schemas/user_schemas.py`);
- the generic SQLAlchemy repository (`src/infrastructure/repo/base_sqlalchemy_repo.py`).

The model has one module per source file:

| module | models |
|---|---|
| `Exceptions` | the errors the core raises, and `Option`/`Result`/`Outcome` |
| `Text` | `str.strip`, `str.replace`, `str(int)` and `int(str)` |
| `Crypto` | bcrypt and SHA-256 as injective stand-ins (a digest remembers its input) |
| `Jwt` | the jose library: a token is its claims signed with a key; decoding checks key, claim types and `exp` |
| `Security`, `LegacySecurity` | the two `Security` classes |
| `Repo` | a table as a sequence of rows with autoincrement keys, the meaning of `create`, `find_single`, `update` and `delete` as functions, and `class Table` whose methods change a table in place and are proved against those functions |
| `Records` | the rows of `users`, `refresh_tokens` and `password_reset_tokens`, the broker message, the query filters and the unique columns the migrations create |
| `UserSchemas` | `RegisterUserSchema`, its length bounds, defaults and phone validator |
| `Users` | `UserService`, as functions and as a class over a `Table` |
| `Authentication` | the gate, as functions of the request, the clock and the users table |
| `AuthModel` | every `AuthService` method as a function from the stores before the call (users, refresh records, reset records, the broker's outbox) to its result and the stores after it |
| `AuthProperties` | what those functions guarantee |
| `Service` | `class AuthService` over three `Table`s and a `Broker`; every method is proved to leave the stores exactly as its `AuthModel` function says |

Some inputs are parameters of the model:

- Time is an integer number of POSIX seconds. A day is 86400 seconds and a minute is 60.
- Each reading of `datetime.now` becomes a parameter. `login_user` reads the clock
  four times (`LoginClock`).
- The uuids, the raw reset token and the bcrypt salts are parameters too.
- A broken unique index (jti, lookup hash, e-mail or phone number) gives
  `IntegrityError`, and no row changes. PostgreSQL still uses up a sequence value
  on the failed INSERT, while the model's key counter stays put, so only the keys
  later rows receive can differ.

## Model

| member | source | states |
|---|---|---|
| Repo.MatchingMembers | src/infrastructure/repo/base_sqlalchemy_repo.py:42-45 | the rows a filter selects are exactly the table's rows it holds for |
| Repo.KeptMembers | src/infrastructure/repo/base_sqlalchemy_repo.py:47-49 | the rows a delete keeps are exactly the rows the filter does not hold for |
| Repo.MatchingKeptPartition | src/infrastructure/repo/base_sqlalchemy_repo.py:47-49 | every row is either deleted or kept |
| Repo.KeptWhenNoneMatch | src/infrastructure/repo/base_sqlalchemy_repo.py:47-49 | a delete that matches nothing changes nothing and is no error |
| Repo.FindNone | src/infrastructure/repo/base_sqlalchemy_repo.py:42-45 | find_single returns None exactly when no row matches |
| Repo.FindSome | src/infrastructure/repo/base_sqlalchemy_repo.py:42-45 | a row find_single returns is in the table and matches the filter |
| Repo.DeleteEverything | src/infrastructure/repo/base_sqlalchemy_repo.py:48 | delete with no filters empties the table |
| Repo.KeptUnique | src/infrastructure/repo/base_sqlalchemy_repo.py:47-49 | deleting rows keeps a unique column unique |
| Repo.DeletedWellFormed | src/infrastructure/repo/base_sqlalchemy_repo.py:47-49 | deleting rows keeps the keys unique and below the counter |
| Repo.InsertedUnique | src/infrastructure/repo/base_sqlalchemy_repo.py:16-21 | inserting a row with a fresh value keeps a unique column unique |
| Repo.InsertedWellFormed | src/infrastructure/repo/base_sqlalchemy_repo.py:16-21 | create keys the new row with the counter and keeps the keys unique and below the counter |
| Repo.UpdatedUnique | src/infrastructure/repo/base_sqlalchemy_repo.py:23-40 | an update that leaves a column alone keeps it unique |
| Repo.UpdatedWellFormed | src/infrastructure/repo/base_sqlalchemy_repo.py:23-40 | update changes no key |
| Repo.FindByUniqueKey | src/infrastructure/repo/base_sqlalchemy_repo.py:42-45 | a filter equal to a unique column never raises MultipleResultsFound and returns the one row holding that value |
| Repo.AtMostOneMatch | src/infrastructure/repo/base_sqlalchemy_repo.py:42-45 | a filter equal to a unique column selects at most one row |
| Repo.FindById | src/infrastructure/repo/base_sqlalchemy_repo.py:42-45 | find_single(id=k) returns the row keyed k, or None when there is none |
| Repo.DeleteById | src/infrastructure/repo/base_sqlalchemy_repo.py:47-49 | delete(id=k) removes that one row and keeps every other one |
| Repo.KeyGoneAfterDelete | src/infrastructure/repo/base_sqlalchemy_repo.py:47-49 | once a row is deleted by key, no row holding its unique value is left |
| Repo.UpdateById | src/infrastructure/repo/base_sqlalchemy_repo.py:23-40 | update(id=k) sets the columns of the row keyed k and returns it re-read, or None when there is none |
| Repo.Table.Create | src/infrastructure/repo/base_sqlalchemy_repo.py:16-21 | adds exactly one row, keyed by the counter, and returns it |
| Repo.Table.FindSingle | src/infrastructure/repo/base_sqlalchemy_repo.py:42-45 | the one matching row, None, or an error for several, without changing the table |
| Repo.Table.Delete | src/infrastructure/repo/base_sqlalchemy_repo.py:47-49 | removes every matching row, in place, keeping the order of the rest |
| Repo.Table.Update | src/infrastructure/repo/base_sqlalchemy_repo.py:23-40 | sets the columns of every matching row in place and returns the updated row |
| Text.Strip | src/schemas/user_schemas.py:40 | str.strip(): the result is the slice of the input between its leading and trailing whitespace, and neither of its ends is whitespace |
| Text.RemoveAll | src/schemas/user_schemas.py:40 | str.replace(c, ""): no c left, and the multiset of characters is the input's with c taken out |
| Text.RemoveAllConcat | src/schemas/user_schemas.py:40 | replacing in a + b is replacing in a, then in b, so the kept characters keep their order |
| Text.ParseInt | src/core/security/authentication.py:44 | int(s) fails only with ValueError |
| Text.ParseIntOfIntToString | src/core/security/authentication.py:44 | int(str(i)) == i, so a subject names the id it was made from |
| Crypto.HashPassword | src/core/security/security.py:18-22 | the password verifies against its own hash |
| Crypto.VerifyRejectsOtherPassword | src/core/security/security.py:25-29 | no other password verifies against a hash |
| Crypto.SaltedHashesDiffer | src/core/security/security.py:18-22 | two salts give two hashes of one password, both of which verify |
| Crypto.LookupHashInjective | src/services/auth_service.py:138-140 | equal lookup hashes come from equal tokens |
| Jwt.DecodeEncode | src/core/security/security.py:34-38 | a token decodes back to exactly its claims with the right key, until its exp |
| Jwt.DecodeOtherKey | src/core/security/security.py:34-38 | a token signed with another key is rejected |
| Jwt.DecodeExpired | src/core/security/security.py:34-38 | a token whose exp has passed is rejected |
| Jwt.DecodedClaimsAreValid | src/core/security/security.py:34-38 | decoded claims are well typed and unexpired |
| Security.CreateClaims | src/core/security/security.py:52-70 | type and iat set; exp is refresh_exp, else now + a non-zero timedelta, else now + expire_days; an access jti is fresh, a refresh jti is the caller's unless it is empty, any other type has none; every other claim is the payload's |
| Security.CreateToken | src/core/security/security.py:42-72 | the claims CreateClaims assembles, signed with the given key and the configured algorithm |
| Security.CreateAccessToken | src/core/security/security.py:74-80 | sub str(id), type access, a fresh jti, exp now + access_expire_day days |
| Security.CreateRefreshToken | src/core/security/security.py:82-89 | sub str(id), type refresh, the supplied jti, exp exactly refresh_exp |
| Security.DecodeToken | src/core/security/security.py:31-40 | succeeds exactly when the library does, with its claims; every failure is the one ValueError |
| Security.DecodeTokenFailuresAreUniform | src/core/security/security.py:31-40 | a bad signature, a malformed token and an expired token give the same error |
| Security.AccessTokenRoundTrip | src/core/security/security.py:74-80 | an access token decodes, until it expires, to its subject, type and jti |
| Security.RefreshTokenRoundTrip | src/core/security/security.py:82-89 | a refresh token decodes, until refresh_exp, to its jti, type, exp and the user's id |
| LegacySecurity.CreateClaims | src/core/security.py:45-53 | every token gets type, iat = now and a fresh jti; exp is now + a non-zero timedelta, else now + expire_days days |
| LegacySecurity.CreateTypedToken | src/core/security.py:57-71 | KeyError without "id"; otherwise sub str(id), the type, its lifetime in days |
| LegacySecurity.CreateAccessToken | src/core/security.py:57-63 | KeyError without "id"; otherwise signed with the configured key and algorithm, with exactly sub str(id), type access, exp now + access_expire_day days, iat now and the fresh jti |
| LegacySecurity.CreateRefreshToken | src/core/security.py:65-71 | KeyError without "id"; otherwise signed with the configured key and algorithm, with exactly sub str(id), type refresh, exp now + refresh_expire_day days, iat now and the fresh jti |
| LegacySecurity.RefreshJtiAlwaysFresh | src/core/security.py:65-71 | two refresh tokens issued with two uuids carry different jtis |
| LegacySecurity.AccessTokenOfUser12 | tests/unit/test_security.py:22-38 | the access token of {"id": 12} decodes to sub "12", type access, exp, iat and jti, with exp later than the check |
| UserSchemas.NormalisePhone | src/schemas/user_schemas.py:40 | the input with its outer whitespace stripped and then every space inside removed; no space is left |
| UserSchemas.ValidatePhoneNumber | src/schemas/user_schemas.py:35-44 | None passes unchanged; an accepted number is "+" and 5 to 15 digits; otherwise a ValueError on phone_number |
| UserSchemas.PhoneAccepted | src/schemas/user_schemas.py:40-43 | a string is accepted exactly when its stripped, space-free form has the phone shape, and that form is returned |
| UserSchemas.PhoneFormatHasNoSpace | src/schemas/user_schemas.py:42 | the phone shape contains no whitespace |
| UserSchemas.PhoneIdempotent | src/schemas/user_schemas.py:36-44 | the validator returns its own output unchanged |
| UserSchemas.ValidateRegistration | src/schemas/user_schemas.py:14-44 | failures are validation errors naming the first failing field in the order first_name, last_name, email, phone_number (length, then the phone validator), password; an accepted request carries the sent first name, last name, e-mail and password |
| UserSchemas.RegistrationBounds | src/schemas/user_schemas.py:14-44 | a request is accepted exactly when first_name and password are 3-50, email 7-50, last_name 3-50 and phone 7-15 when sent, and the phone validator accepts the phone |
| UserSchemas.RegistrationDefaults | src/schemas/user_schemas.py:18-31 | last_name and phone default to None, role to user; an explicit null role stays None |
| UserSchemas.RegisteredPhoneDigits | src/schemas/user_schemas.py:24-44 | a registered number is the validator's output, "+" and 5 to 14 digits |
| UserSchemas.FifteenDigitsRejected | src/schemas/user_schemas.py:24-44 | "+" and 15 digits passes the validator but not the 15-character bound |
| Users.AddUser | src/services/user_service.py:13-25 | a failed add leaves the table as it was; a successful one inserts one row keyed by the counter |
| Users.GetUser | src/services/user_service.py:33-36 | a user returned is in the table and matches the filters |
| Users.AddExistingEmail | src/services/user_service.py:14-15 | a known e-mail raises AlreadyExistsError and creates nothing |
| Users.AddNewUser | src/services/user_service.py:17-25 | one new row with the request's fields and role value, a hash the password verifies against and no other does, active, not verified |
| Users.AddNullRole | src/services/user_service.py:22 | an explicit null role fails on role.value and creates nothing |
| Users.AddTakenPhone | src/alembic/versions/2026_01_20_1545-365f0dbd6ac6_first_mg.py:50 | a phone number already stored is refused by the unique constraint |
| Users.AddKeepsValid | src/services/user_service.py:13-25 | unique keys, e-mails and phone numbers stay unique |
| Users.GetUserById | src/services/user_service.py:33-36 | get(id=k) returns the user keyed k; NotFoundError exactly when there is none |
| Users.UserService.Add | src/services/user_service.py:13-25 | returns and stores what AddUser says |
| Users.UserService.Get | src/services/user_service.py:33-36 | returns what GetUser says, changing nothing |
| Users.UserService.Update | src/services/user_service.py:27-28 | returns None |
| Users.UserService.Delete | src/services/user_service.py:30-31 | returns None |
| Users.UserService.GetAll | src/services/user_service.py:38-39 | returns None |
| Authentication.GetCurrentTokenPayload | src/core/security/authentication.py:14-26 | no header gives "Authentication header missing"; with a header the result is exactly what decode_token returns, so the only other failure is its ValueError |
| Authentication.ValidateToken | src/core/security/authentication.py:29-36 | True exactly when the type claim equals the expected type; a missing or other type fails with the invalid-type error, and False is never returned |
| Authentication.SubjectId | src/core/security/authentication.py:43-44 | no sub is a TypeError; a text sub is int(sub) |
| Authentication.GetUserBySub | src/core/security/authentication.py:39-46 | the user found is in the table; the "Invalid token" error after the lookup is never raised |
| Authentication.GetAuthUserFromToken | src/core/security/authentication.py:49-58 | no header gives "Authentication header missing"; a user comes out exactly when the token decodes, has the expected type and its subject finds a user, and that user is stored and keyed int(sub) |
| Authentication.GetCurrentAuthUser | src/core/security/authentication.py:61-63 | a user comes out only for an unexpired access token whose subject is that stored user's key |
| Authentication.GateAcceptsStoredSubject | src/core/security/authentication.py:49-58 | a token that decodes to the expected type and whose subject is a stored user's key authenticates that user |
| Authentication.CheckUserIsActive | src/core/security/authentication.py:66-71 | True exactly for an active user; an inactive one fails with Forbidden, and False is never returned |
| Authentication.MissingHeaderFirst | src/core/security/authentication.py:17-18 | without a header the gate fails before decoding |
| Authentication.WrongTypeNeverReachesUsers | src/core/security/authentication.py:49-58 | a wrong-type token fails the same way whatever the users table |
| Authentication.GetUserBySubId | src/core/security/authentication.py:39-46 | the user returned is the one keyed int(sub); NotFoundError exactly when there is none |
| Authentication.AccessTokenAuthenticates | src/core/security/authentication.py:63 | an access token authenticates its user until it expires |
| Authentication.RefreshTokenIsNotAccess | src/core/security/authentication.py:63 | a refresh token never passes the access gate |
| Authentication.ExpiredAccessTokenRejected | src/core/security/authentication.py:14-26 | an expired access token fails with the error of decode_token |
| AuthModel.AuthenticateUser | src/services/auth_service.py:31-47 | a user returned has that e-mail, verifies the password and is active |
| AuthModel.Committed | src/infrastructure/db/db_helper.py:34-41 | a request that raised leaves the stores as they were before it |
| AuthProperties.RefreshDeleteKeepsInv | src/infrastructure/repo/base_sqlalchemy_repo.py:47-49 | deleting refresh records keeps the store invariant |
| AuthProperties.ResetDeleteKeepsInv | src/infrastructure/repo/base_sqlalchemy_repo.py:47-49 | deleting reset records keeps the store invariant |
| AuthProperties.LoginKeepsInv | src/services/auth_service.py:49-72 | login keeps keys well formed and e-mails, jtis and lookup hashes unique |
| AuthProperties.GetTokenKeepsInv | src/services/auth_service.py:92-104 | get_token keeps the invariant |
| AuthProperties.UpdateRefreshKeepsInv | src/services/auth_service.py:83-90 | rotation keeps the invariant |
| AuthProperties.LogoutKeepsInv | src/services/auth_service.py:74-81 | logout keeps the invariant |
| AuthProperties.CreateResetKeepsInv | src/services/auth_service.py:106-133 | a reset request keeps the invariant |
| AuthProperties.UpdateUserPasswordKeepsInv | src/services/auth_service.py:169-176 | the password update keeps the invariant and never raises |
| AuthProperties.ResetPasswordKeepsInv | src/services/auth_service.py:135-156 | a reset confirmation keeps the invariant |
| AuthProperties.ChangePasswordKeepsInv | src/services/auth_service.py:158-167 | change_password keeps the invariant |
| AuthProperties.AuthenticateCases | src/services/auth_service.py:35-47 | an unknown e-mail and a wrong password give the same error; an inactive user with the right password is Forbidden; otherwise the user |
| AuthProperties.LoginEffect | src/services/auth_service.py:49-72 | exactly one new refresh record, for the user and jti; the refresh token carries that jti and sub str(id); the record never expires before the token exp; nothing else changes |
| AuthProperties.LoginDuplicateJti | src/alembic/versions/2026_01_28_1804-feb69ed5c8fe_added_the_refreshtoken_model.py:48-50 | a jti already stored is refused and nothing changes |
| AuthProperties.GetTokenMissing | src/services/auth_service.py:93-99 | no record of (user, jti): invalid token, nothing changes |
| AuthProperties.GetTokenFound | src/services/auth_service.py:92-104 | the record is returned while expires_at >= now (equal still valid); otherwise it is deleted by key and the call raises |
| AuthProperties.GetTokenExpiredDeletesOnlyIt | src/services/auth_service.py:101-103 | the lazy expiry removes that record only, and touches no other store |
| AuthProperties.RotationEffect | src/services/auth_service.py:83-90 | the old record is gone, exactly one new record for the new jti exists, and the new refresh token carries it |
| AuthProperties.RotationReplay | src/services/auth_service.py:83-90 | replaying the rotated jti fails with invalid token, whenever, and changes nothing |
| AuthProperties.LogoutRefused | src/services/auth_service.py:76-78 | a token that does not decode, or has no jti, ends no session |
| AuthProperties.LogoutEffect | src/services/auth_service.py:74-81 | only the record of (user, decoded jti) is deleted; the others remain |
| AuthProperties.LogoutKeepsOtherSession | src/services/auth_service.py:74-81 | after logging out one of two sessions the other still authenticates its refresh and the first does not |
| AuthProperties.CreateResetUnknownEmail | src/services/auth_service.py:107-108 | an unknown e-mail returns normally with no record and no message |
| AuthProperties.CreateResetKnownEmail | src/services/auth_service.py:106-133 | one record with sha256(raw), bcrypt(raw), now + reset_token_expire_minute; one {email, raw} message to "password-reset-request"; users and sessions untouched |
| AuthProperties.CreateResetDuplicateHash | src/alembic/versions/2026_02_05_1444-43caa20803f5_update_the_passwordresettoken_model.py:29-34 | a lookup hash already stored is refused and nothing changes |
| AuthProperties.ResetMissing | src/services/auth_service.py:138-143 | a token no record was made for fails, nothing changes |
| AuthProperties.ResetFound | src/services/auth_service.py:135-156 | expired: deleted, then invalid token; credential mismatch or missing owner: fails and keeps the record; otherwise the record is deleted and the owner's hash replaced |
| AuthProperties.ResetSingleUse | src/services/auth_service.py:155-156 | a second confirmation with the same token fails |
| AuthProperties.PasswordReplaced | src/services/auth_service.py:169-176 | afterwards the old password no longer signs in and the new one does; token stores untouched |
| AuthProperties.ChangePasswordCases | src/services/auth_service.py:158-167 | a wrong old password changes nothing; otherwise the hash is replaced and every refresh record of the user, and only theirs, is deleted |
| AuthProperties.LoginRotateReplay | src/services/auth_service.py:49-104 | sign in, rotate, replay: the rotated token works until it expires, the replay is refused |
| AuthProperties.ForgottenPasswordFlow | src/services/auth_service.py:106-176 | the mailed raw token resets the password once; the old password stops working; refresh sessions stay |
| AuthProperties.ExpiredSessionOutlivesRequest | src/infrastructure/db/db_helper.py:34-41 | the lazy delete of an expired refresh record is rolled back with the raised request |
| AuthProperties.ExpiredResetOutlivesRequest | src/infrastructure/db/db_helper.py:34-41 | the lazy delete of an expired reset record is rolled back with the raised request |
| Service.Broker.Publish | src/services/auth_service.py:127-133 | appends the message to the outbox |
| Service.AuthService.AuthenticateUser | src/services/auth_service.py:31-47 | returns what AuthModel.AuthenticateUser says, changing nothing |
| Service.AuthService.LoginUser | src/services/auth_service.py:49-72 | result and new stores as AuthModel.LoginUser; invariant kept |
| Service.AuthService.GetToken | src/services/auth_service.py:92-104 | result and new stores as AuthModel.GetToken; invariant kept |
| Service.AuthService.UpdateRefreshToken | src/services/auth_service.py:83-90 | result and new stores as AuthModel.UpdateRefreshToken; invariant kept |
| Service.AuthService.LogoutUser | src/services/auth_service.py:74-81 | result and new stores as AuthModel.LogoutUser; invariant kept |
| Service.AuthService.CreateResetToken | src/services/auth_service.py:106-133 | result, new stores and outbox as AuthModel.CreateResetToken; invariant kept |
| Service.AuthService.UpdateUserPassword | src/services/auth_service.py:169-176 | result and new users table as AuthModel.UpdateUserPassword; invariant kept |
| Service.AuthService.ResetPassword | src/services/auth_service.py:135-156 | result and new stores as AuthModel.ResetPassword; invariant kept |
| Service.AuthService.ChangePassword | src/services/auth_service.py:158-167 | result and new stores as AuthModel.ChangePassword; invariant kept |

## Behaviour worth knowing

In these places the model follows the code, where a reading of the intent might
expect otherwise:

- `get_user_by_token_sub` (src/core/security/authentication.py:44-46) never raises
  its "Invalid token" error. `UserService.get` raises NotFoundError first.
- `get_current_token_payload` catches `JWTError` (src/core/security/authentication.py:24-25),
  but `decode_token` has already turned every `JWTError` into ValueError. So the
  ValueError goes out unchanged.
- `reset_password` leaves the user's refresh sessions alone. Only `change_password`
  signs the user out everywhere.
- The model matches e-mails exactly. In the source the local part is matched
  exactly, but `EmailStr` lowercases the domain before the lookup (see "Left out").
- The phone regex admits "+" with 15 digits, but `max_length=15` applies to the
  raw string. So only 5 to 14 digits can be registered (`FifteenDigitsRejected`).
- A request with an explicit `"role": null` passes the schema and then fails at
  `role.value` (src/services/user_service.py:22).
- A phone number already registered fails at the unique constraint, not with
  AlreadyExistsError.
- The session of a request commits only when the request succeeds
  (src/infrastructure/db/db_helper.py:34-41). `get_token` and `reset_password`
  delete an expired record and then raise, so that delete is rolled back and the
  expired record stays stored (`ExpiredSessionOutlivesRequest`,
  `ExpiredResetOutlivesRequest`). Each later attempt finds it again, deletes it
  again and is refused again (`GetTokenFound`, `ResetFound`).
- `login_user` takes the token's `exp` from its first clock reading and the
  record's `expires_at` from its last. The record therefore never expires before
  the token, as long as the clock does not go back.

## Left out

- HTTP routing, FastAPI dependency wiring and status codes: errors are constructors of `Exceptions.Error`.
- src/api/auth.py imports `get_current_auth_user_for_refresh`, which authentication.py does not define. That route is not part of this model.
- `generate_reset_token` and `hash_token_sha256` are called but not defined in src/core/security/security.py. The raw token is a parameter and the hash an injective stand-in.
- `UpdateUserPassSchema`, imported (src/services/auth_service.py:1) and built (src/services/auth_service.py:171-173), is not defined in src/schemas/user_schemas.py, so the module as written fails to import. `AuthModel.UpdateUserPassword` assumes its `model_dump()` carries only `hashed_password`; `update` writes every dumped field (src/infrastructure/repo/base_sqlalchemy_repo.py:30).
- The internals of bcrypt, SHA-256, JWT signing and uuid/secrets randomness are abstract: salts, uuids and raw tokens are parameters.
- Crypto.VerifyRejectsOtherPassword: holds because the stand-in is injective. Real bcrypt reads only the first 72 bytes of a password, so two passwords with the same 72-byte prefix verify alike; recent bcrypt releases raise ValueError on longer input. The new passwords of reset_password and change_password have no length bound.
- E-mail sending, templates and RabbitMQ: publishing is an append to an outbox.
- Settings loading: the lifetimes and keys are a `JwtSettings` value.
- Security.CreateClaims: times are whole seconds. Stored `expires_at` values carry microseconds, so comparisons within one second are not modelled.
- UserSchemas.ValidateRegistration: reports only the first failing field, where pydantic reports all of them. `EmailStr` syntax is not checked.
- UserSchemas.ValidateRegistration: keeps the e-mail as sent, where `EmailStr` (in `RegisterUserSchema` and in `LoginSchema`, src/schemas/auth_schemas.py:8) stores email-validator's normalised address, with the domain lowercased and the text NFC-normalised. So the model treats "a@EXAMPLE.com" and "a@example.com" as two users, where the source treats them as one.
- Text.ParseInt: ASCII digits only. Python's `int()` also takes Unicode digits and underscores.
- UserSchemas.ValidatePhoneNumber: `\d` is the ASCII digits; Python's `re` also matches other Unicode decimal digits.
- Email verification (`is_verified` flows), base schemas, ORM models and foreign-key cascades: not part of the core.
- Concurrency between requests: each service call is sequential. The request-level rollback is modelled by `AuthModel.Committed`; how calls group into requests is not.
