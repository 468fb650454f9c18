# Token lifecycle of nestjs-backend_blueprint, in Dafny

This project models the token lifecycle of the NestJS backend blueprint:

- **Email-confirmation and password-reset records.** These are created, validated and redeemed. The validation gate has three outcomes: an expired record is refused, a record that already has two attempts is throttled for five minutes, and otherwise the attempt is counted.
- **The older email services.** Their 15-minute "sent recently" window stands in for the gate.
- **Token issuance.** The JWT service issues access, refresh and temporary tokens. The auth service registers users, logs them in and rotates refresh tokens against a ledger. The auth controller chains these flows with the mail and redirect steps.
- **Request-side helpers.** These are:
  - the bearer-token guard and the role guard;
  - the `@User()` projection;
  - the validation-error folding;
  - the exception filter's status decision;
  - the `iv:ciphertext` hex framing of the encryption service.

The core is modelled as follows:

- **Tables.** Every table is a `Repository<T>` object holding `rows: map<Id, T>`. The services are classes over those repositories, and their methods say what changes with `modifies` and `ensures`.
- **Time.** Time is integer milliseconds since the epoch. dayjs's minute difference truncates toward zero (`Common.MinutesBetween`). `unix()` and the JWT clock floor to seconds (`Common.UnixSeconds`).
- **Inputs that are not part of the model.** These become parameters:
  - the current instant;
  - freshly generated tokens, uuids and IVs;
  - storage failures, where the code catches or wraps them;
  - the outcome of a mail send.
- **JWT signing and the cipher.** Both are function values. Their correctness is a hypothesis: `Jwt.Sound` for the JWT library, `Encryption.Inverse` for the cipher.

Where the code departs from the documented behaviour, the model follows the code:

- The refresh token is signed with the access secret and the access lifetime. So with distinct secrets it never refreshes (`Jwt.RefreshTokenNeverVerifies`, `Auth.IssuedRefreshTokenIsRejected`).
- `sendEmailVerification` tests `user.forgottenPassword`. Its lookup never loads that relation, so it always creates a fresh confirmation record (`AuthController.AuthController.SendEmailVerification`).
- `verifyForgotPasswordToken` removes the record through the email-confirmation repository. The password-reset row stays (`Verification.ResetRedeemed`).
- The advertised unlock time is rounded down to the second and can be up to a second early (`Verification.UnlockSecondCanBeEarly`).
- The token expiry dates go through dayjs, which does not know the accepted aliases 'msec(s)', 'sec(s)', 'min(s)' and 'hr(s)' and adds one millisecond per unit for them. The `ms` library behind the JWT `exp` reads them as written (`Jwt.DayjsStep`, `Jwt.ShortUnitExpiresLedgerAtOnce`).
- `findOne` in the users service orders by id, descending: with several live users sharing an email, the one with the greatest id is found (`Users.UsersService.FindOne`).

## Model

| member | source | states |
|---|---|---|
| Common.MinutesBetween | src/auth/verification.service.ts:130-132 | whole minutes between two instants, truncated toward zero in both directions, with the bracketing bounds |
| Common.UnixSeconds | src/auth/verification.service.ts:137 | seconds since the epoch, rounded down: s·1000 ≤ t < (s+1)·1000 |
| Common.HttpStatus | src/common/exceptions/RateLimitException.ts:3-10 | only HttpExceptions have a status; a RateLimitException answers 400 although its body says 429 |
| ElapsedTime.IsElapsedTime | src/utils/isElapsedTime.ts:1-5 | true exactly when now − time is under 15 minutes (floor of the minute count below 15) |
| ElapsedTime.WindowBoundary | src/utils/isElapsedTime.ts:2-4 | a timestamp exactly 15 minutes old is outside the window; one 14 min 59.999 s old is inside |
| ElapsedTime.FutureIsInside | src/utils/isElapsedTime.ts:2-4 | a timestamp in the future is inside the window |
| ElapsedTime.WindowStaysClosed | src/utils/isElapsedTime.ts:2-4 | once outside the window for a timestamp, every later instant is outside too |
| Strings.Split | src/auth/EncryptionService.ts:26 | String.split on one character: at least one piece, no piece contains the separator |
| Strings.JoinSplit | src/auth/EncryptionService.ts:26-28 | joining the pieces of a split with the same separator gives back the string |
| Strings.SplitAtFirst | src/auth/EncryptionService.ts:26-28 | the first piece is the text before the first separator, the rest are the pieces of the remainder |
| Strings.SplitWithoutSep | src/common/guards/jwt-auth.guard.ts:13 | a string without the separator splits into itself alone |
| Strings.Upper | src/common/guards/roles.guard.ts:22 | toUpperCase keeps the length and upper-cases each ASCII letter |
| Strings.LexMaxExists | src/users/users.service.ts:22-27 | among finitely many ids there is a greatest in text order, so an `order: { id: 'desc' }` query has a first row |
| Users.ApplyPatch | src/users/users.service.ts:62 | Object.assign: every field absent from the edit keeps its value; id and deletion stamp never change |
| Users.ApplyPatchLaws | src/users/users.service.ts:60-62 | an empty edit changes nothing, an edit is idempotent, and given fields take the given values |
| Users.Confirmed | src/auth/verification.service.ts:81-83 | marking a user confirmed keeps the key set, sets confirmed on that user's rows and leaves every other row alone |
| Users.UsersService.FindOne | src/users/users.service.ts:22-27 | a live matching row whose id is the greatest among the live matches (LatestMatch), or none exactly when no live row matches |
| Users.UsersService.FindById | src/users/users.service.ts:30-32 | EntityNotFound exactly when no live user has the id; else that user |
| Users.UsersService.FindByEmail | src/users/users.service.ts:34-39 | the live user with that email, or null exactly when there is none |
| Users.UsersService.Create | src/users/users.service.ts:41-58 | 'User already exists' with the table unchanged, or exactly one new row with the email and password; keeps live emails unique and rows keyed by id |
| Users.UsersService.EditUser | src/users/users.service.ts:60-68 | a missing user throws from Object.assign; otherwise the row becomes ApplyPatch of the edit; a failed save is swallowed and yields undefined |
| Users.UsersService.RemoveUser | src/users/users.service.ts:70-72 | soft delete: no row disappears, the user's live rows get deletedAt, and afterwards no live user has the id |
| Users.UsersService.MarkConfirmed | src/auth/verification.service.ts:83 | the users table becomes Confirmed(old table, id) |
| Users.RemovedUserIsNotFound | src/users/users.service.ts:30-32 | after removeUser, findById fails with EntityNotFound while the row is still stored |
| Verification.Validate | src/auth/verification.service.ts:123-139 | expired iff now is after the expiration date; throttled iff not expired and at least two attempts with the last under 5 minutes ago; a record with no last attempt is never throttled; the unlock time is 1 to 5 minutes ahead when lastAttemptDate <= now |
| Verification.Advance | src/auth/verification.service.ts:141-142 | an accepted attempt adds exactly one attempt and stamps now; token, expiry, id and user are unchanged |
| Verification.VerdictOutcome | src/auth/verification.service.ts:126-138 | only an accepted verdict passes; a throttled one throws RateLimit carrying the unlock time |
| Verification.UnixSecondsShift | src/auth/verification.service.ts:137 | adding whole minutes to an instant adds 60 per minute to its Unix seconds |
| Verification.UnlockLiftsCooldown | src/auth/verification.service.ts:134-139 | from the second after the advertised unlock time on (and before expiry) the same record is accepted |
| Verification.UnlockSecondCanBeEarly | src/auth/verification.service.ts:137 | a concrete record that is still throttled at the advertised unlock second |
| Verification.TwoStrikes | src/auth/verification.service.ts:134-144 | a fresh reset record accepts the next attempt and is then throttled for exactly five minutes |
| Verification.ThreeMinutesAfterSecondAttempt | src/auth/verification.service.ts:130-138 | two attempts, the last three minutes ago: unlock time is now + 2 minutes in Unix seconds |
| Verification.CreateVerificationToken | src/auth/verification.service.ts:162-176 | one attempt made now, expiry now + 10 days, the existing record's id when there is one, and the gate accepts it at once |
| Verification.CreateForgottenPasswordToken | src/auth/verification.service.ts:147-160 | one attempt made now, expiry now + 1 day, no id, and the gate accepts it at once |
| Verification.SavedRecord | src/auth/verification.service.ts:43-57 | TypeORM save as upsert: the row lands under its id or a fresh one, an unset user keeps the stored one |
| Verification.SaveTokenRecord | src/auth/verification.service.ts:43-57 | a storage failure changes nothing; otherwise the table gains SavedRecord and stays keyed by id |
| Verification.LoadRelation | src/users/users.service.ts:34-39 | a requested relation is the row pointing at the user (or none when no row does); one not requested is never loaded |
| Verification.LoadRecordUser | src/auth/verification.service.ts:60-63 | the live user a record's user relation names, or none exactly when there is no such user |
| Verification.RedeemConfirmToken | src/auth/verification.service.ts:59-90 | a failed lookup is a DatabaseError with nothing changed; unknown token: 'Email token not found.' with nothing changed; otherwise ConfirmRedeemed: an expired record is removed and 'Email token is expired.' thrown (a failed removal is a DatabaseError and removes nothing), a record with a live user confirms it and is removed, else 'Associated user not found.' |
| Verification.VerificationService.DeleteEmailVerification | src/auth/verification.service.ts:35-37 | removes exactly the row with that id |
| Verification.VerificationService.DeleteForgottenPassword | src/auth/verification.service.ts:39-41 | removes exactly the rows holding that token |
| Verification.VerificationService.SaveEmailVerification | src/auth/verification.service.ts:43-49 | storage failure becomes DatabaseError with nothing stored; otherwise an upsert that keeps the table keyed |
| Verification.VerificationService.SaveForgottenPasswordToken | src/auth/verification.service.ts:51-57 | the same upsert on the reset table |
| Verification.VerificationService.FindUserByEmail | src/users/users.service.ts:34-39 | the live user with that email with the requested relations loaded as RelationLoaded says, or none exactly when there is no such user |
| Verification.VerificationService.VerifyConfirmToken | src/auth/verification.service.ts:59-90 | RedeemConfirmToken on the confirmation table, with its wrapped lookup and removal failures; the reset table is untouched |
| Verification.VerificationService.VerifyForgotPasswordToken | src/auth/verification.service.ts:91-120 | a failed lookup is a DatabaseError with nothing changed; unknown token is 'Token not found.'; otherwise ResetRedeemed: an expired record is removed and 'Token is expired.' thrown (a failed removal is a DatabaseError and removes nothing), a live user's record is removed by id from the confirmation table and the user returned, else 'Associated user not found.' |
| Verification.VerificationService.ValidateToken | src/auth/verification.service.ts:123-145 | the outcome is VerdictOutcome(Validate(entity, now)); the entity becomes Advance(entity) when accepted and is untouched otherwise |
| Verification.VerificationService.IssuePasswordReset | src/auth/verification.service.ts:186-193 | ResetIssued: no record: a fresh one-day record is saved under the fresh id after the mail; a refused gate throws 'Token has expired.' or the RateLimit with nothing saved; an accepted record is saved back advanced under its own id; a mail or storage failure saves nothing |
| Verification.VerificationService.InitiatePasswordResetProcess | src/auth/verification.service.ts:178-194 | an unknown email is BadRequest "User doesn't exist" with nothing stored; a known one runs ResetIssued for a live user with that email and its loaded reset record, and (the mail aside) is never answered "User doesn't exist" |
| Verification.VerificationService.ManageVerificationToken | src/auth/verification.service.ts:196-204 | always a fresh CreateVerificationToken with one attempt; the old record is deleted only when the gate accepts it |
| Verification.RepeatConfirmFails | src/auth/verification.service.ts:59-90 | with one record per token, a second confirmation with the same token fails with 'Email token not found.' after a first success |
| LegacyEmail.LegacyTokenStore.SaveEmailVerification | src/email/email-verification.service.ts:55-62 | inserts the new row under a fresh id, or throws the storage error with nothing stored |
| LegacyEmail.LegacyTokenStore.CreateEmailToken | src/email/email-verification.service.ts:64-85 | 'Email sent recently' only when a row for the email is inside its window, with nothing stored; otherwise true, with one new row {email, token, now} unless the swallowed save failed; the identical code at src/email/mail.service.ts:63-84 is this member too |
| LegacyEmail.LegacyTokenStore.SaveForgottenPasswordToken | src/email/email-verification.service.ts:113-117 | an upsert under the given or a fresh id that keeps the stored user |
| LegacyEmail.LegacyTokenStore.CreateForgottenPasswordToken | src/email/email-verification.service.ts:119-140 | no record: a new {token, now}; a record inside its window: Error 'Email sent recently' with nothing stored; otherwise the new token and timestamp under the same id, keeping the user that row pointed at; the identical code at src/email/mail.service.ts:111-132 is this member too |
| LegacyEmail.SecondRequestIsRefused | src/email/email-verification.service.ts:64-70 | a second createEmailToken for the same email within 15 minutes of a saved one is refused |
| LegacyEmail.EmailVerificationService.VerifyEmail | src/email/email-verification.service.ts:87-111 | the same redemption as verifyConfirmToken (ConfirmRedeemed), reporting pass or the error |
| LegacyEmail.MailService.VerifyEmail | src/email/mail.service.ts:86-103 | no row with the email token and a non-empty email: 'Email token not valid' with nothing changed; a live user with that email: the one with the greatest id is confirmed, saved under its id, the row removed and the user returned; no such user: undefined with the row kept |
| Jwt.UnitMillis | src/auth/jwt.service.ts:70-71 | each unit's length in milliseconds, at least 1 |
| Jwt.ParseUnit | src/config/validation.ts:3-11 | each accepted alias names its unit as the `ms` library reads it, both directions; the year aliases and anything else name none |
| Jwt.PrettyUnitNames | src/auth/jwt.service.ts:70-71 | dayjs resolves the one-letter, the singular and the plural names to their unit, and 'msec(s)', 'sec(s)', 'min(s)', 'hr(s)' to names it does not know |
| Jwt.DayjsStep | src/auth/jwt.service.ts:70-71 | dayjs's add moves by the unit's length for the names it knows and by 1 ms per unit for 'msec(s)', 'sec(s)', 'min(s)' and 'hr(s)' |
| Jwt.Lifetime | src/auth/jwt.service.ts:70-71 | value·unit milliseconds, at least the value for a non-negative value |
| Jwt.SignThenVerify | src/auth/jwt.service.ts:76-83 | a signed token verifies, with its own claims, exactly under its own secret and before its expiry second |
| Jwt.JWTService.constructor | src/auth/jwt.service.ts:26-40 | secrets, values and units come from the configuration |
| Jwt.JWTService.GenerateTemporaryAuthToken | src/auth/jwt.service.ts:43-45 | the token decodes to the claims {userId} alone, the access secret and an expiry 300 seconds after the issue second |
| Jwt.JWTService.GenerateToken | src/auth/jwt.service.ts:47-73 | each expiry date is now + the `ms` lifetime of its setting, except for a unit dayjs does not know, where it is now + the value in milliseconds |
| Jwt.JWTService.VerifyToken | src/auth/jwt.service.ts:76-83 | succeeds iff the token verifies under the access or the refresh secret as asked; every failure is 'Token is invalid or expired' |
| Jwt.JWTService.RefreshToken | src/auth/jwt.service.ts:84-92 | a token failing refresh verification is rejected; a verified payload missing email, roles or userId is 'Invalid token payload'; otherwise a new pair for it |
| Jwt.PairTokensEqual | src/auth/jwt.service.ts:50-64 | the access and the refresh token of a pair are the same token |
| Jwt.AccessTokenVerifies | src/auth/jwt.service.ts:50-56 | an access token verifies as one with exactly its payload until its expiry |
| Jwt.RefreshTokenNeverVerifies | src/auth/jwt.service.ts:58-64 | with distinct secrets a pair's refresh token never passes refresh verification, nor refreshToken |
| Jwt.DefaultConfigLifetimes | src/config/auth.config.ts:3-12 | the defaults have distinct secrets, a 15-minute access and a 7-day refresh lifetime, in units dayjs knows |
| Jwt.ShortUnitExpiresLedgerAtOnce | src/auth/jwt.service.ts:36-71 | with refresh unit 'hrs' and value 7 the refresh lifetime reads as 7 hours but the refresh expiry date is now + 7 ms |
| Jwt.TemporaryTokenClaims | src/auth/jwt.service.ts:43-45 | a temporary token carries only userId, verifies for 5 minutes, and never as a refresh token |
| Auth.UserClaims | src/auth/auth.service.ts:81-85 | the signed payload has roles, and a userId present exactly when the user id is non-empty |
| Auth.WithoutToken | src/auth/auth.service.ts:54-56 | no row holds the token afterwards and every other row is kept |
| Auth.AuthService.SaveUserToken | src/auth/auth.service.ts:43-52 | one new row {token, user, expiresIn}, or DatabaseError with nothing stored |
| Auth.AuthService.DeleteToken | src/auth/auth.service.ts:54-56 | the ledger becomes WithoutToken of the token |
| Auth.AuthService.ValidateUserByPassword | src/auth/auth.service.ts:58-72 | "User doesn't exist" iff no live user has the email; Unauthorized on a wrong password; with unique emails success iff that user's password was given |
| Auth.AuthService.Register | src/auth/auth.service.ts:79-92 | an existing email changes nothing; else exactly one new user, and exactly one ledger row with the pair's refresh token and refresh expiry, or DatabaseError |
| Auth.AuthService.Login | src/auth/auth.service.ts:94-110 | the validated user with a freshly generated pair; the ledger is not touched |
| Auth.AuthService.RefreshAccessToken | src/auth/auth.service.ts:112-129 | refresh verification comes first; no row, or now after every matching expiry (equal is valid), is rejected with the ledger unchanged; success deletes the token's rows and returns a new access token |
| Auth.SecondRefreshFails | src/auth/auth.service.ts:124-128 | after a successful refresh the same token fails |
| Auth.IssuedRefreshTokenIsRejected | src/auth/auth.service.ts:112-114 | with distinct secrets the refresh token handed out by register or login is rejected, ledger unchanged |
| AuthController.AuthController.Register | src/auth/auth.controller.ts:49-56 | an existing email: BadRequest with users, ledger and confirmation table unchanged; a new email: the user is inserted whatever happens later; a ledger fault: DatabaseError with the ledger unchanged; otherwise the refresh row of the issued pair is stored and the result is the mail error, the wrapped storage fault, or the new user with that pair; the confirmation record is saved only on success and after the mail |
| AuthController.AuthController.LoginWithTempToken | src/auth/auth.controller.ts:72-99 | every failure is 'Invalid or expired temporary token.'; success iff the token verifies with a userId naming a live user, and returns that user with a new pair |
| AuthController.AuthController.SendEmailForgotPassword | src/auth/auth.controller.ts:111-126 | unknown email is NotFound; a known one runs ResetIssued for a live user with that email and its loaded reset record: create or gate, mail, then save, each outcome with its final table; (the mail aside) a known email is never answered NotFound |
| AuthController.AuthController.ResetPassword | src/auth/auth.controller.ts:136-149 | a failed lookup or an unknown token fails with both tables unchanged; otherwise ResetRedeemed on the record found; after a redemption every reset row with the token is deleted and the redirect is frontendHost/login?changePass=true&token=<temporary token for the record's user>, or the mail failure |
| AuthController.AuthController.ResendVerification | src/auth/auth.controller.ts:172-181 | without a loaded reset record a fresh confirmation record is saved; with one it goes through the gate and deletes the confirmation record, then the mail or the save may fail with that deletion kept; 'ok' on success |
| AuthController.AuthController.SendEmailVerification | src/auth/auth.controller.ts:165-182 | unknown email is NotFound; otherwise always the create branch, never a rate limit, and 'ok' when mail and storage succeed |
| AuthController.AuthController.ConfirmRegistration | src/auth/auth.controller.ts:196-210 | redirects to frontendHost on success and to frontendHost/resend-conformation on any error, a wrapped storage failure included; a find failure or an unknown token leaves both tables unchanged; otherwise the redemption is VerifyConfirmToken's |
| Encryption.HexEncode | src/auth/EncryptionService.ts:22 | two hex digits per byte, every character a hex digit (so no ':') |
| Encryption.HexDecode | src/auth/EncryptionService.ts:27 | Node's hex decoding: at most half as many bytes as characters |
| Encryption.HexDecodeEncode | src/auth/EncryptionService.ts:22-27 | hex decoding undoes hex encoding |
| Encryption.HexEncodeAppend | src/auth/EncryptionService.ts:20-21 | encoding a concatenation is the concatenation of the encodings (update then final) |
| Encryption.Frame | src/auth/EncryptionService.ts:22 | the framed text is 2·|iv| digits, ':', then the ciphertext digits |
| Encryption.ParseFrameOfFrame | src/auth/EncryptionService.ts:22-28 | decrypt's parse of encrypt's frame gives back exactly the IV and the ciphertext |
| Encryption.ParseWithoutColon | src/auth/EncryptionService.ts:26-28 | a text without ':' is all IV and an empty ciphertext |
| Encryption.EncryptionService.constructor | src/auth/EncryptionService.ts:10-15 | the key is the hex decoding of the configured key |
| Encryption.EncryptionService.Encrypt | src/auth/EncryptionService.ts:17-23 | a key that is not 32 bytes throws; otherwise the frame of the IV and the whole ciphertext, whose first part is the 32-digit IV |
| Encryption.EncryptionService.Decrypt | src/auth/EncryptionService.ts:25-33 | an IV not decoding to 16 bytes, a key not 32 bytes and a bad padding each throw; otherwise the two deciphered pieces joined |
| Encryption.EncryptThenDecrypt | src/auth/EncryptionService.ts:17-33 | decrypt(encrypt(t)) == t for a 32-byte key and a cipher that inverts itself |
| Guards.ExtractToken | src/common/guards/jwt-auth.guard.ts:13 | a token is non-empty and has no space; a header without a space gives none |
| Guards.ExtractAnyScheme | src/common/guards/jwt-auth.guard.ts:13 | `scheme token` gives the token whatever the scheme word, and text after a further space is ignored |
| Guards.EmptyCredentialsIsMissing | src/common/guards/jwt-auth.guard.ts:13-17 | a scheme followed by nothing gives no token |
| Guards.JwtAuthGuard.CanActivate | src/common/guards/jwt-auth.guard.ts:9-25 | no token: 'Token is missing.'; a token failing access verification: 'Token is invalid or expired.'; success iff both hold, setting request.user to the payload |
| Guards.RoleOfValue | src/users/users.entity.ts:8-13 | the role stored as a value, exactly for the four enum values |
| Guards.EnumKeyOf | src/common/guards/roles.guard.ts:22 | a key exactly for the four role values, and then the key of the role stored as that value |
| Guards.HasRole | src/common/guards/roles.guard.ts:20-24 | true iff some required role, upper-cased, equals the key |
| Guards.RolesCanActivate | src/common/guards/roles.guard.ts:12-30 | no metadata passes; otherwise passes iff there is a user with a non-empty role claim whose enum key is some required role upper-cased; else Forbidden |
| Guards.RequiredRoleCaseIgnored | src/common/guards/roles.guard.ts:22 | a required role written in any ASCII case matches |
| Guards.NoRolesForbidsAll | src/common/guards/roles.guard.ts:15-29 | an empty roles list forbids everyone |
| Guards.UserRoleCaseMatters | src/common/guards/roles.guard.ts:22 | a role claim spelled as the enum key matches nothing |
| Guards.AdminOnly | src/common/guards/roles.guard.ts:20-28 | an admin-only route admits exactly role claim 'admin' |
| UserDecorator.Get | src/common/decorators/user.decorator.ts:10 | a property read is undefined exactly when the property is missing |
| UserDecorator.Project | src/common/decorators/user.decorator.ts:3-18 | unset or empty argument: request.user; a list: exactly those keys, each copied from request.user; a name: that field; reading from an absent user throws |
| CustomValidations.FoldStep | src/common/custom-validations.ts:7-10 | writing one more error into the accumulator keeps it the fold: keys are the properties seen, each bound to the last error's messages |
| CustomValidations.FormatErrors | src/common/custom-validations.ts:6-18 | a 400 'Validation Error' whose keys are exactly the properties named, each bound to the last error's messages about it; an error without constraints throws |
| ExceptionFilter.Catch | src/common/ExceptionFilter.ts:19-63 | 500 'Internal Server Error' by default; a CustomServerException keeps 500 with its message; the status passes on iff getStatus is not 500 or it is an HttpException and no earlier branch matched; stage mode takes the message and trace |
| ExceptionFilter.Classify | src/common/ExceptionFilter.ts:30-47 | the modelled exceptions reach the filter as HttpExceptions exactly when they have a status |
| ExceptionFilter.RespondTo | src/common/ExceptionFilter.ts:19-63 | outside stage mode an HttpException answers with its own status and message, a rate limit with 400, everything else with 500 'Internal Server Error' |

## Left out

- Password hashing: bcrypt's hooks on insert and update, and the comparison at login, are not part of this model. A stored password equals the one given, and the check is equality.
- Mail delivery, logging, Sentry, and the HTTP write of the filter's response are not part of this model. A mail send is a parameter that either succeeds or throws.
- Randomness: the uuids of new rows, `encryptionService.generateToken`, `jwtService.createToken` (called by the legacy services but not defined in jwt.service.ts) and `randomBytes`. Each is a parameter, and each fresh id is required to be unused.
- Database failures the code does not catch are not modelled. Storage faults appear only where the code wraps or swallows them. The removal of a redeemed record (src/auth/verification.service.ts:85 and 115) is not wrapped, and its failure is not modelled.
- Concurrency is not modelled: each flow runs alone, with no interleaving between a read and a write.
- The JWT library and AES-256-CBC are uninterpreted functions. So are UTF-8 coding and the exact OpenSSL error text ('bad decrypt' is abbreviated).
- Lifetimes in years (accepted by the configuration) are not modelled: dayjs adds calendar years, which have no fixed length. The type `Jwt.UnitAlias` excludes the year aliases.
- The JWT `exp` claim is kept in whole seconds. dayjs adds days and weeks on the calendar; the model takes them as fixed lengths, so daylight-saving shifts are not modelled.
- `Strings.Upper`: only ASCII letters are upper-cased.
- `Guards.EnumKeyOf`: src/utils/enum-format.ts is not part of this model. `getEnumKeyByEnumValue` is taken to be the reverse lookup from a `RolesEnum` value to its key, with no key for any other string.
- Relation loading: the `emailVerification` relation that the lookups request is modelled as the confirmation row pointing at the user. users.entity.ts declares only `forgottenPassword`.
- `AuthController.AuthController.LoginWithTempToken`: the source calls `authService.verifyTempToken`, which auth.service.ts does not define. It is modelled as access-token verification that reads the userId claim. A missing userId fails instead of reaching `findOne({id: undefined})`.
- `authService.generateUserTokens` and `authService.generateTemporaryToken` are not defined in auth.service.ts. They are modelled as the JWT service's `generateToken` and `generateTemporaryAuthToken`.
- `AuthController.AuthController.ResetPassword`: `authService.resetPassword` is not defined in auth.service.ts either, so as written the call at src/auth/auth.controller.ts:140 throws a TypeError once the token is redeemed. The model drops that step and the new password it would produce (also the second argument of the mail at line 145) and continues with the rest of the flow.
- The `UserClassResponseDto` projection of the register response is not part of this model. The user record is returned.
- `usersService.updateUserFiled` is not defined in users.service.ts. It is modelled as `Users.UsersService.MarkConfirmed`.
- `LegacyEmail.EmailVerificationService.VerifyEmail`: the legacy service queries columns its own entity does not declare. The model reads that table through the newer record shape, as a separate repository.
- `ExceptionFilter.Catch`: `CustomServerException` is not part of the files modelled. Its class is an input, as is every class test.
- `UserDecorator.Project`: the `console.log` of the result is not modelled.
- `Auth.AuthService.ValidateUserByPassword`: the "success iff" direction is stated only under unique live emails. With duplicates, which user `findByEmail` (which sets no order) returns is not fixed.
- `AuthController.AuthController.ResetPassword`: the "success iff" direction is stated only when one reset row holds the token. Otherwise which row is found is not fixed.
