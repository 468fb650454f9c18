/** src/auth/auth.controller.ts: the request flows that drive the token
    lifecycle. Mail delivery is a parameter: `mailFault` is the error the
    mail call throws, if it throws. */
module AuthController {
  import opened Common
  import opened Entities
  import opened Users
  import opened Verification
  import opened Jwt
  import opened Auth

  /** The message every failure of a temporary-token login becomes. */
  const INVALID_TEMPORARY_TOKEN: string := "Invalid or expired temporary token."

  /** The error reading `.id` of an undefined relation raises. */
  const UNDEFINED_ID: Exception := TypeError("Cannot read properties of undefined (reading 'id')")

  class AuthController {
    const authService: AuthService
    const userService: UsersService
    const verificationService: VerificationService
    /** The project's frontendHost setting. */
    const frontendHost: string

    /** The services share one users table, and the verification tables are
        sound. */
    ghost predicate Valid()
      reads verificationService.emailVerificationRepository, verificationService.forgottenPasswordRepository
    {
      authService.userService == userService &&
      verificationService.usersService == userService &&
      verificationService.Valid()
    }

    constructor (auth: AuthService, users: UsersService, verification: VerificationService, host: string)
      ensures authService == auth && userService == users && verificationService == verification
      ensures frontendHost == host
    {
      authService := auth;
      userService := users;
      verificationService := verification;
      frontendHost := host;
    }

    /** register: the user and its refresh token are created first; then an
        email-confirmation record for the new user is built, the mail is
        sent, and the record is saved under a fresh id. */
    method Register(email: string, password: string, now: Millis, userId: Id, refreshId: Id,
                    verificationToken: string, verificationId: Id,
                    ledgerFault: Option<string>, mailFault: Option<Exception>, storageFault: Option<string>)
      returns (r: Result<UserWithToken>)
      requires Valid()
      requires userId !in userService.userRepository.rows
      requires refreshId !in authService.refreshTokensRepository.rows
      requires verificationId !in verificationService.emailVerificationRepository.rows
      modifies userService.userRepository, authService.refreshTokensRepository, verificationService.emailVerificationRepository
      ensures Valid()
      ensures HasLive(old(userService.userRepository.rows), ByEmail(email)) ==>
                r == Err(BadRequest("User already exists")) &&
                userService.userRepository.rows == old(userService.userRepository.rows) &&
                verificationService.emailVerificationRepository.rows == old(verificationService.emailVerificationRepository.rows) &&
                authService.refreshTokensRepository.rows == old(authService.refreshTokensRepository.rows)
      ensures !HasLive(old(userService.userRepository.rows), ByEmail(email)) ==>
                userService.userRepository.rows == old(userService.userRepository.rows)[userId := NewUser(userId, email, password)]
      ensures !HasLive(old(userService.userRepository.rows), ByEmail(email)) && ledgerFault.Some? ==>
                r == Err(DatabaseError(ledgerFault.value)) &&
                authService.refreshTokensRepository.rows == old(authService.refreshTokensRepository.rows)
      ensures !HasLive(old(userService.userRepository.rows), ByEmail(email)) && ledgerFault.None? ==>
                var pair := authService.jwtService.GenerateToken(UserClaims(NewUser(userId, email, password)), now);
                authService.refreshTokensRepository.rows == old(authService.refreshTokensRepository.rows)[refreshId :=
                  RefreshTokenRecord(refreshId, pair.refreshToken, pair.expireDateRefreshToken, userId)] &&
                (mailFault.Some? ==> r == Err(mailFault.value)) &&
                (mailFault.None? && storageFault.Some? ==> r == Err(DatabaseError(storageFault.value))) &&
                (mailFault.None? && storageFault.None? ==> r == Ok(UserWithToken(NewUser(userId, email, password), pair)))
      ensures mailFault.Some? || r.Err? ==>
                verificationService.emailVerificationRepository.rows == old(verificationService.emailVerificationRepository.rows)
      ensures r.Ok? ==>
                r.value.user == NewUser(userId, email, password) &&
                userService.userRepository.rows == old(userService.userRepository.rows)[userId := r.value.user] &&
                verificationService.emailVerificationRepository.rows ==
                  old(verificationService.emailVerificationRepository.rows)[verificationId :=
                    CreateVerificationToken(r.value.user, None, verificationToken, now).(id := Some(verificationId))]
    {
      var userData := authService.Register(email, password, now, userId, refreshId, ledgerFault);
      if userData.Err? {
        return Err(userData.error);
      }
      var verificationEntity := CreateVerificationToken(userData.value.user, None, verificationToken, now);
      if mailFault.Some? {
        return Err(mailFault.value);
      }
      var saved := verificationService.SaveEmailVerification(verificationEntity, verificationId, storageFault);
      if saved.Err? {
        return Err(saved.error);
      }
      r := Ok(userData.value);
    }

    /** loginWithTempToken: the temporary token must verify under the access
        secret and name a live user; that user gets a new pair. Every
        failure is reported as the same Unauthorized. */
    method LoginWithTempToken(tempToken: string, now: Millis) returns (r: Result<(UserRecord, string, string)>)
      ensures r.Err? ==> r.error == Unauthorized(INVALID_TEMPORARY_TOKEN)
      ensures r.Ok? <==>
                var v := authService.jwtService.VerifyToken(tempToken, true, now);
                v.Ok? && v.value.userId.Some? && HasLive(userService.userRepository.rows, ById(v.value.userId.value))
      ensures r.Ok? ==>
                var pair := authService.jwtService.GenerateToken(UserClaims(r.value.0), now);
                r.value.0 in userService.userRepository.rows.Values && Live(r.value.0) &&
                Some(r.value.0.id) == authService.jwtService.VerifyToken(tempToken, true, now).value.userId &&
                r.value.1 == pair.accessToken && r.value.2 == pair.refreshToken
    {
      var verified := authService.jwtService.VerifyToken(tempToken, true, now);
      if verified.Err? || verified.value.userId.None? {
        return Err(Unauthorized(INVALID_TEMPORARY_TOKEN));
      }
      var userId := verified.value.userId.value;
      var user := userService.FindOne(ById(userId));
      if user.None? {
        return Err(Unauthorized(INVALID_TEMPORARY_TOKEN));
      }
      var pair := authService.jwtService.GenerateToken(UserClaims(user.value), now);
      r := Ok((user.value, pair.accessToken, pair.refreshToken));
    }

    /** sendEmailForgotPassword: an unknown email is a NotFound; otherwise
        the password-reset request runs for the user found (ResetIssued:
        create or gate, mail, then save). */
    method SendEmailForgotPassword(email: string, token: string, now: Millis, freshId: Id,
                                   mailFault: Option<Exception>, storageFault: Option<string>)
      returns (o: Outcome)
      requires Valid()
      requires freshId !in verificationService.forgottenPasswordRepository.rows
      modifies verificationService.forgottenPasswordRepository
      ensures Valid()
      ensures !HasLive(userService.userRepository.rows, ByEmail(email)) ==>
                o == Fail(NotFound("User doesn't exist"))
      ensures HasLive(userService.userRepository.rows, ByEmail(email)) ==>
                exists lu: LoadedUser ::
                  lu.user in userService.userRepository.rows.Values && Live(lu.user) && lu.user.email == email &&
                  RelationLoaded(true, old(verificationService.forgottenPasswordRepository.rows), lu.user.id, lu.forgottenPassword) &&
                  verificationService.ResetIssued(old(verificationService.forgottenPasswordRepository.rows), lu, token, now, freshId,
                                                  mailFault, storageFault, o, verificationService.forgottenPasswordRepository.rows)
      ensures HasLive(userService.userRepository.rows, ByEmail(email)) && mailFault != Some(NotFound("User doesn't exist")) ==>
                o != Fail(NotFound("User doesn't exist"))
      ensures o.Fail? || mailFault.Some? ==>
                verificationService.forgottenPasswordRepository.rows == old(verificationService.forgottenPasswordRepository.rows)
      ensures o == Pass ==>
                exists u, k :: u in userService.userRepository.rows.Values && Live(u) && u.email == email &&
                  RelatedRow(verificationService.forgottenPasswordRepository.rows, u.id, k) &&
                  verificationService.forgottenPasswordRepository.rows[k].lastAttemptDate == Some(now)
    {
      var user := verificationService.FindUserByEmail(email, Relations(false, true));
      if user.None? {
        return Fail(NotFound("User doesn't exist"));
      }
      o := verificationService.IssuePasswordReset(user.value, token, now, freshId, mailFault, storageFault);
    }

    /** resetPassword: redeems the password-reset token, issues a temporary
        login token for the record's user, deletes the reset records with
        that token, sends the mail and redirects to the frontend's login
        page. `redeemed` is what verifyForgotPasswordToken returned;
        `findFault` and `removeFault` are its wrapped storage failures. */
    method ResetPassword(token: string, now: Millis, findFault: Option<string>, removeFault: Option<string>,
                         mailFault: Option<Exception>)
      returns (r: Result<string>, redeemed: Result<UserRecord>)
      requires Valid()
      modifies verificationService.emailVerificationRepository, verificationService.forgottenPasswordRepository
      ensures Valid()
      ensures findFault.Some? ==>
                r == Err(DatabaseError(findFault.value)) &&
                verificationService.forgottenPasswordRepository.rows == old(verificationService.forgottenPasswordRepository.rows) &&
                verificationService.emailVerificationRepository.rows == old(verificationService.emailVerificationRepository.rows)
      ensures findFault.None? && !HasToken(old(verificationService.forgottenPasswordRepository.rows), token) ==>
                r == Err(BadRequest("Token not found.")) &&
                verificationService.forgottenPasswordRepository.rows == old(verificationService.forgottenPasswordRepository.rows) &&
                verificationService.emailVerificationRepository.rows == old(verificationService.emailVerificationRepository.rows)
      // the redemption, then on success the deletion of every reset row
      // holding the token and the redirect with the record user's token
      ensures findFault.None? && HasToken(old(verificationService.forgottenPasswordRepository.rows), token) ==>
                exists k :: k in old(verificationService.forgottenPasswordRepository.rows) &&
                  old(verificationService.forgottenPasswordRepository.rows)[k].token == token &&
                  ResetRedeemed(old(verificationService.forgottenPasswordRepository.rows),
                                old(verificationService.emailVerificationRepository.rows),
                                userService.userRepository.rows, k, now, removeFault, redeemed,
                                if redeemed.Ok? then old(verificationService.forgottenPasswordRepository.rows)
                                else verificationService.forgottenPasswordRepository.rows,
                                verificationService.emailVerificationRepository.rows) &&
                  (r.Ok? ==>
                     old(verificationService.forgottenPasswordRepository.rows)[k].user.Some? &&
                     r.value == frontendHost + "/login?changePass=true&token=" +
                       authService.jwtService.GenerateTemporaryAuthToken(old(verificationService.forgottenPasswordRepository.rows)[k].user.value, now))
      ensures redeemed.Err? ==> r == Err(redeemed.error)
      ensures redeemed.Ok? ==>
                verificationService.forgottenPasswordRepository.rows ==
                  (map k | k in old(verificationService.forgottenPasswordRepository.rows) &&
                           old(verificationService.forgottenPasswordRepository.rows)[k].token != token ::
                     old(verificationService.forgottenPasswordRepository.rows)[k]) &&
                r == if mailFault.Some? then Err(mailFault.value)
                     else Ok(frontendHost + "/login?changePass=true&token=" +
                             authService.jwtService.GenerateTemporaryAuthToken(redeemed.value.id, now))
      ensures r.Ok? ==> !HasToken(verificationService.forgottenPasswordRepository.rows, token)
      ensures findFault.None? && mailFault.None? && UniqueToken(old(verificationService.forgottenPasswordRepository.rows), token) ==>
                (r.Ok? <==>
                   exists k :: k in old(verificationService.forgottenPasswordRepository.rows) &&
                     old(verificationService.forgottenPasswordRepository.rows)[k].token == token &&
                     now <= old(verificationService.forgottenPasswordRepository.rows)[k].expirationDate &&
                     old(verificationService.forgottenPasswordRepository.rows)[k].user.Some? &&
                     HasLive(userService.userRepository.rows, ById(old(verificationService.forgottenPasswordRepository.rows)[k].user.value)))
    {
      var userEntity := verificationService.VerifyForgotPasswordToken(token, now, findFault, removeFault);
      redeemed := userEntity;
      if userEntity.Err? {
        return Err(userEntity.error), redeemed;
      }
      var host := frontendHost;
      var temporaryToken := authService.jwtService.GenerateTemporaryAuthToken(userEntity.value.id, now);
      verificationService.DeleteForgottenPassword(token);
      if mailFault.Some? {
        return Err(mailFault.value), redeemed;
      }
      r := Ok(host + "/login?changePass=true&token=" + temporaryToken);
    }

    /** The body of sendEmailVerification once the user is loaded: with no
        forgottenPassword relation a confirmation record is built over the
        existing one's id; with one, that password-reset record goes through
        the gate, the confirmation record is deleted by id (a TypeError when
        there is none), and the reset record is what gets saved into the
        confirmation table. The mail is sent before the save. */
    method ResendVerification(user: LoadedUser, token: string, now: Millis, freshId: Id,
                              mailFault: Option<Exception>, storageFault: Option<string>)
      returns (r: Result<string>)
      requires Valid()
      requires freshId !in verificationService.emailVerificationRepository.rows
      requires user.emailVerification.Some? ==> user.emailVerification.value.id.Some?
      requires user.emailVerification.Some? ==> user.emailVerification.value.id.value != freshId
      modifies verificationService.emailVerificationRepository
      ensures Valid()
      ensures r.Ok? ==> r.value == "ok"
      ensures user.forgottenPassword.None? ==>
                var e := CreateVerificationToken(user.user, user.emailVerification, token, now);
                var saved := SavedRecord(old(verificationService.emailVerificationRepository.rows), e, freshId);
                (mailFault.Some? ==>
                   r == Err(mailFault.value) &&
                   verificationService.emailVerificationRepository.rows == old(verificationService.emailVerificationRepository.rows)) &&
                (mailFault.None? && storageFault.Some? ==>
                   r == Err(DatabaseError(storageFault.value)) &&
                   verificationService.emailVerificationRepository.rows == old(verificationService.emailVerificationRepository.rows)) &&
                (mailFault.None? && storageFault.None? ==>
                   r == Ok("ok") &&
                   verificationService.emailVerificationRepository.rows ==
                     old(verificationService.emailVerificationRepository.rows)[saved.id.value := saved])
      ensures user.forgottenPassword.Some? ==>
                var v := Validate(user.forgottenPassword.value, now);
                (!v.Accepted? ==>
                   r.Err? && Fail(r.error) == VerdictOutcome(v) &&
                   verificationService.emailVerificationRepository.rows == old(verificationService.emailVerificationRepository.rows)) &&
                (v.Accepted? && user.emailVerification.None? ==>
                   r == Err(UNDEFINED_ID) &&
                   verificationService.emailVerificationRepository.rows == old(verificationService.emailVerificationRepository.rows)) &&
                (v.Accepted? && user.emailVerification.Some? ==>
                   var afterDelete := old(verificationService.emailVerificationRepository.rows) - {user.emailVerification.value.id.value};
                   var saved := SavedRecord(afterDelete, Advance(user.forgottenPassword.value, now), freshId);
                   (mailFault.Some? ==>
                      r == Err(mailFault.value) && verificationService.emailVerificationRepository.rows == afterDelete) &&
                   (mailFault.None? && storageFault.Some? ==>
                      r == Err(DatabaseError(storageFault.value)) &&
                      verificationService.emailVerificationRepository.rows == afterDelete) &&
                   (mailFault.None? && storageFault.None? ==>
                      r == Ok("ok") && verificationService.emailVerificationRepository.rows == afterDelete[saved.id.value := saved]))
    {
      var verificationEntity: TokenEntity;
      if user.forgottenPassword.None? {
        verificationEntity := new TokenEntity(CreateVerificationToken(user.user, user.emailVerification, token, now));
      } else {
        verificationEntity := new TokenEntity(user.forgottenPassword.value);
        var validated := verificationService.ValidateToken(verificationEntity, now);
        if validated.Fail? {
          return Err(validated.error);
        }
        if user.emailVerification.None? {
          return Err(UNDEFINED_ID);
        }
        verificationService.DeleteEmailVerification(user.emailVerification.value.id.value);
      }
      if mailFault.Some? {
        return Err(mailFault.value);
      }
      var saved := verificationService.SaveEmailVerification(verificationEntity.Value(), freshId, storageFault);
      if saved.Err? {
        return Err(saved.error);
      }
      r := Ok("ok");
    }

    /** sendEmailVerification: the lookup loads only the emailVerification
        relation, but the branch tests forgottenPassword, which is therefore
        always undefined: a new confirmation record with one attempt is
        always saved (over the existing one's id) and the gate never runs. */
    method SendEmailVerification(email: string, token: string, now: Millis, freshId: Id,
                                 mailFault: Option<Exception>, storageFault: Option<string>)
      returns (r: Result<string>)
      requires Valid()
      requires freshId !in verificationService.emailVerificationRepository.rows
      modifies verificationService.emailVerificationRepository
      ensures Valid()
      ensures !HasLive(userService.userRepository.rows, ByEmail(email)) ==> r == Err(NotFound("User doesn't exist"))
      ensures r.Err? && mailFault.None? ==> !r.error.RateLimit?
      ensures r.Err? || mailFault.Some? ==>
                verificationService.emailVerificationRepository.rows == old(verificationService.emailVerificationRepository.rows)
      ensures HasLive(userService.userRepository.rows, ByEmail(email)) && mailFault.None? && storageFault.None? ==> r == Ok("ok")
      ensures r.Ok? ==>
                r.value == "ok" &&
                exists u, k :: u in userService.userRepository.rows.Values && Live(u) && u.email == email &&
                  (k == freshId || k in old(verificationService.emailVerificationRepository.rows)) &&
                  verificationService.emailVerificationRepository.rows ==
                    old(verificationService.emailVerificationRepository.rows)[k :=
                      CreateVerificationToken(u, None, token, now).(id := Some(k))]
    {
      var user := verificationService.FindUserByEmail(email, Relations(true, false));
      if user.None? {
        return Err(NotFound("User doesn't exist"));
      }
      r := ResendVerification(user.value, token, now, freshId, mailFault, storageFault);
    }

    /** confirmRegistration: redirects to the frontend when the token is
        redeemed and the mail is sent, and to its resend page on any error.
        `redeemed` is what verifyConfirmToken returned; `findFault` and
        `removeFault` are its wrapped storage failures. */
    method ConfirmRegistration(token: string, now: Millis, findFault: Option<string>, removeFault: Option<string>,
                               mailFault: Option<Exception>)
      returns (url: string, redeemed: Result<string>)
      requires Valid()
      modifies verificationService.emailVerificationRepository, userService.userRepository
      ensures Valid()
      ensures url == (if redeemed.Ok? && mailFault.None? then frontendHost else frontendHost + "/resend-conformation")
      ensures findFault.Some? ==>
                redeemed == Err(DatabaseError(findFault.value)) && url == frontendHost + "/resend-conformation" &&
                verificationService.emailVerificationRepository.rows == old(verificationService.emailVerificationRepository.rows) &&
                userService.userRepository.rows == old(userService.userRepository.rows)
      ensures findFault.None? && !HasToken(old(verificationService.emailVerificationRepository.rows), token) ==>
                redeemed == Err(BadRequest("Email token not found.")) && url == frontendHost + "/resend-conformation" &&
                verificationService.emailVerificationRepository.rows == old(verificationService.emailVerificationRepository.rows) &&
                userService.userRepository.rows == old(userService.userRepository.rows)
      ensures findFault.None? && HasToken(old(verificationService.emailVerificationRepository.rows), token) ==>
                exists k :: k in old(verificationService.emailVerificationRepository.rows) &&
                  old(verificationService.emailVerificationRepository.rows)[k].token == token &&
                  ConfirmRedeemed(old(verificationService.emailVerificationRepository.rows), old(userService.userRepository.rows),
                                  k, now, removeFault, redeemed,
                                  verificationService.emailVerificationRepository.rows, userService.userRepository.rows)
    {
      var redirectUrl := frontendHost;
      redeemed := verificationService.VerifyConfirmToken(token, now, findFault, removeFault);
      if redeemed.Err? || mailFault.Some? {
        redirectUrl := redirectUrl + "/resend-conformation";
      }
      url := redirectUrl;
    }
  }
}
