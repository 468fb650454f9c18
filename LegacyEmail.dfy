/** src/email/email-verification.service.ts and src/email/mail.service.ts:
    the older confirmation and password-reset services, which gate re-sending
    with the 15-minute window of isElapsedTime on a single timestamp. The
    two services share createEmailToken and createForgottenPasswordToken
    word for word; here that shared part is one store both services hold. */
module LegacyEmail {
  import opened Common
  import opened Entities
  import opened Users
  import opened ElapsedTime
  import opened Verification

  /** Some legacy confirmation row is for `email`. */
  ghost predicate HasEmailRecord(rows: map<Id, LegacyEmailRecord>, email: string)
  {
    exists k :: k in rows && rows[k].email == email
  }

  /** Every legacy confirmation row for `email` is inside its window. */
  ghost predicate AllRecent(rows: map<Id, LegacyEmailRecord>, email: string, now: Millis)
  {
    forall k :: k in rows && rows[k].email == email ==> IsElapsedTime(rows[k].timestamp, now)
  }

  /** The legacy confirmation and password-reset tables with the operations
      both legacy services share. New tokens come from a generator that is
      not part of this model; they are parameters. */
  class LegacyTokenStore {
    const emailVerificationRepository: Repository<LegacyEmailRecord>
    const forgottenPasswordRepository: Repository<LegacyForgottenRecord>

    constructor (emails: Repository<LegacyEmailRecord>, forgotten: Repository<LegacyForgottenRecord>)
      ensures emailVerificationRepository == emails && forgottenPasswordRepository == forgotten
    {
      emailVerificationRepository := emails;
      forgottenPasswordRepository := forgotten;
    }

    /** saveEmailVerification for a new row: inserted under a fresh id; a
        storage failure is thrown as it comes. */
    method SaveEmailVerification(email: string, emailToken: string, timestamp: Millis, freshId: Id,
                                 storageFault: Option<string>)
      returns (r: Result<LegacyEmailRecord>)
      requires freshId !in emailVerificationRepository.rows
      modifies emailVerificationRepository
      ensures storageFault.Some? ==>
                r == Err(Error(storageFault.value)) &&
                emailVerificationRepository.rows == old(emailVerificationRepository.rows)
      ensures storageFault.None? ==>
                r == Ok(LegacyEmailRecord(freshId, email, emailToken, timestamp)) &&
                emailVerificationRepository.rows == old(emailVerificationRepository.rows)[freshId := r.value]
    {
      if storageFault.Some? {
        return Err(Error(storageFault.value));
      }
      var entity := LegacyEmailRecord(freshId, email, emailToken, timestamp);
      emailVerificationRepository.rows := emailVerificationRepository.rows[freshId := entity];
      r := Ok(entity);
    }

    /** createEmailToken: refused while a row for the email is inside its
        15-minute window; otherwise a new row {email, token, now} is saved,
        a failed save is swallowed, and the answer is true. */
    method CreateEmailToken(email: string, emailToken: string, now: Millis, freshId: Id, storageFault: Option<string>)
      returns (r: Result<bool>)
      requires freshId !in emailVerificationRepository.rows
      modifies emailVerificationRepository
      ensures r.Err? ==>
                r.error == BadRequest("Email sent recently") &&
                emailVerificationRepository.rows == old(emailVerificationRepository.rows) &&
                exists k :: k in old(emailVerificationRepository.rows) && old(emailVerificationRepository.rows)[k].email == email &&
                  IsElapsedTime(old(emailVerificationRepository.rows)[k].timestamp, now)
      ensures HasEmailRecord(old(emailVerificationRepository.rows), email) ==>
                AllRecent(old(emailVerificationRepository.rows), email, now) ==> r.Err?
      ensures r.Ok? ==> r.value
      ensures r.Ok? && storageFault.Some? ==> emailVerificationRepository.rows == old(emailVerificationRepository.rows)
      ensures r.Ok? && storageFault.None? ==>
                emailVerificationRepository.rows ==
                  old(emailVerificationRepository.rows)[freshId := LegacyEmailRecord(freshId, email, emailToken, now)]
      ensures !HasEmailRecord(old(emailVerificationRepository.rows), email) ==> r.Ok?
    {
      var rows := emailVerificationRepository.rows;
      var emailVerification: Option<LegacyEmailRecord> := None;
      if exists k :: k in rows && rows[k].email == email {
        var k :| k in rows && rows[k].email == email;
        emailVerification := Some(rows[k]);
      }
      var elapsedTime := emailVerification.Some? && IsElapsedTime(emailVerification.value.timestamp, now);
      if emailVerification.Some? && elapsedTime {
        return Err(BadRequest("Email sent recently"));
      }
      var saved := SaveEmailVerification(email, emailToken, now, freshId, storageFault);
      r := Ok(true);
    }

    /** saveForgottenPasswordToken({id?, token, timestamp}): with an id the
        row is replaced, keeping the user it points at; without one a new row
        is inserted. */
    method SaveForgottenPasswordToken(id: Option<Id>, token: string, timestamp: Millis, freshId: Id)
      returns (r: LegacyForgottenRecord)
      requires id.None? ==> freshId !in forgottenPasswordRepository.rows
      modifies forgottenPasswordRepository
      ensures r.id == (if id.Some? then id.value else freshId)
      ensures r.token == token && r.timestamp == timestamp
      ensures r.user == (if r.id in old(forgottenPasswordRepository.rows) then old(forgottenPasswordRepository.rows)[r.id].user else None)
      ensures forgottenPasswordRepository.rows == old(forgottenPasswordRepository.rows)[r.id := r]
    {
      var key := if id.Some? then id.value else freshId;
      var rows := forgottenPasswordRepository.rows;
      r := LegacyForgottenRecord(key, token, timestamp, if key in rows then rows[key].user else None);
      forgottenPasswordRepository.rows := rows[key := r];
    }

    /** createForgottenPasswordToken: without a record a new one is saved;
        a record inside its 15-minute window is refused; otherwise the record
        gets the new token and timestamp under the same id. */
    method CreateForgottenPasswordToken(forgottenPassword: Option<LegacyForgottenRecord>, token: string, now: Millis, freshId: Id)
      returns (r: Result<LegacyForgottenRecord>)
      requires freshId !in forgottenPasswordRepository.rows
      modifies forgottenPasswordRepository
      ensures forgottenPassword.None? ==>
                r == Ok(LegacyForgottenRecord(freshId, token, now, None)) &&
                forgottenPasswordRepository.rows == old(forgottenPasswordRepository.rows)[freshId := r.value]
      ensures forgottenPassword.Some? && IsElapsedTime(forgottenPassword.value.timestamp, now) ==>
                r == Err(Error("Email sent recently")) &&
                forgottenPasswordRepository.rows == old(forgottenPasswordRepository.rows)
      ensures forgottenPassword.Some? && !IsElapsedTime(forgottenPassword.value.timestamp, now) ==>
                r.Ok? && r.value.id == forgottenPassword.value.id && r.value.token == token && r.value.timestamp == now &&
                r.value.user == (if r.value.id in old(forgottenPasswordRepository.rows)
                                 then old(forgottenPasswordRepository.rows)[r.value.id].user else None) &&
                forgottenPasswordRepository.rows == old(forgottenPasswordRepository.rows)[r.value.id := r.value]
    {
      var newTimestamp := now;
      if forgottenPassword.None? {
        var saved := SaveForgottenPasswordToken(None, token, newTimestamp, freshId);
        return Ok(saved);
      }
      var elapsedTime := IsElapsedTime(forgottenPassword.value.timestamp, now);
      if elapsedTime {
        return Err(Error("Email sent recently"));
      }
      var saved := SaveForgottenPasswordToken(Some(forgottenPassword.value.id), token, newTimestamp, freshId);
      r := Ok(saved);
    }
  }

  /** The email-token window in use: a second request inside fifteen
      minutes of a saved one is refused, whatever the storage does. */
  method SecondRequestIsRefused(store: LegacyTokenStore, email: string, t1: string, t2: string, now: Millis, later: Millis,
                                id1: Id, id2: Id)
    returns (first: Result<bool>, second: Result<bool>)
    requires id1 !in store.emailVerificationRepository.rows && id2 !in store.emailVerificationRepository.rows && id1 != id2
    requires !HasEmailRecord(store.emailVerificationRepository.rows, email)
    requires now <= later < now + 15 * MS_PER_MINUTE
    modifies store.emailVerificationRepository
    ensures first == Ok(true)
    ensures second == Err(BadRequest("Email sent recently"))
  {
    first := store.CreateEmailToken(email, t1, now, id1, None);
    assert store.emailVerificationRepository.rows[id1].email == email;
    second := store.CreateEmailToken(email, t2, later, id2, None);
  }

  /** EmailVerificationService. Its verifyEmail reads the same table through
      the columns of the newer schema (token, expiration date, user), which
      `tokenView` holds. */
  class EmailVerificationService {
    const store: LegacyTokenStore
    const tokenView: Repository<TokenRecord>
    const usersService: UsersService

    constructor (store: LegacyTokenStore, tokenView: Repository<TokenRecord>, users: UsersService)
      ensures this.store == store && this.tokenView == tokenView && usersService == users
    {
      this.store := store;
      this.tokenView := tokenView;
      usersService := users;
    }

    /** verifyEmail: the redemption of verifyConfirmToken, returning nothing;
        this flow wraps no storage failure in a DatabaseError. */
    method VerifyEmail(token: string, now: Millis) returns (o: Outcome)
      requires TokenRowsKeyed(tokenView.rows)
      modifies tokenView, usersService.userRepository
      ensures TokenRowsKeyed(tokenView.rows)
      ensures !HasToken(old(tokenView.rows), token) ==>
                o == Fail(BadRequest("Email token not found.")) && tokenView.rows == old(tokenView.rows)
      ensures HasToken(old(tokenView.rows), token) ==>
                exists k, r :: k in old(tokenView.rows) && old(tokenView.rows)[k].token == token &&
                  ConfirmRedeemed(old(tokenView.rows), old(usersService.userRepository.rows), k, now,
                                  None, r, tokenView.rows, usersService.userRepository.rows) &&
                  o == (if r.Ok? then Pass else Fail(r.error))
    {
      var r := RedeemConfirmToken(tokenView, usersService, token, now, None, None);
      o := if r.Ok? then Pass else Fail(r.error);
    }
  }

  /** MailService. */
  class MailService {
    const store: LegacyTokenStore
    const usersService: UsersService

    constructor (store: LegacyTokenStore, users: UsersService)
      ensures this.store == store && usersService == users
    {
      this.store := store;
      usersService := users;
    }

    /** verifyEmail: the row holding the email token must exist and name an
        email, else 'Email token not valid'. When a live user has that email
        the one with the greatest id is marked confirmed and saved, the row is removed and the
        saved user returned; when none has, nothing changes and the answer is
        undefined. */
    method VerifyEmail(token: string) returns (r: Result<Option<UserRecord>>)
      modifies store.emailVerificationRepository, usersService.userRepository
      ensures !(exists k :: k in old(store.emailVerificationRepository.rows) &&
                 old(store.emailVerificationRepository.rows)[k].emailToken == token &&
                 old(store.emailVerificationRepository.rows)[k].email != "") ==>
                r == Err(Error("Email token not valid"))
      ensures r.Err? ==>
                r == Err(Error("Email token not valid")) &&
                store.emailVerificationRepository.rows == old(store.emailVerificationRepository.rows) &&
                usersService.userRepository.rows == old(usersService.userRepository.rows)
      ensures r == Ok(None) ==>
                store.emailVerificationRepository.rows == old(store.emailVerificationRepository.rows) &&
                usersService.userRepository.rows == old(usersService.userRepository.rows) &&
                exists k :: k in old(store.emailVerificationRepository.rows) &&
                  old(store.emailVerificationRepository.rows)[k].emailToken == token &&
                  !HasLive(old(usersService.userRepository.rows), ByEmail(old(store.emailVerificationRepository.rows)[k].email))
      ensures r.Ok? && r.value.Some? ==>
                exists k, u :: k in old(store.emailVerificationRepository.rows) &&
                  old(store.emailVerificationRepository.rows)[k].emailToken == token &&
                  u in old(usersService.userRepository.rows).Values && Live(u) &&
                  u.email == old(store.emailVerificationRepository.rows)[k].email &&
                  LatestMatch(old(usersService.userRepository.rows), ByEmail(u.email), u) &&
                  r.value.value == u.(confirmed := true) &&
                  usersService.userRepository.rows == old(usersService.userRepository.rows)[u.id := u.(confirmed := true)] &&
                  store.emailVerificationRepository.rows == old(store.emailVerificationRepository.rows) - {k}
    {
      var rows := store.emailVerificationRepository.rows;
      if !(exists k :: k in rows && rows[k].emailToken == token && rows[k].email != "") {
        return Err(Error("Email token not valid"));
      }
      var k :| k in rows && rows[k].emailToken == token && rows[k].email != "";
      var verifiedEmailAddress := rows[k];
      var userFromDb := usersService.FindOne(ByEmail(verifiedEmailAddress.email));
      if userFromDb.None? {
        return Ok(None);
      }
      var savedUser := userFromDb.value.(confirmed := true);
      usersService.userRepository.rows := usersService.userRepository.rows[savedUser.id := savedUser];
      store.emailVerificationRepository.rows := rows - {k};
      r := Ok(Some(savedUser));
    }
  }
}
