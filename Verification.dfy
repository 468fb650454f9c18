/** src/auth/verification.service.ts: the email-confirmation and
    password-reset token records, the throttle gate that guards re-sending
    them, and the redemption of a token. */
module Verification {
  import opened Common
  import opened Entities
  import opened Users

  /** Minutes a caller must wait once a record has two attempts. */
  const DELAY_AFTER_SECOND_ATTEMPT: int := 5
  /** Lifetime of an email-confirmation record: 10 days. */
  const VERIFICATION_TOKEN_TTL: Millis := 10 * MS_PER_DAY
  /** Lifetime of a password-reset record: 1 day. */
  const FORGOTTEN_PASSWORD_TTL: Millis := MS_PER_DAY

  // ---------------------------------------------------------------------
  // The throttle gate
  // ---------------------------------------------------------------------

  /** What validateToken decides for a record at an instant. */
  datatype Verdict = Expired | Throttled(unlockTime: int) | Accepted

  /** The whole minutes since the last attempt; a record that never had one
      counts as Number.MAX_SAFE_INTEGER minutes old. */
  function MinutesSinceLastAttempt(rec: TokenRecord, now: Millis): int
  {
    if rec.lastAttemptDate.Some? then MinutesBetween(now, rec.lastAttemptDate.value) else MAX_SAFE_INTEGER
  }

  /** The cooldown, stated in milliseconds: at least two attempts, the last
      one less than five minutes before `now`. */
  predicate CoolingDown(rec: TokenRecord, now: Millis)
  {
    rec.attempts >= 2 && rec.lastAttemptDate.Some? &&
    now - rec.lastAttemptDate.value < DELAY_AFTER_SECOND_ATTEMPT * MS_PER_MINUTE
  }

  /** Moving an instant by whole minutes moves its Unix seconds by sixty
      times as many. */
  lemma UnixSecondsShift(t: Millis, minutes: int)
    ensures UnixSeconds(t + minutes * MS_PER_MINUTE) == UnixSeconds(t) + 60 * minutes
  {
    var s := UnixSeconds(t);
    var s' := UnixSeconds(t + minutes * MS_PER_MINUTE);
    assert (s + 60 * minutes) * MS_PER_SECOND <= t + minutes * MS_PER_MINUTE < (s + 60 * minutes + 1) * MS_PER_SECOND;
    assert s' * MS_PER_SECOND <= t + minutes * MS_PER_MINUTE < (s' + 1) * MS_PER_SECOND;
  }

  /** validateToken's decision: expiry is checked first (strictly after the
      expiration date), then the cooldown, measured in whole minutes; the
      unlock time is `now` plus the minutes left, in Unix seconds. */
  function Validate(rec: TokenRecord, now: Millis): (v: Verdict)
    ensures v.Expired? <==> now > rec.expirationDate
    ensures v.Throttled? <==> now <= rec.expirationDate && CoolingDown(rec, now)
    ensures v.Accepted? <==> now <= rec.expirationDate && !CoolingDown(rec, now)
    ensures rec.lastAttemptDate.None? ==> !v.Throttled?
    ensures v.Throttled? && rec.lastAttemptDate.value <= now ==>
              UnixSeconds(now) + 60 <= v.unlockTime <= UnixSeconds(now) + 5 * 60
  {
    if now > rec.expirationDate then Expired
    else
      var minutes := MinutesSinceLastAttempt(rec, now);
      if rec.attempts >= 2 && minutes < DELAY_AFTER_SECOND_ATTEMPT then
        UnixSecondsShift(now, DELAY_AFTER_SECOND_ATTEMPT - minutes);
        Throttled(UnixSeconds(now + (DELAY_AFTER_SECOND_ATTEMPT - minutes) * MS_PER_MINUTE))
      else Accepted
  }

  /** The record after an accepted attempt. */
  function Advance(rec: TokenRecord, now: Millis): (r: TokenRecord)
    ensures r.attempts == rec.attempts + 1 && r.lastAttemptDate == Some(now)
    ensures r.id == rec.id && r.token == rec.token && r.expirationDate == rec.expirationDate && r.user == rec.user
  {
    rec.(attempts := rec.attempts + 1, lastAttemptDate := Some(now))
  }

  /** What validateToken throws for each verdict. */
  function VerdictOutcome(v: Verdict): (o: Outcome)
    ensures o.Pass? <==> v.Accepted?
    ensures v.Throttled? ==> o.error.RateLimit? && o.error.unlockTime == v.unlockTime
  {
    match v
    case Expired => Fail(BadRequest("Token has expired."))
    case Throttled(unlockTime) => Fail(RateLimit("Please wait before trying again.", unlockTime))
    case Accepted => Pass
  }

  /** At the instant the unlock time was computed from, the cooldown is over;
      so is it from the second after the advertised unlock time on. */
  lemma {:induction false} UnlockLiftsCooldown(rec: TokenRecord, now: Millis, later: Millis)
    requires Validate(rec, now).Throttled? && rec.lastAttemptDate.value <= now
    requires (Validate(rec, now).unlockTime + 1) * MS_PER_SECOND <= later <= rec.expirationDate
    ensures Validate(rec, later) == Accepted
  {
    var minutes := MinutesSinceLastAttempt(rec, now);
    var resume := now + (DELAY_AFTER_SECOND_ATTEMPT - minutes) * MS_PER_MINUTE;
    assert Validate(rec, now).unlockTime == UnixSeconds(resume);
    assert resume - rec.lastAttemptDate.value >= DELAY_AFTER_SECOND_ATTEMPT * MS_PER_MINUTE;
    assert later > resume;
  }

  /** The advertised unlock time is rounded down to the second, so a client
      that comes back exactly at it can still be inside the cooldown: a
      second attempt 999 ms into the epoch, a third 4 minutes later. */
  lemma UnlockSecondCanBeEarly()
    ensures var rec := TokenRecord(None, "t", 10 * MS_PER_MINUTE, 2, Some(999), None);
            var v := Validate(rec, 240999);
            v == Throttled(300) && Validate(rec, v.unlockTime * MS_PER_SECOND).Throttled?
  {
    var rec := TokenRecord(None, "t", 10 * MS_PER_MINUTE, 2, Some(999), None);
    assert MinutesSinceLastAttempt(rec, 240999) == 4;
    UnixSecondsShift(240999, 1);
  }

  // ---------------------------------------------------------------------
  // Record builders
  // ---------------------------------------------------------------------

  /** createVerificationToken: a record valid for 10 days with one attempt
      made now, keeping the id of the user's existing record when there is
      one so that saving it replaces that row. */
  function CreateVerificationToken(user: UserRecord, existing: Option<TokenRecord>, token: string, now: Millis): (r: TokenRecord)
    ensures r.attempts == 1 && r.lastAttemptDate == Some(now)
    ensures r.expirationDate == now + 10 * MS_PER_DAY
    ensures r.id == (if existing.Some? then existing.value.id else None)
    ensures r.token == token && r.user == Some(user.id)
    ensures Validate(r, now) == Accepted
  {
    TokenRecord(if existing.Some? then existing.value.id else None,
                token, now + VERIFICATION_TOKEN_TTL, 1, Some(now), Some(user.id))
  }

  /** createForgottenPasswordToken: a new record, valid for one day, with
      one attempt made now. */
  function CreateForgottenPasswordToken(user: UserRecord, token: string, now: Millis): (r: TokenRecord)
    ensures r.attempts == 1 && r.lastAttemptDate == Some(now)
    ensures r.expirationDate == now + MS_PER_DAY
    ensures r.id.None? && r.token == token && r.user == Some(user.id)
    ensures Validate(r, now) == Accepted
  {
    TokenRecord(None, token, now + FORGOTTEN_PASSWORD_TTL, 1, Some(now), Some(user.id))
  }

  /** The two-strike rule from a freshly created record: the next attempt
      within the lifetime is accepted, and after it the record is throttled
      for exactly five minutes. */
  lemma {:induction false} TwoStrikes(user: UserRecord, token: string, t0: Millis, t1: Millis, t2: Millis)
    requires t0 <= t1 <= t2 <= t0 + MS_PER_DAY
    ensures var r0 := CreateForgottenPasswordToken(user, token, t0);
            Validate(r0, t1) == Accepted &&
            (t2 - t1 < 5 * MS_PER_MINUTE ==> Validate(Advance(r0, t1), t2).Throttled?) &&
            (t2 - t1 >= 5 * MS_PER_MINUTE ==> Validate(Advance(r0, t1), t2) == Accepted)
  {
  }

  /** A record three minutes past its second attempt waits two more minutes. */
  lemma ThreeMinutesAfterSecondAttempt(rec: TokenRecord, now: Millis)
    requires rec.attempts == 2 && rec.lastAttemptDate == Some(now - 3 * MS_PER_MINUTE)
    requires now <= rec.expirationDate
    ensures Validate(rec, now) == Throttled(UnixSeconds(now) + 2 * 60)
  {
    UnixSecondsShift(now, 2);
  }

  // ---------------------------------------------------------------------
  // Storage
  // ---------------------------------------------------------------------

  /** A row in `rows` holds `token`. */
  ghost predicate HasToken(rows: map<Id, TokenRecord>, token: string)
  {
    exists k :: k in rows && rows[k].token == token
  }

  /** At most one row holds `token`. */
  ghost predicate UniqueToken(rows: map<Id, TokenRecord>, token: string)
  {
    forall a, b :: a in rows && b in rows && rows[a].token == token && rows[b].token == token ==> a == b
  }

  /** The row repository.save(entity) writes: under the entity's id, or a
      fresh one; a relation the entity leaves unset keeps the stored value. */
  function SavedRecord(rows: map<Id, TokenRecord>, data: TokenRecord, freshId: Id): (r: TokenRecord)
    ensures r.id == Some(if data.id.Some? then data.id.value else freshId)
    ensures r.token == data.token && r.expirationDate == data.expirationDate
    ensures r.attempts == data.attempts && r.lastAttemptDate == data.lastAttemptDate
    ensures data.user.Some? ==> r.user == data.user
    ensures data.user.None? && r.id.value in rows ==> r.user == rows[r.id.value].user
  {
    var key := if data.id.Some? then data.id.value else freshId;
    data.(id := Some(key), user := if data.user.None? && key in rows then rows[key].user else data.user)
  }

  /** repository.save(entity).catch(err => throw new DatabaseError(err.message)). */
  method SaveTokenRecord(repo: Repository<TokenRecord>, data: TokenRecord, freshId: Id, storageFault: Option<string>)
    returns (r: Result<TokenRecord>)
    requires data.id.None? ==> freshId !in repo.rows
    modifies repo
    ensures storageFault.Some? ==> r == Err(DatabaseError(storageFault.value)) && repo.rows == old(repo.rows)
    ensures storageFault.None? ==> r == Ok(SavedRecord(old(repo.rows), data, freshId)) &&
                                   repo.rows == old(repo.rows)[r.value.id.value := r.value]
    ensures TokenRowsKeyed(old(repo.rows)) ==> TokenRowsKeyed(repo.rows)
  {
    if storageFault.Some? {
      return Err(DatabaseError(storageFault.value));
    }
    var saved := SavedRecord(repo.rows, data, freshId);
    repo.rows := repo.rows[saved.id.value := saved];
    r := Ok(saved);
  }

  /** The relations a lookup asks TypeORM to load with the user. */
  datatype Relations = Relations(emailVerification: bool, forgottenPassword: bool)

  /** A user as findByEmail returns it: each relation is the record pointing
      at the user when the lookup asked for it and one exists, else
      undefined. A record reached this way carries no `user` back-reference. */
  datatype LoadedUser = LoadedUser(user: UserRecord, emailVerification: Option<TokenRecord>, forgottenPassword: Option<TokenRecord>)

  /** The record with key `k` is the one that points at user `uid`. */
  predicate RelatedRow(rows: map<Id, TokenRecord>, uid: Id, k: Id)
  {
    k in rows && rows[k].user == Some(uid)
  }

  ghost predicate HasRelated(rows: map<Id, TokenRecord>, uid: Id)
  {
    exists k :: RelatedRow(rows, uid, k)
  }

  /** A loaded relation matches the table: absent when not requested or when
      no record points at the user, else a row pointing at the user, loaded
      without its back-reference. */
  ghost predicate RelationLoaded(requested: bool, rows: map<Id, TokenRecord>, uid: Id, rel: Option<TokenRecord>)
  {
    if requested && HasRelated(rows, uid)
    then rel.Some? && exists k :: RelatedRow(rows, uid, k) && rel.value == rows[k].(user := None)
    else rel.None?
  }

  /** The relation TypeORM loads for `uid`. */
  method LoadRelation(requested: bool, rows: map<Id, TokenRecord>, uid: Id) returns (rel: Option<TokenRecord>)
    ensures RelationLoaded(requested, rows, uid, rel)
  {
    if requested && exists k :: k in rows && RelatedRow(rows, uid, k) {
      var k :| k in rows && RelatedRow(rows, uid, k);
      rel := Some(rows[k].(user := None));
    } else {
      rel := None;
    }
  }

  // ---------------------------------------------------------------------
  // Redemption
  // ---------------------------------------------------------------------

  /** How redeeming the confirmation record `k` at `now` changes the
      confirmation table and the users table and what it returns: an expired
      record is removed and rejected (a failing removal, `removeFault`,
      becomes a DatabaseError and removes nothing); a record whose user is
      found marks the user confirmed, is removed and yields the user's email;
      otherwise nothing changes and the redemption is rejected. */
  ghost predicate ConfirmRedeemed(emails: map<Id, TokenRecord>, users: map<Id, UserRecord>, k: Id, now: Millis,
                                  removeFault: Option<string>,
                                  r: Result<string>, emails': map<Id, TokenRecord>, users': map<Id, UserRecord>)
    requires k in emails
  {
    var rec := emails[k];
    if now > rec.expirationDate && removeFault.Some? then
      r == Err(DatabaseError(removeFault.value)) && emails' == emails && users' == users
    else if now > rec.expirationDate then
      r == Err(BadRequest("Email token is expired.")) && emails' == emails - {k} && users' == users
    else if rec.user.Some? && HasLive(users, ById(rec.user.value)) then
      (exists j :: j in users && Live(users[j]) && users[j].id == rec.user.value && r == Ok(users[j].email)) &&
      emails' == emails - {k} && users' == Confirmed(users, rec.user.value)
    else
      r == Err(BadRequest("Associated user not found.")) && emails' == emails && users' == users
  }

  /** How redeeming the password-reset record `k` changes the two token
      tables: an expired record is removed from the reset table (a failing
      removal becomes a DatabaseError and removes nothing); a record whose
      user is found is deleted by its id from the CONFIRMATION table (the
      reset record itself stays), and the user is returned. */
  ghost predicate ResetRedeemed(forgotten: map<Id, TokenRecord>, emails: map<Id, TokenRecord>, users: map<Id, UserRecord>,
                                k: Id, now: Millis, removeFault: Option<string>, r: Result<UserRecord>,
                                forgotten': map<Id, TokenRecord>, emails': map<Id, TokenRecord>)
    requires k in forgotten
  {
    var rec := forgotten[k];
    if now > rec.expirationDate && removeFault.Some? then
      r == Err(DatabaseError(removeFault.value)) && forgotten' == forgotten && emails' == emails
    else if now > rec.expirationDate then
      r == Err(BadRequest("Token is expired.")) && forgotten' == forgotten - {k} && emails' == emails
    else if rec.user.Some? && HasLive(users, ById(rec.user.value)) then
      r.Ok? && r.value in users.Values && Live(r.value) && r.value.id == rec.user.value &&
      forgotten' == forgotten && emails' == emails - {k}
    else
      r == Err(BadRequest("Associated user not found.")) && forgotten' == forgotten && emails' == emails
  }

  /** Finds the live user a record's `user` relation points at. */
  method LoadRecordUser(users: map<Id, UserRecord>, rec: TokenRecord) returns (u: Option<UserRecord>)
    ensures u.Some? <==> rec.user.Some? && HasLive(users, ById(rec.user.value))
    ensures u.Some? ==> u.value in users.Values && Live(u.value) && u.value.id == rec.user.value
  {
    if rec.user.Some? && exists j :: j in users && Live(users[j]) && Matches(users[j], ById(rec.user.value)) {
      var j :| j in users && Live(users[j]) && Matches(users[j], ById(rec.user.value));
      u := Some(users[j]);
    } else {
      u := None;
    }
  }

  /** verifyConfirmToken, the redemption shared by the confirmation flows:
      look the token up in `emails`, then expire, confirm or reject.
      `findFault` and `removeFault` are failures of the lookup and of the
      expired record's removal, which the code wraps in a DatabaseError
      (the legacy flow, which wraps neither, passes None for both). */
  method RedeemConfirmToken(emails: Repository<TokenRecord>, usersService: UsersService, token: string, now: Millis,
                            findFault: Option<string>, removeFault: Option<string>)
    returns (r: Result<string>)
    requires TokenRowsKeyed(emails.rows)
    modifies emails, usersService.userRepository
    ensures TokenRowsKeyed(emails.rows)
    ensures findFault.Some? ==>
              r == Err(DatabaseError(findFault.value)) && emails.rows == old(emails.rows) &&
              usersService.userRepository.rows == old(usersService.userRepository.rows)
    ensures findFault.None? && !HasToken(old(emails.rows), token) ==>
              r == Err(BadRequest("Email token not found.")) && emails.rows == old(emails.rows) &&
              usersService.userRepository.rows == old(usersService.userRepository.rows)
    ensures findFault.None? && HasToken(old(emails.rows), token) ==>
              exists k :: k in old(emails.rows) && old(emails.rows)[k].token == token &&
                ConfirmRedeemed(old(emails.rows), old(usersService.userRepository.rows), k, now, removeFault,
                                r, emails.rows, usersService.userRepository.rows)
  {
    var rows := emails.rows;
    var users := usersService.userRepository.rows;
    if findFault.Some? {
      return Err(DatabaseError(findFault.value));
    }
    if !(exists k :: k in rows && rows[k].token == token) {
      return Err(BadRequest("Email token not found."));
    }
    var k :| k in rows && rows[k].token == token;
    var verificationRecord := rows[k];
    if now > verificationRecord.expirationDate {
      if removeFault.Some? {
        r := Err(DatabaseError(removeFault.value));
      } else {
        emails.rows := rows - {verificationRecord.id.value};
        r := Err(BadRequest("Email token is expired."));
      }
      assert ConfirmRedeemed(rows, users, k, now, removeFault, r, emails.rows, usersService.userRepository.rows);
      return;
    }
    var user := LoadRecordUser(users, verificationRecord);
    if user.Some? {
      usersService.MarkConfirmed(user.value.id);
      emails.rows := rows - {verificationRecord.id.value};
      r := Ok(user.value.email);
    } else {
      r := Err(BadRequest("Associated user not found."));
    }
    assert ConfirmRedeemed(rows, users, k, now, removeFault, r, emails.rows, usersService.userRepository.rows);
  }

  /** The verification service: the confirmation table, the password-reset
      table and the users it confirms. */
  class VerificationService {
    const emailVerificationRepository: Repository<TokenRecord>
    const forgottenPasswordRepository: Repository<TokenRecord>
    const usersService: UsersService

    /** Two distinct tables, each keeping every row under its own id. */
    ghost predicate Valid()
      reads emailVerificationRepository, forgottenPasswordRepository
    {
      emailVerificationRepository != forgottenPasswordRepository &&
      TokenRowsKeyed(emailVerificationRepository.rows) &&
      TokenRowsKeyed(forgottenPasswordRepository.rows)
    }

    constructor (emails: Repository<TokenRecord>, forgotten: Repository<TokenRecord>, users: UsersService)
      ensures emailVerificationRepository == emails && forgottenPasswordRepository == forgotten
      ensures usersService == users
    {
      emailVerificationRepository := emails;
      forgottenPasswordRepository := forgotten;
      usersService := users;
    }

    /** deleteEmailVerification(id): removes the row with that id, if any. */
    method DeleteEmailVerification(id: Id)
      modifies emailVerificationRepository
      ensures emailVerificationRepository.rows == old(emailVerificationRepository.rows) - {id}
    {
      emailVerificationRepository.rows := emailVerificationRepository.rows - {id};
    }

    /** deleteForgottenPassword({token}): removes every row with that token. */
    method DeleteForgottenPassword(token: string)
      modifies forgottenPasswordRepository
      ensures !HasToken(forgottenPasswordRepository.rows, token)
      ensures forgottenPasswordRepository.rows ==
                map k | k in old(forgottenPasswordRepository.rows) && old(forgottenPasswordRepository.rows)[k].token != token ::
                  old(forgottenPasswordRepository.rows)[k]
    {
      var rows := forgottenPasswordRepository.rows;
      forgottenPasswordRepository.rows := map k | k in rows && rows[k].token != token :: rows[k];
    }

    /** saveEmailVerification. */
    method SaveEmailVerification(data: TokenRecord, freshId: Id, storageFault: Option<string>) returns (r: Result<TokenRecord>)
      requires data.id.None? ==> freshId !in emailVerificationRepository.rows
      modifies emailVerificationRepository
      ensures storageFault.Some? ==>
                r == Err(DatabaseError(storageFault.value)) && emailVerificationRepository.rows == old(emailVerificationRepository.rows)
      ensures storageFault.None? ==>
                r == Ok(SavedRecord(old(emailVerificationRepository.rows), data, freshId)) &&
                emailVerificationRepository.rows == old(emailVerificationRepository.rows)[r.value.id.value := r.value]
      ensures TokenRowsKeyed(old(emailVerificationRepository.rows)) ==> TokenRowsKeyed(emailVerificationRepository.rows)
    {
      r := SaveTokenRecord(emailVerificationRepository, data, freshId, storageFault);
    }

    /** saveForgottenPasswordToken. */
    method SaveForgottenPasswordToken(data: TokenRecord, freshId: Id, storageFault: Option<string>) returns (r: Result<TokenRecord>)
      requires data.id.None? ==> freshId !in forgottenPasswordRepository.rows
      modifies forgottenPasswordRepository
      ensures storageFault.Some? ==>
                r == Err(DatabaseError(storageFault.value)) && forgottenPasswordRepository.rows == old(forgottenPasswordRepository.rows)
      ensures storageFault.None? ==>
                r == Ok(SavedRecord(old(forgottenPasswordRepository.rows), data, freshId)) &&
                forgottenPasswordRepository.rows == old(forgottenPasswordRepository.rows)[r.value.id.value := r.value]
      ensures TokenRowsKeyed(old(forgottenPasswordRepository.rows)) ==> TokenRowsKeyed(forgottenPasswordRepository.rows)
    {
      r := SaveTokenRecord(forgottenPasswordRepository, data, freshId, storageFault);
    }

    /** findByEmail(email, relations), with the verification relations read
        from the two token tables. */
    method FindUserByEmail(email: string, relations: Relations) returns (r: Option<LoadedUser>)
      ensures r.None? <==> !HasLive(usersService.userRepository.rows, ByEmail(email))
      ensures r.Some? ==>
                r.value.user in usersService.userRepository.rows.Values && Live(r.value.user) && r.value.user.email == email &&
                RelationLoaded(relations.emailVerification, emailVerificationRepository.rows, r.value.user.id, r.value.emailVerification) &&
                RelationLoaded(relations.forgottenPassword, forgottenPasswordRepository.rows, r.value.user.id, r.value.forgottenPassword)
    {
      var user := usersService.FindByEmail(email);
      if user.None? {
        return None;
      }
      var ev := LoadRelation(relations.emailVerification, emailVerificationRepository.rows, user.value.id);
      var fp := LoadRelation(relations.forgottenPassword, forgottenPasswordRepository.rows, user.value.id);
      r := Some(LoadedUser(user.value, ev, fp));
    }

    /** verifyConfirmToken. */
    method VerifyConfirmToken(token: string, now: Millis, findFault: Option<string>, removeFault: Option<string>)
      returns (r: Result<string>)
      requires Valid()
      modifies emailVerificationRepository, usersService.userRepository
      ensures Valid()
      ensures forgottenPasswordRepository.rows == old(forgottenPasswordRepository.rows)
      ensures findFault.Some? ==>
                r == Err(DatabaseError(findFault.value)) &&
                emailVerificationRepository.rows == old(emailVerificationRepository.rows) &&
                usersService.userRepository.rows == old(usersService.userRepository.rows)
      ensures findFault.None? && !HasToken(old(emailVerificationRepository.rows), token) ==>
                r == Err(BadRequest("Email token not found.")) &&
                emailVerificationRepository.rows == old(emailVerificationRepository.rows) &&
                usersService.userRepository.rows == old(usersService.userRepository.rows)
      ensures findFault.None? && HasToken(old(emailVerificationRepository.rows), token) ==>
                exists k :: k in old(emailVerificationRepository.rows) && old(emailVerificationRepository.rows)[k].token == token &&
                  ConfirmRedeemed(old(emailVerificationRepository.rows), old(usersService.userRepository.rows), k, now,
                                  removeFault, r, emailVerificationRepository.rows, usersService.userRepository.rows)
    {
      r := RedeemConfirmToken(emailVerificationRepository, usersService, token, now, findFault, removeFault);
    }

    /** verifyForgotPasswordToken: the same redemption on the reset table,
        except that a successful one removes by id through the confirmation
        repository. */
    method VerifyForgotPasswordToken(token: string, now: Millis, findFault: Option<string>, removeFault: Option<string>)
      returns (r: Result<UserRecord>)
      requires Valid()
      modifies emailVerificationRepository, forgottenPasswordRepository
      ensures Valid()
      ensures findFault.Some? ==>
                r == Err(DatabaseError(findFault.value)) &&
                forgottenPasswordRepository.rows == old(forgottenPasswordRepository.rows) &&
                emailVerificationRepository.rows == old(emailVerificationRepository.rows)
      ensures findFault.None? && !HasToken(old(forgottenPasswordRepository.rows), token) ==>
                r == Err(BadRequest("Token not found.")) &&
                forgottenPasswordRepository.rows == old(forgottenPasswordRepository.rows) &&
                emailVerificationRepository.rows == old(emailVerificationRepository.rows)
      ensures findFault.None? && HasToken(old(forgottenPasswordRepository.rows), token) ==>
                exists k :: k in old(forgottenPasswordRepository.rows) && old(forgottenPasswordRepository.rows)[k].token == token &&
                  ResetRedeemed(old(forgottenPasswordRepository.rows), old(emailVerificationRepository.rows),
                                usersService.userRepository.rows, k, now, removeFault, r,
                                forgottenPasswordRepository.rows, emailVerificationRepository.rows)
    {
      var rows := forgottenPasswordRepository.rows;
      var emails := emailVerificationRepository.rows;
      var users := usersService.userRepository.rows;
      if findFault.Some? {
        return Err(DatabaseError(findFault.value));
      }
      if !(exists k :: k in rows && rows[k].token == token) {
        return Err(BadRequest("Token not found."));
      }
      var k :| k in rows && rows[k].token == token;
      var verificationRecord := rows[k];
      if now > verificationRecord.expirationDate {
        if removeFault.Some? {
          r := Err(DatabaseError(removeFault.value));
        } else {
          forgottenPasswordRepository.rows := rows - {verificationRecord.id.value};
          r := Err(BadRequest("Token is expired."));
        }
        assert ResetRedeemed(rows, emails, users, k, now, removeFault, r, forgottenPasswordRepository.rows, emailVerificationRepository.rows);
        return;
      }
      var user := LoadRecordUser(users, verificationRecord);
      if user.Some? {
        emailVerificationRepository.rows := emails - {verificationRecord.id.value};
        r := Ok(user.value);
      } else {
        r := Err(BadRequest("Associated user not found."));
      }
      assert ResetRedeemed(rows, emails, users, k, now, removeFault, r, forgottenPasswordRepository.rows, emailVerificationRepository.rows);
    }

    /** validateToken: the gate of Validate, applied to an entity in memory;
        only an accepted attempt changes it. */
    method ValidateToken(entity: TokenEntity, now: Millis) returns (o: Outcome)
      modifies entity
      ensures o == VerdictOutcome(Validate(old(entity.Value()), now))
      ensures entity.Value() == if o.Pass? then Advance(old(entity.Value()), now) else old(entity.Value())
    {
      var tokenHasExpired := now > entity.expirationDate;
      if tokenHasExpired {
        return Fail(BadRequest("Token has expired."));
      }
      var minutesSinceLastAttempt :=
        if entity.lastAttemptDate.Some? then MinutesBetween(now, entity.lastAttemptDate.value) else MAX_SAFE_INTEGER;
      var delayAfterSecondAttempt := DELAY_AFTER_SECOND_ATTEMPT;
      if entity.attempts >= 2 && minutesSinceLastAttempt < delayAfterSecondAttempt {
        var unlockTime := UnixSeconds(now + (delayAfterSecondAttempt - minutesSinceLastAttempt) * MS_PER_MINUTE);
        return Fail(RateLimit("Please wait before trying again.", unlockTime));
      }
      entity.attempts := entity.attempts + 1;
      entity.lastAttemptDate := Some(now);
      o := Pass;
    }

    /** What the password-reset request for a loaded `user` does to the reset
        table `rows` and answers: a user with no record gets a new one-day
        record under `freshId`; an existing record must pass the gate
        ('Token has expired.' or the RateLimit otherwise) and is stored back
        advanced in place; nothing is stored when the gate refuses, the mail
        fails or the save fails. */
    ghost predicate ResetIssued(rows: map<Id, TokenRecord>, user: LoadedUser, token: string, now: Millis, freshId: Id,
                                mailFault: Option<Exception>, storageFault: Option<string>,
                                o: Outcome, rows': map<Id, TokenRecord>)
    {
      if user.forgottenPassword.Some? && !Validate(user.forgottenPassword.value, now).Accepted? then
        o == VerdictOutcome(Validate(user.forgottenPassword.value, now)) && rows' == rows
      else if mailFault.Some? then
        o == Fail(mailFault.value) && rows' == rows
      else if storageFault.Some? then
        o == Fail(DatabaseError(storageFault.value)) && rows' == rows
      else if user.forgottenPassword.None? then
        o == Pass && rows' == rows[freshId := CreateForgottenPasswordToken(user.user, token, now).(id := Some(freshId))]
      else
        // the loaded record's own id names the row that is advanced
        var id := user.forgottenPassword.value.id;
        o == Pass && id.Some? && RelatedRow(rows, user.user.id, id.value) &&
        rows' == rows[id.value := Advance(rows[id.value], now)]
    }

    /** The password-reset request shared by initiatePasswordResetProcess and
        the controller's sendEmailForgotPassword, once the user is found:
        create a record or run the gate on the existing one, send the mail,
        then save. `mailFault` is a failure of the mail call. */
    method IssuePasswordReset(user: LoadedUser, token: string, now: Millis, freshId: Id,
                              mailFault: Option<Exception>, storageFault: Option<string>)
      returns (o: Outcome)
      requires Valid()
      requires freshId !in forgottenPasswordRepository.rows
      requires RelationLoaded(true, forgottenPasswordRepository.rows, user.user.id, user.forgottenPassword)
      modifies forgottenPasswordRepository
      ensures Valid()
      ensures ResetIssued(old(forgottenPasswordRepository.rows), user, token, now, freshId, mailFault, storageFault,
                          o, forgottenPasswordRepository.rows)
      // the mail is sent before anything is saved
      ensures mailFault.Some? ==> forgottenPasswordRepository.rows == old(forgottenPasswordRepository.rows)
      ensures o == Pass ==>
                exists k :: RelatedRow(forgottenPasswordRepository.rows, user.user.id, k) &&
                  forgottenPasswordRepository.rows[k].lastAttemptDate == Some(now)
      ensures o.Fail? ==> forgottenPasswordRepository.rows == old(forgottenPasswordRepository.rows)
    {
      var forgottenPasswordEntity: TokenEntity;
      if user.forgottenPassword.None? {
        forgottenPasswordEntity := new TokenEntity(CreateForgottenPasswordToken(user.user, token, now));
      } else {
        forgottenPasswordEntity := new TokenEntity(user.forgottenPassword.value);
        var validated := ValidateToken(forgottenPasswordEntity, now);
        if validated.Fail? {
          return validated;
        }
      }
      if mailFault.Some? {
        return Fail(mailFault.value);
      }
      var saved := SaveForgottenPasswordToken(forgottenPasswordEntity.Value(), freshId, storageFault);
      if saved.Err? {
        return Fail(saved.error);
      }
      o := Pass;
    }

    /** initiatePasswordResetProcess. */
    method InitiatePasswordResetProcess(email: string, token: string, now: Millis, freshId: Id,
                                        mailFault: Option<Exception>, storageFault: Option<string>)
      returns (o: Outcome)
      requires Valid()
      requires freshId !in forgottenPasswordRepository.rows
      modifies forgottenPasswordRepository
      ensures Valid()
      ensures !HasLive(usersService.userRepository.rows, ByEmail(email)) ==>
                o == Fail(BadRequest("User doesn't exist")) &&
                forgottenPasswordRepository.rows == old(forgottenPasswordRepository.rows)
      ensures HasLive(usersService.userRepository.rows, ByEmail(email)) ==>
                exists lu: LoadedUser ::
                  lu.user in usersService.userRepository.rows.Values && Live(lu.user) && lu.user.email == email &&
                  RelationLoaded(true, old(forgottenPasswordRepository.rows), lu.user.id, lu.forgottenPassword) &&
                  ResetIssued(old(forgottenPasswordRepository.rows), lu, token, now, freshId, mailFault, storageFault,
                              o, forgottenPasswordRepository.rows)
      ensures HasLive(usersService.userRepository.rows, ByEmail(email)) && mailFault != Some(BadRequest("User doesn't exist")) ==>
                o != Fail(BadRequest("User doesn't exist"))
      ensures o.Fail? && o.error.RateLimit? ==> forgottenPasswordRepository.rows == old(forgottenPasswordRepository.rows)
      ensures o == Pass ==>
                exists u, k :: u in usersService.userRepository.rows.Values && Live(u) && u.email == email &&
                  RelatedRow(forgottenPasswordRepository.rows, u.id, k) &&
                  forgottenPasswordRepository.rows[k].lastAttemptDate == Some(now)
    {
      var user := FindUserByEmail(email, Relations(false, true));
      if user.None? {
        return Fail(BadRequest("User doesn't exist"));
      }
      o := IssuePasswordReset(user.value, token, now, freshId, mailFault, storageFault);
    }

    /** manageVerificationToken: a user without a confirmation record gets a
        new one; otherwise the old record must pass the gate, is deleted, and
        a new record with one attempt takes over its id. The record returned
        is not saved. */
    method ManageVerificationToken(user: LoadedUser, token: string, now: Millis) returns (r: Result<TokenRecord>)
      requires user.emailVerification.Some? ==> user.emailVerification.value.id.Some?
      modifies emailVerificationRepository
      ensures r.Ok? ==> r.value == CreateVerificationToken(user.user, user.emailVerification, token, now) && r.value.attempts == 1
      ensures user.emailVerification.None? ==> r.Ok? && emailVerificationRepository.rows == old(emailVerificationRepository.rows)
      ensures user.emailVerification.Some? ==>
                var v := Validate(user.emailVerification.value, now);
                (r.Err? <==> !v.Accepted?) &&
                (r.Err? ==> Fail(r.error) == VerdictOutcome(v) &&
                            emailVerificationRepository.rows == old(emailVerificationRepository.rows)) &&
                (r.Ok? ==> emailVerificationRepository.rows ==
                            old(emailVerificationRepository.rows) - {user.emailVerification.value.id.value})
    {
      if user.emailVerification.None? {
        return Ok(CreateVerificationToken(user.user, None, token, now));
      }
      var entity := new TokenEntity(user.emailVerification.value);
      var validated := ValidateToken(entity, now);
      if validated.Fail? {
        return Err(validated.error);
      }
      DeleteEmailVerification(user.emailVerification.value.id.value);
      r := Ok(CreateVerificationToken(user.user, user.emailVerification, token, now));
    }
  }

  /** With one record per token and a healthy store, confirming twice never
      succeeds twice: the first redemption removes the record or leaves it
      unusable. */
  method RepeatConfirmFails(service: VerificationService, token: string, now: Millis)
    returns (first: Result<string>, second: Result<string>)
    requires service.Valid() && UniqueToken(service.emailVerificationRepository.rows, token)
    modifies service.emailVerificationRepository, service.usersService.userRepository
    ensures second.Err?
    ensures first.Ok? ==> second == Err(BadRequest("Email token not found."))
  {
    first := service.VerifyConfirmToken(token, now, None, None);
    second := service.VerifyConfirmToken(token, now, None, None);
  }
}
