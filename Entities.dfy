/** The record shapes of the token lifecycle: users, verification tokens
    (email confirmation and password reset), refresh tokens, and the legacy
    timestamp-keyed records; plus a repository, a table of rows keyed by id. */
module Entities {
  import opened Common

  /** RolesEnum: enum key and stored value. */
  datatype Role = Guest | UserRole | Moderator | Admin

  /** The value a role is stored and signed as ('guest', 'user', ...). */
  function RoleValue(r: Role): string
  {
    match r
    case Guest => "guest"
    case UserRole => "user"
    case Moderator => "moderator"
    case Admin => "admin"
  }

  /** The enum key of a role ('GUEST', 'USER', ...). */
  function RoleKey(r: Role): string
  {
    match r
    case Guest => "GUEST"
    case UserRole => "USER"
    case Moderator => "MODERATOR"
    case Admin => "ADMIN"
  }

  /** A row of the users table. `deletedAt` is set by a soft delete; the
      repository's finders skip rows where it is set. The password column is
      kept as given (the bcrypt hooks of the entity are not modelled). */
  datatype UserRecord = UserRecord(
    id: Id,
    email: string,
    password: string,
    login: Option<string>,
    roles: Role,
    confirmed: bool,
    deletedAt: Option<Millis>)

  predicate Live(u: UserRecord) { u.deletedAt.None? }

  /** The shape shared by email-verification and forgotten-password rows
      (TokenVerificationEntity plus the id and the user relation). `id` is
      None on an entity not saved yet; `user` is None when the relation is
      not set or not loaded. */
  datatype TokenRecord = TokenRecord(
    id: Option<Id>,
    token: string,
    expirationDate: Millis,
    attempts: int,
    lastAttemptDate: Option<Millis>,
    user: Option<Id>)

  /** A verification entity loaded into memory, which validateToken updates
      in place. */
  class TokenEntity {
    var id: Option<Id>
    var token: string
    var expirationDate: Millis
    var attempts: int
    var lastAttemptDate: Option<Millis>
    var user: Option<Id>

    function Value(): TokenRecord
      reads this
    {
      TokenRecord(id, token, expirationDate, attempts, lastAttemptDate, user)
    }

    constructor (r: TokenRecord)
      ensures Value() == r
    {
      id, token, expirationDate := r.id, r.token, r.expirationDate;
      attempts, lastAttemptDate, user := r.attempts, r.lastAttemptDate, r.user;
    }
  }

  /** A row of the refresh_tokens table. */
  datatype RefreshTokenRecord = RefreshTokenRecord(id: Id, token: string, expiresIn: Millis, userId: Id)

  /** A row of the legacy email-verification table (src/email/email-verification.entity.ts). */
  datatype LegacyEmailRecord = LegacyEmailRecord(id: Id, email: string, emailToken: string, timestamp: Millis)

  /** A row of the legacy forgotten-password table (src/auth/forgottenPassword.entity.ts). */
  datatype LegacyForgottenRecord = LegacyForgottenRecord(id: Id, token: string, timestamp: Millis, user: Option<Id>)

  /** A database table: rows keyed by their primary key. */
  class Repository<T> {
    var rows: map<Id, T>

    constructor ()
      ensures rows == map[]
    {
      rows := map[];
    }
  }

  /** Every verification row is stored under its own id. */
  ghost predicate TokenRowsKeyed(rows: map<Id, TokenRecord>)
  {
    forall k :: k in rows ==> rows[k].id == Some(k)
  }

  /** Every user row is stored under its own id. */
  ghost predicate UserRowsKeyed(rows: map<Id, UserRecord>)
  {
    forall k :: k in rows ==> rows[k].id == k
  }

  /** No two live users share an email address. */
  ghost predicate UniqueLiveEmails(rows: map<Id, UserRecord>)
  {
    forall a, b :: a in rows && b in rows && Live(rows[a]) && Live(rows[b]) && rows[a].email == rows[b].email ==> a == b
  }
}
