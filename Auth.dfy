/** src/auth/auth.service.ts: password login, registration, and the ledger
    of refresh tokens that refreshAccessToken consumes. */
module Auth {
  import opened Common
  import opened Entities
  import opened Users
  import opened Jwt

  /** The payload signed for a user: {email, roles, userId}. */
  function UserClaims(u: UserRecord): (c: Claims)
    ensures Present(c.userId) <==> u.id != ""
    ensures Present(c.roles)
  {
    Claims(Some(u.email), Some(RoleValue(u.roles)), Some(u.id))
  }

  /** Some ledger row holds `token`. */
  ghost predicate HasRefreshToken(rows: map<Id, RefreshTokenRecord>, token: string)
  {
    exists k :: k in rows && rows[k].token == token
  }

  /** The ledger without the rows holding `token`. */
  function WithoutToken(rows: map<Id, RefreshTokenRecord>, token: string): (r: map<Id, RefreshTokenRecord>)
    ensures !HasRefreshToken(r, token)
    ensures forall k :: k in rows && rows[k].token != token ==> k in r && r[k] == rows[k]
    ensures forall k :: k in r ==> k in rows
  {
    map k | k in rows && rows[k].token != token :: rows[k]
  }

  /** What register returns: the new user and the token pair. */
  datatype UserWithToken = UserWithToken(user: UserRecord, token: TokenPair)

  class AuthService {
    const userService: UsersService
    const jwtService: JWTService
    const refreshTokensRepository: Repository<RefreshTokenRecord>

    constructor (users: UsersService, jwt: JWTService, refreshTokens: Repository<RefreshTokenRecord>)
      ensures userService == users && jwtService == jwt && refreshTokensRepository == refreshTokens
    {
      userService := users;
      jwtService := jwt;
      refreshTokensRepository := refreshTokens;
    }

    /** saveUserToken: one new ledger row {token, user, expiresIn}; a
        storage failure becomes a DatabaseError and stores nothing. */
    method SaveUserToken(refreshToken: string, user: UserRecord, expiresIn: Millis, freshId: Id, storageFault: Option<string>)
      returns (r: Result<RefreshTokenRecord>)
      requires freshId !in refreshTokensRepository.rows
      modifies refreshTokensRepository
      ensures storageFault.Some? ==>
                r == Err(DatabaseError(storageFault.value)) &&
                refreshTokensRepository.rows == old(refreshTokensRepository.rows)
      ensures storageFault.None? ==>
                r == Ok(RefreshTokenRecord(freshId, refreshToken, expiresIn, user.id)) &&
                refreshTokensRepository.rows == old(refreshTokensRepository.rows)[freshId := r.value]
    {
      var tokenPayload := RefreshTokenRecord(freshId, refreshToken, expiresIn, user.id);
      if storageFault.Some? {
        return Err(DatabaseError(storageFault.value));
      }
      refreshTokensRepository.rows := refreshTokensRepository.rows[freshId := tokenPayload];
      r := Ok(tokenPayload);
    }

    /** deleteToken: removes every ledger row holding the token. */
    method DeleteToken(refreshToken: string)
      modifies refreshTokensRepository
      ensures refreshTokensRepository.rows == WithoutToken(old(refreshTokensRepository.rows), refreshToken)
    {
      refreshTokensRepository.rows := WithoutToken(refreshTokensRepository.rows, refreshToken);
    }

    /** validateUserByPassword: an unknown email is a BadRequest, a wrong
        password an Unauthorized; the user is returned only when both match.
        With one live user per email, success means exactly that this user's
        password was given. */
    method ValidateUserByPassword(email: string, password: string) returns (r: Result<UserRecord>)
      ensures r == Err(BadRequest("User doesn't exist")) <==> !HasLive(userService.userRepository.rows, ByEmail(email))
      ensures r.Err? ==> r.error in {BadRequest("User doesn't exist"), Unauthorized("Unauthorized")}
      ensures r.Ok? ==> r.value in userService.userRepository.rows.Values && Live(r.value) &&
                        r.value.email == email && r.value.password == password
      ensures UniqueLiveEmails(userService.userRepository.rows) ==>
                (r.Ok? <==> exists k :: k in userService.userRepository.rows &&
                              Live(userService.userRepository.rows[k]) &&
                              userService.userRepository.rows[k].email == email &&
                              userService.userRepository.rows[k].password == password)
    {
      var user := userService.FindByEmail(email);
      if user.None? {
        return Err(BadRequest("User doesn't exist"));
      }
      var isMatch := user.value.password == password;
      if !isMatch {
        r := Err(Unauthorized("Unauthorized"));
        ghost var rows := userService.userRepository.rows;
        if UniqueLiveEmails(rows) {
          forall k | k in rows && Live(rows[k]) && rows[k].email == email
            ensures rows[k].password != password
          {
            var j :| j in rows && rows[j] == user.value;
            assert j == k;
          }
        }
        return;
      }
      r := Ok(user.value);
    }

    /** register: creates the user, issues a pair for it, and records the
        refresh token with the refresh expiry date, exactly one ledger row.
        A failed ledger write leaves the new user in place. */
    method Register(email: string, password: string, now: Millis, userId: Id, tokenId: Id, storageFault: Option<string>)
      returns (r: Result<UserWithToken>)
      requires userId !in userService.userRepository.rows
      requires tokenId !in refreshTokensRepository.rows
      modifies userService.userRepository, refreshTokensRepository
      ensures HasLive(old(userService.userRepository.rows), ByEmail(email)) ==>
                r == Err(BadRequest("User already exists")) &&
                userService.userRepository.rows == old(userService.userRepository.rows) &&
                refreshTokensRepository.rows == old(refreshTokensRepository.rows)
      ensures !HasLive(old(userService.userRepository.rows), ByEmail(email)) ==>
                userService.userRepository.rows == old(userService.userRepository.rows)[userId := NewUser(userId, email, password)]
      ensures !HasLive(old(userService.userRepository.rows), ByEmail(email)) && storageFault.Some? ==>
                r == Err(DatabaseError(storageFault.value)) &&
                refreshTokensRepository.rows == old(refreshTokensRepository.rows)
      ensures !HasLive(old(userService.userRepository.rows), ByEmail(email)) && storageFault.None? ==>
                r.Ok? && r.value.user == NewUser(userId, email, password) &&
                r.value.token == jwtService.GenerateToken(UserClaims(r.value.user), now) &&
                refreshTokensRepository.rows == old(refreshTokensRepository.rows)[tokenId :=
                  RefreshTokenRecord(tokenId, r.value.token.refreshToken, r.value.token.expireDateRefreshToken, userId)]
    {
      var created := userService.Create(email, password, userId);
      if created.Err? {
        return Err(created.error);
      }
      var user := created.value;
      var token := jwtService.GenerateToken(UserClaims(user), now);
      var saved := SaveUserToken(token.refreshToken, user, token.expireDateRefreshToken, tokenId, storageFault);
      if saved.Err? {
        return Err(saved.error);
      }
      r := Ok(UserWithToken(user, token));
    }

    /** login: checks the password and issues a pair; the ledger is not
        touched (this method has no modifies clause). */
    method Login(email: string, password: string, now: Millis) returns (r: Result<(UserRecord, string, string)>)
      ensures r == Err(BadRequest("User doesn't exist")) <==> !HasLive(userService.userRepository.rows, ByEmail(email))
      ensures r.Ok? ==>
                r.value.0 in userService.userRepository.rows.Values && Live(r.value.0) &&
                r.value.0.email == email && r.value.0.password == password &&
                r.value.1 == jwtService.GenerateToken(UserClaims(r.value.0), now).accessToken &&
                r.value.2 == jwtService.GenerateToken(UserClaims(r.value.0), now).refreshToken
    {
      var user := ValidateUserByPassword(email, password);
      if user.Err? {
        return Err(user.error);
      }
      var pair := jwtService.GenerateToken(UserClaims(user.value), now);
      r := Ok((user.value, pair.accessToken, pair.refreshToken));
    }

    /** refreshAccessToken: the token must verify under the refresh secret
        before the ledger is read; then a ledger row holding it must exist
        and not be past its expiry (equal is still valid); the rows holding
        the token are deleted and a new access token is issued for the
        verified payload. */
    method RefreshAccessToken(refreshToken: string, now: Millis) returns (r: Result<string>)
      modifies refreshTokensRepository
      ensures jwtService.VerifyToken(refreshToken, false, now).Err? ==>
                r == Err(Unauthorized("Token is invalid or expired")) &&
                refreshTokensRepository.rows == old(refreshTokensRepository.rows)
      ensures jwtService.VerifyToken(refreshToken, false, now).Ok? &&
              (forall k :: k in old(refreshTokensRepository.rows) && old(refreshTokensRepository.rows)[k].token == refreshToken ==>
                             now > old(refreshTokensRepository.rows)[k].expiresIn) ==>
                r == Err(Unauthorized("Refresh token is invalid or expired")) &&
                refreshTokensRepository.rows == old(refreshTokensRepository.rows)
      ensures r.Err? ==> refreshTokensRepository.rows == old(refreshTokensRepository.rows)
      ensures r.Ok? ==>
                jwtService.VerifyToken(refreshToken, false, now).Ok? &&
                (exists k :: k in old(refreshTokensRepository.rows) && old(refreshTokensRepository.rows)[k].token == refreshToken &&
                             now <= old(refreshTokensRepository.rows)[k].expiresIn) &&
                r.value == jwtService.GenerateToken(jwtService.VerifyToken(refreshToken, false, now).value, now).accessToken &&
                refreshTokensRepository.rows == WithoutToken(old(refreshTokensRepository.rows), refreshToken)
    {
      var decodedToken := jwtService.VerifyToken(refreshToken, false, now);
      if decodedToken.Err? {
        return Err(decodedToken.error);
      }
      var rows := refreshTokensRepository.rows;
      if !(exists k :: k in rows && rows[k].token == refreshToken) {
        return Err(Unauthorized("Refresh token is invalid or expired"));
      }
      var k :| k in rows && rows[k].token == refreshToken;
      var tokenEntity := rows[k];
      if now > tokenEntity.expiresIn {
        return Err(Unauthorized("Refresh token is invalid or expired"));
      }
      DeleteToken(refreshToken);
      r := Ok(jwtService.GenerateToken(decodedToken.value, now).accessToken);
    }
  }

  /** A refresh token is good for one refresh: the first success deletes
      its ledger rows, so a second refresh with it fails. */
  method SecondRefreshFails(service: AuthService, token: string, now: Millis, later: Millis)
    returns (first: Result<string>, second: Result<string>)
    modifies service.refreshTokensRepository
    ensures first.Ok? ==> second.Err?
    ensures first.Ok? && service.jwtService.VerifyToken(token, false, later).Ok? ==>
              second == Err(Unauthorized("Refresh token is invalid or expired"))
  {
    first := service.RefreshAccessToken(token, now);
    second := service.RefreshAccessToken(token, later);
  }

  /** With the two secrets distinct, the refresh token of a pair that
      register or login hands out can never be refreshed: it is signed with
      the access secret. The ledger is left as it was. */
  method IssuedRefreshTokenIsRejected(service: AuthService, payload: Claims, now: Millis, later: Millis)
    returns (refreshed: Result<string>)
    requires Sound(service.jwtService.lib)
    requires service.jwtService.accessSecret != service.jwtService.refreshSecret
    modifies service.refreshTokensRepository
    ensures refreshed == Err(Unauthorized("Token is invalid or expired"))
    ensures service.refreshTokensRepository.rows == old(service.refreshTokensRepository.rows)
  {
    RefreshTokenNeverVerifies(service.jwtService, payload, now, later);
    refreshed := service.RefreshAccessToken(service.jwtService.GenerateToken(payload, now).refreshToken, later);
  }
}
