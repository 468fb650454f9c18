/** src/auth/jwt.service.ts: issuing and checking the access, refresh and
    temporary JSON Web Tokens (RFC 7519). Signing is abstract: a token is a
    string the JWT library produces from its claims, its secret and its
    expiry, and decodes back. */
module Jwt {
  import opened Common
  import opened Entities

  // ---------------------------------------------------------------------
  // Lifetimes
  // ---------------------------------------------------------------------

  /** The fixed-length units a lifetime may be written in. */
  datatype TimeUnit = Milliseconds | Seconds | Minutes | Hours | Days | Weeks

  function UnitMillis(u: TimeUnit): (ms: int)
    ensures ms >= 1
    ensures u == Minutes ==> ms == MS_PER_MINUTE
    ensures u == Days ==> ms == MS_PER_DAY
  {
    match u
    case Milliseconds => 1
    case Seconds => MS_PER_SECOND
    case Minutes => MS_PER_MINUTE
    case Hours => MS_PER_HOUR
    case Days => MS_PER_DAY
    case Weeks => MS_PER_WEEK
  }

  /** The unit an accepted configuration alias names, as the `ms` library
      that computes a token's expiry reads it; the year aliases are accepted
      by the configuration but left out, and anything else is rejected
      (None for both). */
  function ParseUnit(alias: string): (u: Option<TimeUnit>)
    ensures alias in {"ms", "msec", "msecs", "millisecond", "milliseconds"} <==> u == Some(Milliseconds)
    ensures alias in {"s", "sec", "secs", "second", "seconds"} <==> u == Some(Seconds)
    ensures alias in {"m", "min", "mins", "minute", "minutes"} <==> u == Some(Minutes)
    ensures alias in {"h", "hr", "hrs", "hour", "hours"} <==> u == Some(Hours)
    ensures alias in {"d", "day", "days"} <==> u == Some(Days)
    ensures alias in {"w", "week", "weeks"} <==> u == Some(Weeks)
  {
    if alias in {"ms", "msec", "msecs", "millisecond", "milliseconds"} then Some(Milliseconds)
    else if alias in {"s", "sec", "secs", "second", "seconds"} then Some(Seconds)
    else if alias in {"m", "min", "mins", "minute", "minutes"} then Some(Minutes)
    else if alias in {"h", "hr", "hrs", "hour", "hours"} then Some(Hours)
    else if alias in {"d", "day", "days"} then Some(Days)
    else if alias in {"w", "week", "weeks"} then Some(Weeks)
    else None
  }

  /** The duration `value` `unit`s, in milliseconds. */
  function Lifetime(value: int, unit: TimeUnit): (ms: int)
    ensures value >= 0 ==> ms >= value
  {
    value * UnitMillis(unit)
  }

  /** A unit alias the configuration accepts, years aside. */
  type UnitAlias = alias: string | ParseUnit(alias).Some? witness "ms"

  /** The aliases dayjs does not know: its unit normaliser maps only the
      one-letter and the long names. */
  const DAYJS_UNKNOWN_UNITS: set<string> := {"msec", "msecs", "sec", "secs", "min", "mins", "hr", "hrs"}

  /** dayjs's unit normaliser on an accepted alias: the one-letter and `ms`
      shorthands have their own names, any other alias loses one trailing
      's' (the aliases are lower case already). */
  function PrettyUnit(alias: UnitAlias): string
  {
    if alias == "w" then "week"
    else if alias == "d" then "day"
    else if alias == "h" then "hour"
    else if alias == "m" then "minute"
    else if alias == "s" then "second"
    else if alias == "ms" then "millisecond"
    else if alias[|alias| - 1] == 's' then alias[..|alias| - 1]
    else alias
  }

  /** The unit names dayjs resolves the accepted aliases to. */
  lemma PrettyUnitNames(alias: UnitAlias)
    ensures alias in {"d", "day", "days"} ==> PrettyUnit(alias) == "day"
    ensures alias in {"w", "week", "weeks"} ==> PrettyUnit(alias) == "week"
    ensures alias in {"m", "minute", "minutes"} ==> PrettyUnit(alias) == "minute"
    ensures alias in {"h", "hour", "hours"} ==> PrettyUnit(alias) == "hour"
    ensures alias in {"s", "second", "seconds"} ==> PrettyUnit(alias) == "second"
    ensures alias in {"ms", "millisecond", "milliseconds"} ==> PrettyUnit(alias) == "millisecond"
    ensures alias in DAYJS_UNKNOWN_UNITS ==> PrettyUnit(alias) in {"msec", "sec", "min", "hr"}
  {
    if alias == "days" {
      assert alias[..|alias| - 1] == "day";
    } else if alias == "weeks" {
      assert alias[..|alias| - 1] == "week";
    } else if alias == "minutes" {
      assert alias[..|alias| - 1] == "minute";
    } else if alias == "hours" {
      assert alias[..|alias| - 1] == "hour";
    } else if alias == "seconds" {
      assert alias[..|alias| - 1] == "second";
    } else if alias == "milliseconds" {
      assert alias[..|alias| - 1] == "millisecond";
    } else if alias == "msecs" {
      assert alias[..|alias| - 1] == "msec";
    } else if alias == "secs" {
      assert alias[..|alias| - 1] == "sec";
    } else if alias == "mins" {
      assert alias[..|alias| - 1] == "min";
    } else if alias == "hrs" {
      assert alias[..|alias| - 1] == "hr";
    }
  }

  /** The milliseconds dayjs's `add(1, alias)` moves an instant by: a day and
      a week are taken as fixed lengths, and a unit dayjs does not know
      moves it by one millisecond. */
  function DayjsStep(alias: UnitAlias): (ms: int)
    ensures alias in DAYJS_UNKNOWN_UNITS ==> ms == 1
    ensures alias !in DAYJS_UNKNOWN_UNITS ==> ms == UnitMillis(ParseUnit(alias).value)
  {
    PrettyUnitNames(alias);
    var unit := PrettyUnit(alias);
    if unit == "day" then MS_PER_DAY
    else if unit == "week" then MS_PER_WEEK
    else if unit == "minute" then MS_PER_MINUTE
    else if unit == "hour" then MS_PER_HOUR
    else if unit == "second" then MS_PER_SECOND
    else 1
  }

  // ---------------------------------------------------------------------
  // The JWT library
  // ---------------------------------------------------------------------

  /** The claims this service signs: {email, roles, userId}, each possibly
      absent (a temporary token carries only userId). */
  datatype Claims = Claims(email: Option<string>, roles: Option<string>, userId: Option<string>)

  /** What a signed token holds: its claims, the secret it was signed with,
      and its `exp` claim (section 4.1.4 of RFC 7519) in Unix seconds. */
  datatype SignedToken = SignedToken(claims: Claims, secret: string, exp: int)

  /** The JWT library: a token's compact serialization and its parse. */
  datatype JwtLibrary = JwtLibrary(encode: SignedToken -> string, decode: string -> Option<SignedToken>)

  /** Parsing a token the library produced gives back what was signed. */
  ghost predicate Sound(lib: JwtLibrary)
  {
    forall t :: lib.decode(lib.encode(t)) == Some(t)
  }

  /** sign(payload, {secret, expiresIn}): the token expires `lifetime`
      milliseconds after `now`, counted in whole seconds from the issue
      second. */
  function Sign(lib: JwtLibrary, claims: Claims, secret: string, lifetime: Millis, now: Millis): string
  {
    lib.encode(SignedToken(claims, secret, UnixSeconds(now) + lifetime / MS_PER_SECOND))
  }

  /** verify(token, {secret}): the claims of a token signed with `secret`
      whose expiry second has not been reached at `now`. */
  function Verify(lib: JwtLibrary, token: string, secret: string, now: Millis): (c: Option<Claims>)
    ensures c.Some? ==> exists t :: lib.decode(token) == Some(t) && t.secret == secret && UnixSeconds(now) < t.exp && t.claims == c.value
  {
    match lib.decode(token)
    case None => None
    case Some(t) => if t.secret == secret && UnixSeconds(now) < t.exp then Some(t.claims) else None
  }

  /** A signed token verifies, with its own claims, exactly under its own
      secret and before its expiry second. */
  lemma SignThenVerify(lib: JwtLibrary, claims: Claims, secret: string, lifetime: Millis, now: Millis,
                       secret': string, later: Millis)
    requires Sound(lib)
    ensures Verify(lib, Sign(lib, claims, secret, lifetime, now), secret', later) ==
              if secret' == secret && UnixSeconds(later) < UnixSeconds(now) + lifetime / MS_PER_SECOND
              then Some(claims) else None
  {
    var t := SignedToken(claims, secret, UnixSeconds(now) + lifetime / MS_PER_SECOND);
    assert lib.decode(lib.encode(t)) == Some(t);
  }

  // ---------------------------------------------------------------------
  // The service
  // ---------------------------------------------------------------------

  /** The `auth` section of the configuration, units as the aliases
      written there. */
  datatype AuthConfig = AuthConfig(
    jwtSecretKey: string,
    expireValue: int,
    expireUnit: UnitAlias,
    refreshSecretKey: string,
    refreshExpireValue: int,
    refreshExpireUnit: UnitAlias)

  /** The values used when the environment sets none: '15' 'm' and '7' 'd'. */
  const DefaultAuthConfig: AuthConfig := AuthConfig("SECRET", 15, "m", "SECRET-REFRESH", 7, "d")

  /** The lifetime of a temporary login token: 5 minutes. */
  const TEMPORARY_TOKEN_LIFETIME: Millis := 5 * MS_PER_MINUTE

  /** What generateToken returns. */
  datatype TokenPair = TokenPair(accessToken: string, refreshToken: string,
                                 expireDateAccessToken: Millis, expireDateRefreshToken: Millis)

  /** A claim is present when it is set and not empty (a JavaScript truthy
      string). */
  predicate Present(claim: Option<string>)
  {
    claim.Some? && claim.value != ""
  }

  class JWTService {
    /** The JWT library, registered with the access secret as its default. */
    const lib: JwtLibrary
    const accessSecret: string
    const expireValue: int
    const expireUnit: UnitAlias
    const refreshSecret: string
    const expireRefreshValue: int
    const expireRefreshUnit: UnitAlias

    constructor (lib: JwtLibrary, config: AuthConfig)
      ensures this.lib == lib
      ensures accessSecret == config.jwtSecretKey && refreshSecret == config.refreshSecretKey
      ensures expireValue == config.expireValue && expireUnit == config.expireUnit
      ensures expireRefreshValue == config.refreshExpireValue && expireRefreshUnit == config.refreshExpireUnit
    {
      this.lib := lib;
      accessSecret := config.jwtSecretKey;
      expireValue := config.expireValue;
      expireUnit := config.expireUnit;
      refreshSecret := config.refreshSecretKey;
      expireRefreshValue := config.refreshExpireValue;
      expireRefreshUnit := config.refreshExpireUnit;
    }

    /** The access lifetime, `${value}${unit}` as the `ms` library reads it. */
    function AccessLifetime(): Millis
    {
      Lifetime(expireValue, ParseUnit(expireUnit).value)
    }

    /** The refresh lifetime, `${value}${unit}` as the `ms` library reads it
        (computed by the service, though no token is signed with it). */
    function RefreshLifetime(): Millis
    {
      Lifetime(expireRefreshValue, ParseUnit(expireRefreshUnit).value)
    }

    /** generateTemporaryAuthToken: only {userId}, signed with the library's
        default secret (the access secret) for five minutes. */
    function GenerateTemporaryAuthToken(userId: Id, now: Millis): (t: string)
      ensures Sound(lib) ==>
                lib.decode(t) == Some(SignedToken(Claims(None, None, Some(userId)), accessSecret, UnixSeconds(now) + 300))
    {
      Sign(lib, Claims(None, None, Some(userId)), accessSecret, TEMPORARY_TOKEN_LIFETIME, now)
    }

    /** generateToken: both tokens sign the same payload {email, roles,
        userId} with the access secret and the access lifetime; the two
        expiry dates are `now` moved by dayjs by the configured values and
        units. They agree with the `ms` lifetimes except for the units dayjs
        does not know, where each unit counts one millisecond. */
    function GenerateToken(payload: Claims, now: Millis): (p: TokenPair)
      ensures expireUnit !in DAYJS_UNKNOWN_UNITS ==> p.expireDateAccessToken == now + AccessLifetime()
      ensures expireUnit in DAYJS_UNKNOWN_UNITS ==> p.expireDateAccessToken == now + expireValue
      ensures expireRefreshUnit !in DAYJS_UNKNOWN_UNITS ==> p.expireDateRefreshToken == now + RefreshLifetime()
      ensures expireRefreshUnit in DAYJS_UNKNOWN_UNITS ==> p.expireDateRefreshToken == now + expireRefreshValue
    {
      var accessToken := Sign(lib, payload, accessSecret, AccessLifetime(), now);
      var refreshToken := Sign(lib, payload, accessSecret, AccessLifetime(), now);
      TokenPair(accessToken, refreshToken,
                now + expireValue * DayjsStep(expireUnit),
                now + expireRefreshValue * DayjsStep(expireRefreshUnit))
    }

    /** verifyToken(token, isAccessToken): verification under the access or
        the refresh secret; any failure is an Unauthorized. */
    function VerifyToken(token: string, isAccessToken: bool, now: Millis): (r: Result<Claims>)
      ensures r.Err? ==> r.error == Unauthorized("Token is invalid or expired")
      ensures r.Ok? <==> Verify(lib, token, if isAccessToken then accessSecret else refreshSecret, now).Some?
    {
      var secret := if isAccessToken then accessSecret else refreshSecret;
      match Verify(lib, token, secret, now)
      case Some(claims) => Ok(claims)
      case None => Err(Unauthorized("Token is invalid or expired"))
    }

    /** refreshToken: a token verified under the refresh secret whose
        payload has all three claims yields a new pair for that payload. */
    function RefreshToken(token: string, now: Millis): (r: Result<TokenPair>)
      ensures VerifyToken(token, false, now).Err? ==> r == Err(Unauthorized("Token is invalid or expired"))
      ensures VerifyToken(token, false, now).Ok? ==>
                var c := VerifyToken(token, false, now).value;
                r == if Present(c.email) && Present(c.roles) && Present(c.userId)
                     then Ok(GenerateToken(c, now)) else Err(Unauthorized("Invalid token payload"))
    {
      match VerifyToken(token, false, now)
      case Err(e) => Err(e)
      case Ok(decodedToken) =>
        if Present(decodedToken.email) && Present(decodedToken.roles) && Present(decodedToken.userId)
        then Ok(GenerateToken(decodedToken, now))
        else Err(Unauthorized("Invalid token payload"))
    }
  }

  /** The two tokens of a pair are the same token: one payload, one secret,
      one lifetime, one issue second. */
  lemma PairTokensEqual(service: JWTService, payload: Claims, now: Millis)
    ensures service.GenerateToken(payload, now).accessToken == service.GenerateToken(payload, now).refreshToken
  {
  }

  /** An access token verifies as an access token, with exactly the payload
      it was issued for, until its expiry second. */
  lemma AccessTokenVerifies(service: JWTService, payload: Claims, now: Millis, later: Millis)
    requires Sound(service.lib)
    ensures var r := service.VerifyToken(service.GenerateToken(payload, now).accessToken, true, later);
            r.Ok? <==> UnixSeconds(later) < UnixSeconds(now) + service.AccessLifetime() / MS_PER_SECOND
    ensures var r := service.VerifyToken(service.GenerateToken(payload, now).accessToken, true, later);
            r.Ok? ==> r.value == payload
  {
    SignThenVerify(service.lib, payload, service.accessSecret, service.AccessLifetime(), now, service.accessSecret, later);
  }

  /** The refresh token of a pair is signed with the access secret, so when
      the two secrets differ it never passes verification as a refresh
      token, and refreshToken always rejects it. */
  lemma RefreshTokenNeverVerifies(service: JWTService, payload: Claims, now: Millis, later: Millis)
    requires Sound(service.lib)
    requires service.accessSecret != service.refreshSecret
    ensures service.VerifyToken(service.GenerateToken(payload, now).refreshToken, false, later).Err?
    ensures service.RefreshToken(service.GenerateToken(payload, now).refreshToken, later).Err?
  {
    SignThenVerify(service.lib, payload, service.accessSecret, service.AccessLifetime(), now, service.refreshSecret, later);
  }

  /** The default configuration has distinct secrets, a 15-minute access
      lifetime and a 7-day refresh lifetime. */
  lemma DefaultConfigLifetimes()
    ensures DefaultAuthConfig.jwtSecretKey != DefaultAuthConfig.refreshSecretKey
    ensures Lifetime(DefaultAuthConfig.expireValue, ParseUnit(DefaultAuthConfig.expireUnit).value) == 15 * MS_PER_MINUTE
    ensures Lifetime(DefaultAuthConfig.refreshExpireValue, ParseUnit(DefaultAuthConfig.refreshExpireUnit).value) == 7 * MS_PER_DAY
    ensures DefaultAuthConfig.expireUnit !in DAYJS_UNKNOWN_UNITS && DefaultAuthConfig.refreshExpireUnit !in DAYJS_UNKNOWN_UNITS
  {
  }

  /** With a refresh unit written 'hrs', the `ms` reading is hours but the
      dayjs expiry date that the refresh ledger keeps is only that many
      milliseconds away: seven 'hrs' expire the ledger row 7 ms after issue. */
  lemma ShortUnitExpiresLedgerAtOnce(service: JWTService, payload: Claims, now: Millis)
    requires service.expireRefreshUnit == "hrs" && service.expireRefreshValue == 7
    ensures service.RefreshLifetime() == 7 * MS_PER_HOUR
    ensures service.GenerateToken(payload, now).expireDateRefreshToken == now + 7
  {
  }

  /** A temporary token carries only the user id, verifies under the access
      secret for five minutes (to the second) and never as a refresh token
      when the secrets differ. */
  lemma TemporaryTokenClaims(service: JWTService, userId: Id, now: Millis, later: Millis)
    requires Sound(service.lib)
    ensures var r := service.VerifyToken(service.GenerateTemporaryAuthToken(userId, now), true, later);
            (r.Ok? <==> UnixSeconds(later) < UnixSeconds(now) + 300) &&
            (r.Ok? ==> r.value == Claims(None, None, Some(userId)))
    ensures service.accessSecret != service.refreshSecret ==>
              service.VerifyToken(service.GenerateTemporaryAuthToken(userId, now), false, later).Err?
  {
    SignThenVerify(service.lib, Claims(None, None, Some(userId)), service.accessSecret, TEMPORARY_TOKEN_LIFETIME, now,
                   service.accessSecret, later);
    SignThenVerify(service.lib, Claims(None, None, Some(userId)), service.accessSecret, TEMPORARY_TOKEN_LIFETIME, now,
                   service.refreshSecret, later);
  }
}
