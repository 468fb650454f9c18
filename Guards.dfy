/** src/common/guards/jwt-auth.guard.ts and src/common/guards/roles.guard.ts:
    the bearer-token guard (a loose reading of section 2.1 of RFC 6750) and
    the role guard. */
module Guards {
  import opened Common
  import opened Entities
  import opened Strings
  import opened Jwt

  /** The parts of an HTTP request the guards read and write. */
  class Request {
    /** The Authorization header, if sent. */
    var authorization: Option<string>
    /** request.user: the verified token payload. */
    var user: Option<Claims>

    constructor (authorization: Option<string>)
      ensures this.authorization == authorization && user.None?
    {
      this.authorization := authorization;
      user := None;
    }
  }

  /** The token of an Authorization header: its second space-separated
      field; an absent or empty header, a header with no space, or an empty
      second field gives none. The scheme word is not looked at. */
  function ExtractToken(authorization: Option<string>): (token: Option<string>)
    ensures token.Some? ==> token.value != "" && ' ' !in token.value
    ensures authorization.Some? && ' ' !in authorization.value ==> token.None?
  {
    if authorization.None? || authorization.value == "" then None
    else
      var fields := Split(authorization.value, ' ');
      if |fields| < 2 || fields[1] == "" then None
      else
        SplitWithoutSepLength(authorization.value, ' ');
        Some(fields[1])
  }

  /** A string without the separator is one field. */
  lemma SplitWithoutSepLength(s: string, sep: char)
    ensures sep !in s ==> |Split(s, sep)| == 1
  {
    if sep !in s {
      SplitWithoutSep(s, sep);
    }
  }

  /** `scheme token` yields the token, whatever the scheme word is, and
      anything after a further space is ignored. */
  lemma ExtractAnyScheme(scheme: string, token: string, rest: string)
    requires ' ' !in scheme && ' ' !in token && token != ""
    ensures ExtractToken(Some(scheme + " " + token)) == Some(token)
    ensures ExtractToken(Some(scheme + " " + token + " " + rest)) == Some(token)
  {
    var h := scheme + " " + token;
    assert h == scheme + [' '] + token;
    SplitAtFirst(scheme, token, ' ');
    SplitWithoutSep(token, ' ');
    var h2 := scheme + " " + token + " " + rest;
    assert h2 == scheme + [' '] + (token + [' '] + rest);
    SplitAtFirst(scheme, token + [' '] + rest, ' ');
    SplitAtFirst(token, rest, ' ');
  }

  /** `Bearer` with nothing after the space gives no token. */
  lemma EmptyCredentialsIsMissing(scheme: string)
    requires ' ' !in scheme
    ensures ExtractToken(Some(scheme + " ")) == None
  {
    assert scheme + " " == scheme + [' '] + "";
    SplitAtFirst(scheme, "", ' ');
  }

  class JwtAuthGuard {
    const jwtService: JWTService

    constructor (jwt: JWTService)
      ensures jwtService == jwt
    {
      jwtService := jwt;
    }

    /** canActivate: no token is 'Token is missing.'; a token that does not
        verify under the access secret is 'Token is invalid or expired.';
        otherwise request.user becomes the verified payload. */
    method CanActivate(request: Request, now: Millis) returns (r: Result<bool>)
      modifies request
      ensures request.authorization == old(request.authorization)
      ensures ExtractToken(request.authorization).None? ==>
                r == Err(Unauthorized("Token is missing.")) && request.user == old(request.user)
      ensures ExtractToken(request.authorization).Some? &&
              jwtService.VerifyToken(ExtractToken(request.authorization).value, true, now).Err? ==>
                r == Err(Unauthorized("Token is invalid or expired.")) && request.user == old(request.user)
      ensures r.Ok? <==>
                ExtractToken(request.authorization).Some? &&
                jwtService.VerifyToken(ExtractToken(request.authorization).value, true, now).Ok?
      ensures r.Ok? ==>
                r.value &&
                request.user == Some(jwtService.VerifyToken(ExtractToken(request.authorization).value, true, now).value)
    {
      var token := ExtractToken(request.authorization);
      if token.None? {
        return Err(Unauthorized("Token is missing."));
      }
      var payload := jwtService.VerifyToken(token.value, true, now);
      if payload.Err? {
        return Err(Unauthorized("Token is invalid or expired."));
      }
      request.user := Some(payload.value);
      r := Ok(true);
    }
  }

  /** The role stored as `value`, if any. */
  function RoleOfValue(value: string): (r: Option<Role>)
    ensures r.Some? ==> RoleValue(r.value) == value
    ensures forall x: Role :: RoleValue(x) == value ==> r == Some(x)
  {
    if value == "guest" then Some(Guest)
    else if value == "user" then Some(UserRole)
    else if value == "moderator" then Some(Moderator)
    else if value == "admin" then Some(Admin)
    else None
  }

  /** getEnumKeyByEnumValue(RolesEnum, value): the key of the role stored
      as `value`; undefined for any other string. */
  function EnumKeyOf(value: string): (k: Option<string>)
    ensures k.Some? <==> exists x: Role :: RoleValue(x) == value
    ensures forall x: Role :: RoleValue(x) == value ==> k == Some(RoleKey(x))
  {
    match RoleOfValue(value)
    case Some(r) => Some(RoleKey(r))
    case None => None
  }

  /** hasRole: some required role, upper-cased, is the key of the user's role. */
  function HasRole(required: seq<string>, key: Option<string>): (b: bool)
    ensures b <==> key.Some? && exists i :: 0 <= i < |required| && Upper(required[i]) == key.value
    decreases |required|
  {
    if |required| == 0 then false
    else if key.Some? && Upper(required[0]) == key.value then true
    else
      assert forall i :: 1 <= i < |required| ==> required[i] == required[1..][i - 1];
      HasRole(required[1..], key)
  }

  /** RolesGuard.canActivate: without `roles` metadata every request passes;
      otherwise the request needs a user whose role claim is set and matches
      one of the roles, else it is Forbidden. */
  function RolesCanActivate(roles: Option<seq<string>>, user: Option<Claims>): (r: Result<bool>)
    ensures r.Ok? ==> r.value
    ensures r.Err? ==> r.error == Forbidden("User dont have permissions for this route.")
    ensures roles.None? ==> r.Ok?
    ensures roles.Some? ==>
              (r.Ok? <==> user.Some? && Present(user.value.roles) &&
                          exists i :: 0 <= i < |roles.value| && EnumKeyOf(user.value.roles.value) == Some(Upper(roles.value[i])))
  {
    if roles.None? then Ok(true)
    else if user.Some? && Present(user.value.roles) && HasRole(roles.value, EnumKeyOf(user.value.roles.value)) then Ok(true)
    else Err(Forbidden("User dont have permissions for this route."))
  }

  /** A user holding role `role` passes a guard listing that role in any
      letter case. */
  lemma RequiredRoleCaseIgnored(role: Role, required: string, user: Claims)
    requires Upper(required) == RoleKey(role) && user.roles == Some(RoleValue(role))
    ensures RolesCanActivate(Some([required]), Some(user)) == Ok(true)
  {
    assert Upper([required][0]) == RoleKey(role);
  }

  /** An empty list of roles forbids everyone, a user without a role
      included. */
  lemma NoRolesForbidsAll(user: Option<Claims>)
    ensures RolesCanActivate(Some([]), user) == Err(Forbidden("User dont have permissions for this route."))
  {
  }

  /** The user side is not case-folded: a role claim written as the enum
      key rather than the stored value matches nothing. */
  lemma UserRoleCaseMatters(required: seq<string>)
    ensures RolesCanActivate(Some(required), Some(Claims(None, Some("ADMIN"), None))).Err?
  {
  }

  /** Admin-only routes: exactly the users whose role claim is 'admin' pass. */
  lemma AdminOnly(user: Claims)
    ensures RolesCanActivate(Some(["admin"]), Some(user)).Ok? <==> user.roles == Some("admin")
  {
    var key := Upper("admin");
    assert key == "ADMIN";
    if user.roles.Some? && EnumKeyOf(user.roles.value) == Some(Upper(["admin"][0])) {
      assert user.roles.value == "admin";
    }
    if user.roles == Some("admin") {
      assert EnumKeyOf(user.roles.value) == Some(Upper(["admin"][0]));
    }
  }
}
