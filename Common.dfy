/** Values shared by every part of the model: optional values, outcomes, the
    exceptions the services throw, and time as integer milliseconds. */
module Common {

  datatype Option<+T> = None | Some(value: T)

  /** A row identifier (a uuid in the database). */
  type Id = string

  /** An instant, in milliseconds since the Unix epoch (what a JavaScript
      Date's getTime() returns), or a duration in milliseconds. */
  type Millis = int

  const MS_PER_SECOND: int := 1000
  const MS_PER_MINUTE: int := 60000
  const MS_PER_HOUR: int := 3600000
  const MS_PER_DAY: int := 86400000
  const MS_PER_WEEK: int := 604800000

  /** Number.MAX_SAFE_INTEGER */
  const MAX_SAFE_INTEGER: int := 9007199254740991

  /** Whole minutes from `earlier` to `now`, as dayjs's diff(earlier, 'minute')
      counts them: the quotient is truncated toward zero, so a difference of
      -30 seconds is 0 minutes, not -1. */
  function MinutesBetween(now: Millis, earlier: Millis): (m: int)
    ensures now >= earlier ==> 0 <= m && m * MS_PER_MINUTE <= now - earlier < (m + 1) * MS_PER_MINUTE
    ensures now < earlier ==> m <= 0 && (m - 1) * MS_PER_MINUTE < now - earlier <= m * MS_PER_MINUTE
  {
    var d := now - earlier;
    if d >= 0 then d / MS_PER_MINUTE else -((-d) / MS_PER_MINUTE)
  }

  /** Seconds since the epoch, rounded down, as dayjs's unix() and the JWT
      library's clock compute them. */
  function UnixSeconds(t: Millis): (s: int)
    ensures s * MS_PER_SECOND <= t < (s + 1) * MS_PER_SECOND
  {
    t / MS_PER_SECOND
  }

  /** The exceptions the modelled code throws, by class. */
  datatype Exception =
    | BadRequest(message: string)                  // BadRequestException, HTTP 400
    | NotFound(message: string)                    // NotFoundException, HTTP 404
    | Unauthorized(message: string)                // UnauthorizedException, HTTP 401
    | Forbidden(message: string)                   // ForbiddenException, HTTP 403
    | RateLimit(message: string, unlockTime: int)  // RateLimitException (a BadRequestException)
    | DatabaseError(message: string)               // DatabaseError (a plain Error subclass)
    | EntityNotFound                               // TypeORM's EntityNotFoundError from findOneOrFail
    | TypeError(message: string)                   // a JavaScript TypeError raised by the runtime
    | Error(message: string)                       // `new Error(message)`
    | CryptoError(message: string)                 // an error raised by node's crypto module

  /** HTTP 429 (section 4 of RFC 6585). */
  const TOO_MANY_REQUESTS: int := 429

  /** The JSON body an HttpException carries: RateLimitException passes
      `{statusCode: 429, message, unlockTime}` to its BadRequestException
      parent, so the body says 429 while getStatus() stays 400. */
  datatype ExceptionBody = ExceptionBody(statusCode: int, message: string, unlockTime: Option<int>)

  /** getStatus() of an HttpException; None for errors that are not HttpExceptions. */
  function HttpStatus(e: Exception): (s: Option<int>)
    ensures s.Some? <==> (e.BadRequest? || e.NotFound? || e.Unauthorized? || e.Forbidden? || e.RateLimit?)
    ensures e.RateLimit? ==> s == Some(400)
  {
    match e
    case BadRequest(_) => Some(400)
    case NotFound(_) => Some(404)
    case Unauthorized(_) => Some(401)
    case Forbidden(_) => Some(403)
    case RateLimit(_, _) => Some(400)
    case _ => None
  }

  /** The response body an HttpException carries; only a RateLimitException
      carries an unlock time. */
  function Body(e: Exception): (b: Option<ExceptionBody>)
    ensures b.Some? <==> HttpStatus(e).Some?
    ensures b.Some? && b.value.unlockTime.Some? <==> e.RateLimit?
    ensures e.RateLimit? ==> b == Some(ExceptionBody(TOO_MANY_REQUESTS, e.message, Some(e.unlockTime)))
    ensures b.Some? && !e.RateLimit? ==> b.value.statusCode == HttpStatus(e).value
  {
    match e
    case RateLimit(msg, unlock) => Some(ExceptionBody(TOO_MANY_REQUESTS, msg, Some(unlock)))
    case _ => if HttpStatus(e).Some? then Some(ExceptionBody(HttpStatus(e).value, e.message, None)) else None
  }

  datatype Result<+T> = Ok(value: T) | Err(error: Exception)

  /** The outcome of an operation that either completes or throws. */
  datatype Outcome = Pass | Fail(error: Exception)
}
