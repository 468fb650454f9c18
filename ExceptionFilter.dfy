/** src/common/ExceptionFilter.ts: GlobalExceptionFilter's decision of the
    status and message of the error response. Logging, Sentry reporting and
    the write of the response are not part of this model. */
module ExceptionFilter {
  import opened Common

  /** The class of a thrown value, checked in the filter's order. */
  datatype Kind =
    | DatabaseErrorKind      // DatabaseError
    | TypeOrmErrorKind       // TypeORMError and its subclasses
    | MicroserviceErrorKind  // MicroserviceError
    | CustomServerKind       // CustomServerException
    | HttpExceptionKind      // HttpException and its subclasses
    | OtherKind              // anything else

  /** A thrown value as the filter reads it: its class, its message, what
      its getStatus() returns if it has one, and its `trace` property. */
  datatype Thrown = Thrown(kind: Kind, message: string, status: Option<int>, trace: Option<string>)

  /** An HttpException always has getStatus(). */
  predicate WellFormed(t: Thrown)
  {
    t.kind.HttpExceptionKind? ==> t.status.Some?
  }

  /** The response body: status, message and, in stage mode, the trace. */
  datatype ResponseData = ResponseData(statusCode: int, message: string, stackTrace: Option<string>)

  const INTERNAL_SERVER_ERROR: int := 500
  const INTERNAL_SERVER_ERROR_MESSAGE: string := "Internal Server Error"

  /** The status the exception's getStatus() passes on, if any: the fourth
      branch of the filter. */
  predicate PassesStatus(t: Thrown)
  {
    !(t.kind.DatabaseErrorKind? || t.kind.TypeOrmErrorKind? || t.kind.MicroserviceErrorKind? || t.kind.CustomServerKind?) &&
    ((t.status.Some? && t.status.value != INTERNAL_SERVER_ERROR) || t.kind.HttpExceptionKind?)
  }

  /** catch: start from 500 'Internal Server Error'; database, TypeORM and
      microservice errors keep it; a CustomServerException gets 500 with its
      own message; otherwise an exception with a getStatus() other than 500,
      or any HttpException, passes on its status and message. In stage mode
      the message is the exception's whichever branch ran, and the trace is
      attached. */
  method Catch(exception: Thrown, isStage: bool) returns (responseData: ResponseData)
    requires WellFormed(exception)
    ensures PassesStatus(exception) ==> responseData.statusCode == exception.status.value
    ensures !PassesStatus(exception) ==> responseData.statusCode == INTERNAL_SERVER_ERROR
    ensures isStage ==> responseData.message == exception.message && responseData.stackTrace == exception.trace
    ensures !isStage ==> responseData.stackTrace.None?
    ensures !isStage ==>
              responseData.message ==
                if PassesStatus(exception) || exception.kind.CustomServerKind? then exception.message
                else INTERNAL_SERVER_ERROR_MESSAGE
  {
    responseData := ResponseData(INTERNAL_SERVER_ERROR, INTERNAL_SERVER_ERROR_MESSAGE, None);
    if exception.kind.DatabaseErrorKind? || exception.kind.TypeOrmErrorKind? {
    } else if exception.kind.MicroserviceErrorKind? {
    } else if exception.kind.CustomServerKind? {
      responseData := responseData.(statusCode := 500, message := exception.message);
    } else if (exception.status.Some? && exception.status.value != 500) || exception.kind.HttpExceptionKind? {
      responseData := responseData.(statusCode := exception.status.value, message := exception.message);
    }
    if isStage {
      responseData := responseData.(message := exception.message, stackTrace := exception.trace);
    }
  }

  /** How the exceptions of this model reach the filter. */
  function Classify(e: Exception): (t: Thrown)
    ensures WellFormed(t)
    ensures t.kind.HttpExceptionKind? <==> HttpStatus(e).Some?
  {
    match e
    case BadRequest(m) => Thrown(HttpExceptionKind, m, HttpStatus(e), None)
    case NotFound(m) => Thrown(HttpExceptionKind, m, HttpStatus(e), None)
    case Unauthorized(m) => Thrown(HttpExceptionKind, m, HttpStatus(e), None)
    case Forbidden(m) => Thrown(HttpExceptionKind, m, HttpStatus(e), None)
    case RateLimit(m, _) => Thrown(HttpExceptionKind, m, HttpStatus(e), None)
    case DatabaseError(m) => Thrown(DatabaseErrorKind, m, None, None)
    case EntityNotFound => Thrown(TypeOrmErrorKind, "Could not find any entity", None, None)
    case TypeError(m) => Thrown(OtherKind, m, None, None)
    case Error(m) => Thrown(OtherKind, m, None, None)
    case CryptoError(m) => Thrown(OtherKind, m, None, None)
  }

  /** Outside stage mode, every exception the services throw answers with
      its own HTTP status and message when it is an HttpException (a
      rate-limit refusal therefore answers 400, not 429), and with 500
      'Internal Server Error' otherwise, database failures included. */
  method RespondTo(e: Exception) returns (responseData: ResponseData)
    ensures HttpStatus(e).Some? ==>
              responseData == ResponseData(HttpStatus(e).value, e.message, None)
    ensures HttpStatus(e).None? ==>
              responseData == ResponseData(INTERNAL_SERVER_ERROR, INTERNAL_SERVER_ERROR_MESSAGE, None)
    ensures e.RateLimit? ==> responseData.statusCode == 400
  {
    responseData := Catch(Classify(e), false);
  }
}
