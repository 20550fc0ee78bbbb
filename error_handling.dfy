/** Middleware/ErrorResponse.cs: the mapping from an exception to the error
    response the global handler would write. The middleware is declared but
    never registered in the application pipeline, so no request reaches it;
    the mapping itself is still total and well defined. */
module ErrorHandling {
  import opened Models

  /** The anonymous objects the handler stores in `Details`. */
  datatype Details =
    | NoDetails
    | S3Details(S3ErrorCode: string)
    | CosmosDetails(CosmosErrorCode: int)
    | DevelopmentDetails(ExceptionType: string, StackTrace: Option<string>, InnerException: Option<string>)

  /** The `ErrorResponse` class. */
  datatype ErrorResponse = ErrorResponse(
    Message: string,
    Code: string,
    StatusCode: int,
    TraceId: string,
    Details: Details,
    Timestamp: Instant)

  /** What the runtime knows about an exception beyond its kind: its stack
      trace and the message of its inner exception. */
  datatype ExceptionContext = ExceptionContext(stackTrace: Option<string>, innerMessage: Option<string>)

  /** The exception kinds no arm of the switch matches, so the default arm
      handles them; the App*Exception types of CustomExceptions.cs are among them. */
  predicate IsUnmatched(ex: Exception) {
    !(|| ex.ValidationException? || ex.UnauthorizedException? || ex.NotFoundException?
      || ex.ConflictException? || ex.AmazonS3Exception? || ex.CosmosException?
      || ex.TimeoutException?)
  }

  /** `BuildErrorResponse`: status, code and message by exception kind, the
      trace id copied through, and in Development the details replaced by
      information about the exception. `environment` is the value of
      ASPNETCORE_ENVIRONMENT. */
  function BuildErrorResponse(ex: Exception, traceId: string, now: Instant,
                              environment: Option<string>, context: ExceptionContext): (r: ErrorResponse)
    ensures r.TraceId == traceId && r.Timestamp == now
    ensures ex.ValidationException? ==>
      r.StatusCode == BAD_REQUEST && r.Code == "VALIDATION_ERROR" && r.Message == ex.Message()
    ensures ex.UnauthorizedException? ==>
      r.StatusCode == UNAUTHORIZED && r.Code == "UNAUTHORIZED" && r.Message == ex.Message()
    ensures ex.NotFoundException? ==>
      r.StatusCode == NOT_FOUND && r.Code == "NOT_FOUND" && r.Message == ex.Message()
    ensures ex.ConflictException? ==>
      r.StatusCode == CONFLICT && r.Code == "CONFLICT" && r.Message == ex.Message()
    ensures ex.AmazonS3Exception? ==>
      r.StatusCode == ex.statusCode && r.Code == "STORAGE_ERROR" && r.Message == "Error accessing cloud storage"
    ensures ex.CosmosException? ==>
      r.StatusCode == ex.statusCode && r.Code == "DATABASE_ERROR" && r.Message == "Database operation failed"
    ensures ex.TimeoutException? ==>
      r.StatusCode == REQUEST_TIMEOUT && r.Code == "TIMEOUT" && r.Message == "Request timed out"
    ensures IsUnmatched(ex) ==>
      r.StatusCode == INTERNAL_SERVER_ERROR && r.Code == "INTERNAL_ERROR" && r.Message == "An unexpected error occurred"
    ensures environment == Some("Development") ==>
      r.Details == DevelopmentDetails(ex.TypeName(), context.stackTrace, context.innerMessage)
    ensures environment != Some("Development") ==>
      r.Details == (if ex.AmazonS3Exception? then S3Details(ex.errorCode)
                    else if ex.CosmosException? then CosmosDetails(ex.subStatusCode)
                    else NoDetails)
  {
    // the switch sets status, code, message and, for the two storage
    // exceptions, the details
    var (status, code, message, details) :=
      match ex
      case ValidationException(_) => (BAD_REQUEST, "VALIDATION_ERROR", ex.Message(), NoDetails)
      case UnauthorizedException(_) => (UNAUTHORIZED, "UNAUTHORIZED", ex.Message(), NoDetails)
      case NotFoundException(_) => (NOT_FOUND, "NOT_FOUND", ex.Message(), NoDetails)
      case ConflictException(_) => (CONFLICT, "CONFLICT", ex.Message(), NoDetails)
      case AmazonS3Exception(s3Status, errorCode, _) =>
        (s3Status, "STORAGE_ERROR", "Error accessing cloud storage", S3Details(errorCode))
      case CosmosException(cosmosStatus, subStatus, _) =>
        (cosmosStatus, "DATABASE_ERROR", "Database operation failed", CosmosDetails(subStatus))
      case TimeoutException(_) => (REQUEST_TIMEOUT, "TIMEOUT", "Request timed out", NoDetails)
      case _ => (INTERNAL_SERVER_ERROR, "INTERNAL_ERROR", "An unexpected error occurred", NoDetails);
    // in Development the details are replaced by the exception's own
    var shown :=
      if environment == Some("Development")
      then DevelopmentDetails(ex.TypeName(), context.stackTrace, context.innerMessage)
      else details;
    ErrorResponse(message, code, status, traceId, shown, now)
  }

  /** The code alone tells which arm of the switch produced a response: the
      eight codes partition the exception kinds. */
  lemma CodeIdentifiesKind(ex: Exception, traceId: string, now: Instant,
                           environment: Option<string>, context: ExceptionContext)
    ensures var code := BuildErrorResponse(ex, traceId, now, environment, context).Code;
      && (code == "VALIDATION_ERROR" <==> ex.ValidationException?)
      && (code == "UNAUTHORIZED" <==> ex.UnauthorizedException?)
      && (code == "NOT_FOUND" <==> ex.NotFoundException?)
      && (code == "CONFLICT" <==> ex.ConflictException?)
      && (code == "STORAGE_ERROR" <==> ex.AmazonS3Exception?)
      && (code == "DATABASE_ERROR" <==> ex.CosmosException?)
      && (code == "TIMEOUT" <==> ex.TimeoutException?)
      && (code == "INTERNAL_ERROR" <==> IsUnmatched(ex))
  {
  }

  /** Only the details depend on the environment: status, code, message,
      trace id and timestamp are the same whatever ASPNETCORE_ENVIRONMENT says. */
  lemma EnvironmentOnlyChangesDetails(ex: Exception, traceId: string, now: Instant,
                                      env1: Option<string>, env2: Option<string>,
                                      context: ExceptionContext)
    ensures var r1, r2 := BuildErrorResponse(ex, traceId, now, env1, context),
                          BuildErrorResponse(ex, traceId, now, env2, context);
      r1.(Details := NoDetails) == r2.(Details := NoDetails)
  {
  }
}
