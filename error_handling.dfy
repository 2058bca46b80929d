/**
 * GlobalExceptionHandler: the single place where an exception becomes an HTTP
 * error response. Each handler is a function of the exception and of the
 * request context: the request URI, the correlation id found in the logging
 * context (MDC) and the clock reading that `LocalDateTime.now()` would give.
 */
module ErrorHandling {
  import opened Common

  const NotFoundStatus := 404
  const BadRequestStatus := 400
  const ConflictStatus := 409
  const InternalServerErrorStatus := 500
  const BadGatewayStatus := 502

  const GenericMessage := "An unexpected error occurred"
  const ValidationMessage := "Request validation failed"

  /** What a handler reads besides the exception. */
  datatype RequestContext = RequestContext(requestUri: string, mdcCorrelationId: Option<string>, now: int)

  /**
   * A binding error of a request body. `rejectedValue` stands for the rejected
   * Java object (null or some value); it is copied, never inspected.
   */
  datatype FieldError = FieldError(field: string, defaultMessage: Option<string>, rejectedValue: Option<string>)

  /** A bean-validation violation, with its property path already rendered. */
  datatype ConstraintViolation = ConstraintViolation(propertyPath: string, message: Option<string>, invalidValue: Option<string>)

  /** One entry of the `details` list of a validation response. */
  datatype ValidationError = ValidationError(field: string, message: Option<string>, rejectedValue: Option<string>)

  /** The JSON error body; `details` is None when the builder never set it. */
  datatype ErrorResponse = ErrorResponse(
    timestamp: int,
    status: int,
    error: string,
    message: Option<string>,
    correlationId: Option<string>,
    path: string,
    details: Option<seq<ValidationError>>)

  /** The HTTP status of the response and its body. */
  datatype ResponseEntity = ResponseEntity(httpStatus: int, body: ErrorResponse)

  /**
   * The exceptions the handler distinguishes, each with what its handler
   * reads. `OtherException` is every exception no more specific handler
   * takes. Violations are listed in the order the exception yields them.
   */
  datatype HandledException =
    | NotFoundException(message: Option<string>)
    | BadRequestException(message: Option<string>)
    | ConflictException(message: Option<string>)
    | ExternalServiceException(statusCode: int, message: Option<string>)
    | MethodArgumentNotValidException(fieldErrors: seq<FieldError>)
    | ConstraintViolationException(violations: seq<ConstraintViolation>)
    | OtherException(message: Option<string>)

  /**
   * `buildErrorResponse`: the shared envelope. The body's status is the
   * response's status, the correlation id is the MDC value and the path is
   * the request URI; no details are set.
   */
  function BuildErrorResponse(status: int, error: string, message: Option<string>, ctx: RequestContext): (r: ResponseEntity)
    ensures r.httpStatus == status && r.body.status == r.httpStatus
    ensures r.body.error == error && r.body.message == message
    ensures r.body.correlationId == ctx.mdcCorrelationId && r.body.path == ctx.requestUri
    ensures r.body.timestamp == ctx.now && r.body.details.None?
  {
    ResponseEntity(status, ErrorResponse(ctx.now, status, error, message, ctx.mdcCorrelationId, ctx.requestUri, None))
  }

  /** `mapToValidationError(FieldError)`. */
  function MapFieldError(e: FieldError): (v: ValidationError)
    ensures v.field == e.field && v.message == e.defaultMessage && v.rejectedValue == e.rejectedValue
  {
    ValidationError(e.field, e.defaultMessage, e.rejectedValue)
  }

  /** `mapToValidationError(ConstraintViolation)`. */
  function MapConstraintViolation(c: ConstraintViolation): (v: ValidationError)
    ensures v.field == c.propertyPath && v.message == c.message && v.rejectedValue == c.invalidValue
  {
    ValidationError(c.propertyPath, c.message, c.invalidValue)
  }

  /** The stream `map(mapToValidationError).collect(toList())` over field errors. */
  function MapFieldErrors(s: seq<FieldError>): (r: seq<ValidationError>)
    ensures |r| == |s|
    ensures forall i :: 0 <= i < |s| ==>
              r[i].field == s[i].field && r[i].message == s[i].defaultMessage && r[i].rejectedValue == s[i].rejectedValue
  {
    if s == [] then [] else [MapFieldError(s[0])] + MapFieldErrors(s[1..])
  }

  /** The same stream over constraint violations. */
  function MapConstraintViolations(s: seq<ConstraintViolation>): (r: seq<ValidationError>)
    ensures |r| == |s|
    ensures forall i :: 0 <= i < |s| ==>
              r[i].field == s[i].propertyPath && r[i].message == s[i].message && r[i].rejectedValue == s[i].invalidValue
  {
    if s == [] then [] else [MapConstraintViolation(s[0])] + MapConstraintViolations(s[1..])
  }

  /** A validation response: 400, fixed error label and message, and the details. */
  function ValidationResponse(details: seq<ValidationError>, ctx: RequestContext): (r: ResponseEntity)
    ensures r.httpStatus == BadRequestStatus && r.body.status == BadRequestStatus
    ensures r.body.error == "Validation Failed" && r.body.message == Some(ValidationMessage)
    ensures r.body.correlationId == ctx.mdcCorrelationId && r.body.path == ctx.requestUri
    ensures r.body.timestamp == ctx.now && r.body.details == Some(details)
  {
    ResponseEntity(BadRequestStatus,
      ErrorResponse(ctx.now, BadRequestStatus, "Validation Failed", Some(ValidationMessage),
                    ctx.mdcCorrelationId, ctx.requestUri, Some(details)))
  }

  function HandleNotFoundException(message: Option<string>, ctx: RequestContext): (r: ResponseEntity)
    ensures r.httpStatus == NotFoundStatus && r.body.error == "Not Found" && r.body.message == message
  {
    BuildErrorResponse(NotFoundStatus, "Not Found", message, ctx)
  }

  function HandleBadRequestException(message: Option<string>, ctx: RequestContext): (r: ResponseEntity)
    ensures r.httpStatus == BadRequestStatus && r.body.error == "Bad Request" && r.body.message == message
  {
    BuildErrorResponse(BadRequestStatus, "Bad Request", message, ctx)
  }

  function HandleConflictException(message: Option<string>, ctx: RequestContext): (r: ResponseEntity)
    ensures r.httpStatus == ConflictStatus && r.body.error == "Conflict" && r.body.message == message
  {
    BuildErrorResponse(ConflictStatus, "Conflict", message, ctx)
  }

  /**
   * The upstream status when `HttpStatus.resolve` knows it, 502 otherwise.
   * `known` is the set of codes `HttpStatus` declares.
   */
  function HandleExternalServiceException(statusCode: int, message: Option<string>, ctx: RequestContext, known: set<int>): (r: ResponseEntity)
    ensures statusCode in known ==> r.httpStatus == statusCode
    ensures statusCode !in known ==> r.httpStatus == BadGatewayStatus
    ensures r.body.error == "External Service Error" && r.body.message == message
  {
    var status := if statusCode in known then statusCode else BadGatewayStatus;
    BuildErrorResponse(status, "External Service Error", message, ctx)
  }

  /** One detail per field error, in order. */
  function HandleValidationException(fieldErrors: seq<FieldError>, ctx: RequestContext): (r: ResponseEntity)
    ensures r.httpStatus == BadRequestStatus && r.body.details.Some?
    ensures |r.body.details.value| == |fieldErrors|
    ensures forall i :: 0 <= i < |fieldErrors| ==>
              var d := r.body.details.value[i];
              d.field == fieldErrors[i].field && d.message == fieldErrors[i].defaultMessage && d.rejectedValue == fieldErrors[i].rejectedValue
  {
    ValidationResponse(MapFieldErrors(fieldErrors), ctx)
  }

  /** One detail per violation, in order. */
  function HandleConstraintViolationException(violations: seq<ConstraintViolation>, ctx: RequestContext): (r: ResponseEntity)
    ensures r.httpStatus == BadRequestStatus && r.body.details.Some?
    ensures |r.body.details.value| == |violations|
    ensures forall i :: 0 <= i < |violations| ==>
              var d := r.body.details.value[i];
              d.field == violations[i].propertyPath && d.message == violations[i].message && d.rejectedValue == violations[i].invalidValue
  {
    ValidationResponse(MapConstraintViolations(violations), ctx)
  }

  /** 500 with a fixed message: the exception's own message never reaches the caller. */
  function HandleGenericException(message: Option<string>, ctx: RequestContext): (r: ResponseEntity)
    ensures r.httpStatus == InternalServerErrorStatus && r.body.error == "Internal Server Error"
    ensures r.body.message == Some(GenericMessage)
  {
    BuildErrorResponse(InternalServerErrorStatus, "Internal Server Error", Some(GenericMessage), ctx)
  }

  /** The framework's choice of handler: the one declared for the exception's type. */
  function Handle(ex: HandledException, ctx: RequestContext, known: set<int>): (r: ResponseEntity)
    ensures r.body.status == r.httpStatus
    ensures r.body.correlationId == ctx.mdcCorrelationId && r.body.path == ctx.requestUri
    ensures r.body.timestamp == ctx.now
  {
    match ex
    case NotFoundException(m) => HandleNotFoundException(m, ctx)
    case BadRequestException(m) => HandleBadRequestException(m, ctx)
    case ConflictException(m) => HandleConflictException(m, ctx)
    case ExternalServiceException(code, m) => HandleExternalServiceException(code, m, ctx, known)
    case MethodArgumentNotValidException(errs) => HandleValidationException(errs, ctx)
    case ConstraintViolationException(vs) => HandleConstraintViolationException(vs, ctx)
    case OtherException(m) => HandleGenericException(m, ctx)
  }

  // ---------------------------------------------------------------------
  // The error taxonomy, stated independently of the handlers
  // ---------------------------------------------------------------------

  datatype ErrorKind = NotFoundKind | BadRequestKind | ConflictKind | ValidationKind | ExternalKind | UnexpectedKind

  function KindOf(ex: HandledException): ErrorKind {
    match ex
    case NotFoundException(_) => NotFoundKind
    case BadRequestException(_) => BadRequestKind
    case ConflictException(_) => ConflictKind
    case ExternalServiceException(_, _) => ExternalKind
    case MethodArgumentNotValidException(_) => ValidationKind
    case ConstraintViolationException(_) => ValidationKind
    case OtherException(_) => UnexpectedKind
  }

  /** The status each kind maps to; an external error passes a resolvable upstream code through. */
  function TaxonomyStatus(kind: ErrorKind, upstream: int, known: set<int>): int {
    match kind
    case NotFoundKind => 404
    case BadRequestKind => 400
    case ConflictKind => 409
    case ValidationKind => 400
    case ExternalKind => if upstream in known then upstream else 502
    case UnexpectedKind => 500
  }

  function TaxonomyLabel(kind: ErrorKind): string {
    match kind
    case NotFoundKind => "Not Found"
    case BadRequestKind => "Bad Request"
    case ConflictKind => "Conflict"
    case ValidationKind => "Validation Failed"
    case ExternalKind => "External Service Error"
    case UnexpectedKind => "Internal Server Error"
  }

  function UpstreamCode(ex: HandledException): int {
    if ex.ExternalServiceException? then ex.statusCode else 0
  }

  /**
   * Every exception gets the status and the error label of its kind, and
   * `details` is present exactly for the validation kind.
   */
  lemma HandleFollowsTaxonomy(ex: HandledException, ctx: RequestContext, known: set<int>)
    ensures Handle(ex, ctx, known).httpStatus == TaxonomyStatus(KindOf(ex), UpstreamCode(ex), known)
    ensures Handle(ex, ctx, known).body.error == TaxonomyLabel(KindOf(ex))
    ensures Handle(ex, ctx, known).body.details.Some? <==> KindOf(ex) == ValidationKind
  {
  }

  /**
   * The message of a response is the exception's own message for the three
   * business kinds and the external kind, a fixed text for validation, and
   * the fixed generic text for anything else.
   */
  lemma HandleMessage(ex: HandledException, ctx: RequestContext, known: set<int>)
    ensures KindOf(ex) in {NotFoundKind, BadRequestKind, ConflictKind, ExternalKind} ==>
              Handle(ex, ctx, known).body.message == ex.message
    ensures KindOf(ex) == ValidationKind ==> Handle(ex, ctx, known).body.message == Some(ValidationMessage)
    ensures KindOf(ex) == UnexpectedKind ==> Handle(ex, ctx, known).body.message == Some(GenericMessage)
  {
  }

  /** Two unexpected exceptions produce the same response, whatever their messages. */
  lemma GenericResponseIgnoresException(a: Option<string>, b: Option<string>, ctx: RequestContext, known: set<int>)
    ensures Handle(OtherException(a), ctx, known) == Handle(OtherException(b), ctx, known)
  {
  }

  /**
   * Unless an external service reported a resolvable code, the response
   * status is an error status (4xx or 5xx).
   */
  lemma ErrorStatusUnlessUpstreamPassesThrough(ex: HandledException, ctx: RequestContext, known: set<int>)
    requires !(ex.ExternalServiceException? && ex.statusCode in known)
    ensures 400 <= Handle(ex, ctx, known).httpStatus <= 599
  {
  }
}
