/** The catch-all exception filter: classifies whatever a request handler
    threw into a status, a message and optional error detail, picks the log
    severity, and builds the JSON error envelope sent to the client. */
module AllExceptionsFilter {
  import opened Values
  import opened Context

  const InternalServerError: int := 500
  const BadRequest: int := 400
  const NotFound: int := 404

  const DefaultMessage: string := "Internal server error"
  const DuplicateMessage: string := "A record with this value already exists"
  const NotFoundMessage: string := "Record not found"
  const ForeignKeyMessage: string := "Foreign key constraint failed"
  const DatabaseMessage: string := "Database operation failed"

  /** Prisma's error codes for a unique-constraint violation, a missing
      record and a foreign-key violation. */
  const UniqueViolation: string := "P2002"
  const RecordNotFound: string := "P2025"
  const ForeignKeyViolation: string := "P2003"

  /** The resolved `status`, `message` and `errors` (`JNull` when none). */
  datatype Classification = Classification(status: int, message: Json, errors: Json)

  /** The classification, first match wins: an `HttpException` keeps its
      own status and reads its response body; a Prisma error maps its code;
      any other `Error` is a 500 with its own message; anything else is a
      500 with the default message. */
  function Classify(e: Exception): (c: Classification)
    ensures !e.Http? ==> c.message.JStr? && (c.status == BadRequest || c.status == NotFound || c.status == InternalServerError)
    ensures e.Prisma? <==> !e.Http? && c.status < InternalServerError
    ensures Truthy(c.errors) ==> e.Http? || (e.Prisma? && e.code == UniqueViolation)
  {
    match e
    case Http(status, body, message, _) =>
      (match body
       case TextBody(text) => Classification(status, JStr(text), JNull)
       case ObjectBody(fields) =>
         Classification(status, Or(Field(fields, "message"), JStr(message)), Or(Field(fields, "errors"), JNull)))
    case Prisma(code, target, _, _) =>
      if code == UniqueViolation then
        Classification(BadRequest, JStr(DuplicateMessage), JObj(map["field" := target.GetOr(JUndefined)]))
      else if code == RecordNotFound then Classification(NotFound, JStr(NotFoundMessage), JNull)
      else if code == ForeignKeyViolation then Classification(BadRequest, JStr(ForeignKeyMessage), JNull)
      else Classification(BadRequest, JStr(DatabaseMessage), JNull)
    case Generic(_, message, _) => Classification(InternalServerError, JStr(message), JNull)
    case Unknown(_, _, _) => Classification(InternalServerError, JStr(DefaultMessage), JNull)
  }

  /** The JSON body sent to the client. `None` is a key left out. */
  datatype ErrorResponse = ErrorResponse(
    success: bool,
    statusCode: int,
    timestamp: string,
    path: string,
    httpMethod: string,
    message: Json,
    errors: Option<Json>,
    stack: Option<Json>)

  /** The record written to the filter's logger. */
  datatype ErrorLog = ErrorLog(
    timestamp: string,
    path: string,
    httpMethod: string,
    statusCode: int,
    message: Json,
    userAgent: Option<string>,
    ip: string,
    stack: Option<Json>)

  /** One call of the logger: its method, its message text and its record. */
  datatype LogCall = LogCall(severity: Severity, text: string, record: ErrorLog)

  /** Server errors (5xx) are logged as errors, everything else as warnings. */
  function FilterSeverity(status: int): (s: Severity)
    ensures s == Error <==> status >= InternalServerError
    ensures s == Warn <==> status < InternalServerError
  {
    if status >= InternalServerError then Error else Warn
  }

  /** `AllExceptionsFilter.catch`: the mutable `status`, `message` and
      `errors` start at the 500 defaults and are overwritten by the first
      branch that matches; the log call and the envelope are then built
      from them. `timestamp` is the clock reading for both. */
  method Catch(exception: Exception, request: Request, nodeEnv: Option<string>, timestamp: string)
    returns (response: ErrorResponse, logged: LogCall)
    ensures response.success == false
    ensures response.statusCode == Classify(exception).status
    ensures response.message == Classify(exception).message
    ensures response.timestamp == timestamp && response.path == request.url && response.httpMethod == request.httpMethod
    ensures response.errors == (if Truthy(Classify(exception).errors) then Some(Classify(exception).errors) else None)
    ensures response.stack == (if IsDevelopment(nodeEnv) then Some(StackOf(exception)) else None)
    ensures logged.severity == FilterSeverity(response.statusCode)
    ensures logged.text == (if response.statusCode >= InternalServerError then "Internal Server Error" else "Client Error")
    ensures logged.record == ErrorLog(timestamp, request.url, request.httpMethod, response.statusCode,
                                      response.message, UserAgent(request), request.ip, response.stack)
  {
    var status := InternalServerError;
    var message := JStr(DefaultMessage);
    var errors := JNull;

    if exception.Http? {
      status := exception.status;
      match exception.response {
        case ObjectBody(fields) =>
          message := Or(Field(fields, "message"), JStr(exception.message));
          errors := Or(Field(fields, "errors"), JNull);
        case TextBody(text) =>
          message := JStr(text);
      }
    } else if exception.Prisma? {
      status := BadRequest;
      if exception.code == UniqueViolation {
        message := JStr(DuplicateMessage);
        errors := JObj(map["field" := exception.target.GetOr(JUndefined)]);
      } else if exception.code == RecordNotFound {
        message := JStr(NotFoundMessage);
        status := NotFound;
      } else if exception.code == ForeignKeyViolation {
        message := JStr(ForeignKeyMessage);
      } else {
        message := JStr(DatabaseMessage);
      }
    } else if exception.Generic? {
      message := JStr(exception.message);
    }

    var stack := if IsDevelopment(nodeEnv) then Some(StackOf(exception)) else None;
    var record := ErrorLog(timestamp, request.url, request.httpMethod, status, message,
                           UserAgent(request), request.ip, stack);
    if status >= InternalServerError {
      logged := LogCall(Error, "Internal Server Error", record);
    } else {
      logged := LogCall(Warn, "Client Error", record);
    }

    response := ErrorResponse(false, status, timestamp, request.url, request.httpMethod, message,
                              if Truthy(errors) then Some(errors) else None, stack);
  }

  /** An `HttpException` keeps its status. A string body is the message; an
      object body gives its `message` (else the exception's own message)
      and its `errors` (else `null`). */
  lemma HttpExceptionClassified(e: Exception)
    requires e.Http?
    ensures Classify(e).status == e.status
    ensures e.response.TextBody? ==> Classify(e).message == JStr(e.response.text) && Classify(e).errors == JNull
    ensures e.response.ObjectBody? ==>
      var fields := e.response.fields;
      && (Truthy(Field(fields, "message")) ==> Classify(e).message == fields["message"])
      && (!Truthy(Field(fields, "message")) ==> Classify(e).message == JStr(e.message))
      && (Truthy(Field(fields, "errors")) ==> Classify(e).errors == fields["errors"])
      && (!Truthy(Field(fields, "errors")) ==> Classify(e).errors == JNull)
  {
  }

  /** Prisma errors: P2002 is a 400 naming the violating target, P2025 a
      404, P2003 and every other code a 400, each with its fixed message. */
  lemma PrismaErrorClassified(e: Exception)
    requires e.Prisma?
    ensures e.code == UniqueViolation ==>
      Classify(e) == Classification(400, JStr("A record with this value already exists"),
                                    JObj(map["field" := e.target.GetOr(JUndefined)]))
    ensures e.code == RecordNotFound ==> Classify(e) == Classification(404, JStr("Record not found"), JNull)
    ensures e.code == ForeignKeyViolation ==> Classify(e) == Classification(400, JStr("Foreign key constraint failed"), JNull)
    ensures e.code != UniqueViolation && e.code != RecordNotFound && e.code != ForeignKeyViolation ==>
      Classify(e) == Classification(400, JStr("Database operation failed"), JNull)
  {
  }

  /** Any other `Error` is a 500 carrying its own message; a value that is
      not an `Error` is a 500 with the default message, whatever its
      properties hold. */
  lemma FallbackClassified(e: Exception)
    requires e.Generic? || e.Unknown?
    ensures Classify(e).status == 500 && Classify(e).errors == JNull
    ensures e.Generic? ==> Classify(e).message == JStr(e.message)
    ensures e.Unknown? ==> Classify(e).message == JStr("Internal server error")
  {
  }

  /** A unique-constraint violation on `email` answers 400 with the
      duplicate message and `errors` naming the field, and since that
      detail is an object it is always sent. */
  lemma DuplicateEmailExample(message: string, stack: string)
    ensures var c := Classify(Prisma("P2002", Some(JArr([JStr("email")])), message, stack));
      && c == Classification(400, JStr("A record with this value already exists"),
                             JObj(map["field" := JArr([JStr("email")])]))
      && Truthy(c.errors)
  {
  }
}
