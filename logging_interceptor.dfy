/** The logging interceptor: the redaction of headers and body before they
    are logged, and the records (with their severity) written for an
    incoming request, a successful response and a failed one. */
module LoggingInterceptor {
  import opened Values
  import opened Context
  import opened JsNumber
  import AllExceptionsFilter

  const Redacted: string := "[REDACTED]"
  const SensitiveHeaders: seq<string> := ["authorization", "cookie", "x-api-key"]
  const SensitiveFields: seq<string> := ["password", "token", "secret", "key"]

  // ---------------------------------------------------------------------
  // Header redaction

  /** The headers as they are logged: every denylisted header whose value
      is a non-empty string reads `[REDACTED]`, every other entry is kept. */
  function RedactedHeaders(headers: map<string, string>): map<string, string> {
    map k | k in headers :: if k in SensitiveHeaders && headers[k] != "" then Redacted else headers[k]
  }

  /** `sanitizeHeaders`: copy the header map, then overwrite each truthy
      denylisted entry of the copy. */
  method SanitizeHeaders(headers: map<string, string>) returns (sanitized: map<string, string>)
    ensures sanitized == RedactedHeaders(headers)
  {
    sanitized := headers;
    var i := 0;
    while i < |SensitiveHeaders|
      invariant 0 <= i <= |SensitiveHeaders|
      invariant sanitized.Keys == headers.Keys
      invariant forall k :: k in sanitized ==>
        sanitized[k] == if k in SensitiveHeaders[..i] && headers[k] != "" then Redacted else headers[k]
    {
      var header := SensitiveHeaders[i];
      assert header !in SensitiveHeaders[..i];
      assert SensitiveHeaders[..i + 1] == SensitiveHeaders[..i] + [header];
      if header in sanitized && sanitized[header] != "" {
        sanitized := sanitized[header := Redacted];
      }
      i := i + 1;
    }
    assert SensitiveHeaders[..i] == SensitiveHeaders;
  }

  /** Redaction keeps every header name, replaces exactly the denylisted
      headers that have a non-empty value, and leaves every other value. */
  lemma RedactedHeadersExactly(headers: map<string, string>)
    ensures RedactedHeaders(headers).Keys == headers.Keys
    ensures forall k :: k in headers ==>
      (RedactedHeaders(headers)[k] == Redacted <==> (k in SensitiveHeaders && headers[k] != "") || headers[k] == Redacted)
    ensures forall k :: k in headers && !(k in SensitiveHeaders && headers[k] != "") ==>
      RedactedHeaders(headers)[k] == headers[k]
  {
  }

  /** Redacting already redacted headers changes nothing. */
  lemma RedactedHeadersIdempotent(headers: map<string, string>)
    ensures RedactedHeaders(RedactedHeaders(headers)) == RedactedHeaders(headers)
  {
  }

  // ---------------------------------------------------------------------
  // Body redaction

  /** The decimal renderings of the indices below `n`. */
  function IndexKeys(n: nat): set<string> {
    set i | 0 <= i < n :: Render(i)
  }

  /** `{...items}`: an array spread into an object keyed by the decimal
      renderings of its indices. */
  function SpreadArray(items: seq<Json>): map<string, Json> {
    if items == [] then map[]
    else SpreadArray(items[..|items| - 1])[Render(|items| - 1) := items[|items| - 1]]
  }

  /** The spread object has one key per index: its decimal rendering. */
  lemma {:induction false} SpreadArrayKeys(items: seq<Json>)
    ensures SpreadArray(items).Keys == IndexKeys(|items|)
  {
    if items != [] {
      SpreadArrayKeys(items[..|items| - 1]);
      IndexKeysStep(|items| - 1);
    }
  }

  /** Each index key of the spread object holds the element at that index. */
  lemma {:induction false} SpreadArrayValues(items: seq<Json>)
    ensures forall i :: 0 <= i < |items| ==> Render(i) in SpreadArray(items) && SpreadArray(items)[Render(i)] == items[i]
  {
    if items != [] {
      var last := |items| - 1;
      var init := items[..last];
      SpreadArrayValues(init);
      EarlierIndexKeysDiffer(last);
      forall i | 0 <= i < last ensures Render(i) in SpreadArray(items) && SpreadArray(items)[Render(i)] == items[i] {
        assert init[i] == items[i];
        assert Render(i) in SpreadArray(init) && SpreadArray(init)[Render(i)] == items[i];
      }
    }
  }

  lemma IndexKeysStep(n: nat)
    ensures IndexKeys(n + 1) == IndexKeys(n) + {Render(n)}
  {
  }

  lemma EarlierIndexKeysDiffer(n: nat)
    ensures forall i :: 0 <= i < n ==> Render(i) != Render(n)
  {
    forall i | 0 <= i < n ensures Render(i) != Render(n) {
      if Render(i) == Render(n) { RenderInjective(i, n); }
    }
  }

  /** The own properties `{...body}` copies from an array or an object. */
  function OwnProperties(body: Json): map<string, Json>
    requires body.JArr? || body.JObj?
  {
    if body.JObj? then body.fields else SpreadArray(body.items)
  }

  /** The copied properties as they are logged: every denylisted field with
      a truthy value reads `[REDACTED]`; nothing below the top level is
      looked at. */
  function RedactedFields(fields: map<string, Json>): map<string, Json> {
    map k | k in fields :: if k in SensitiveFields && Truthy(fields[k]) then JStr(Redacted) else fields[k]
  }

  /** The body as it is logged: a falsy or non-object body as it is, an
      array or an object as its redacted copy. */
  function SanitizedBody(body: Json): Json {
    if !Truthy(body) || !IsObjectType(body) then body
    else JObj(RedactedFields(OwnProperties(body)))
  }

  /** `sanitizeBody`: return a falsy or non-object body unchanged; otherwise
      copy its properties and overwrite each truthy denylisted field of the
      copy. */
  method SanitizeBody(body: Json) returns (r: Json)
    ensures r == SanitizedBody(body)
  {
    if !Truthy(body) || !IsObjectType(body) {
      return body;
    }
    var copy := OwnProperties(body);
    var sanitized := copy;
    var i := 0;
    while i < |SensitiveFields|
      invariant 0 <= i <= |SensitiveFields|
      invariant sanitized.Keys == copy.Keys
      invariant forall k :: k in sanitized ==>
        sanitized[k] == if k in SensitiveFields[..i] && Truthy(copy[k]) then JStr(Redacted) else copy[k]
    {
      var field := SensitiveFields[i];
      assert field !in SensitiveFields[..i];
      assert SensitiveFields[..i + 1] == SensitiveFields[..i] + [field];
      if field in sanitized && Truthy(sanitized[field]) {
        sanitized := sanitized[field := JStr(Redacted)];
      }
      i := i + 1;
    }
    assert SensitiveFields[..i] == SensitiveFields;
    r := JObj(sanitized);
  }

  /** A falsy body and a body that is not an object (a string, a number,
      `true`) are logged as they are. */
  lemma NonObjectBodyUnchanged(body: Json)
    requires !Truthy(body) || !(body.JArr? || body.JObj?)
    ensures SanitizedBody(body) == body
  {
  }

  /** For an object body only the truthy top-level `password`, `token`,
      `secret` and `key` are replaced; every key is kept and every other
      value, nested objects included, is kept as it is. */
  lemma ObjectBodyRedaction(body: Json)
    requires body.JObj?
    ensures SanitizedBody(body).JObj? && SanitizedBody(body).fields.Keys == body.fields.Keys
    ensures forall k :: k in body.fields && k in SensitiveFields && Truthy(body.fields[k]) ==>
      SanitizedBody(body).fields[k] == JStr("[REDACTED]")
    ensures forall k :: k in body.fields && !(k in SensitiveFields && Truthy(body.fields[k])) ==>
      SanitizedBody(body).fields[k] == body.fields[k]
  {
  }

  /** No array index is a denylisted field name: the index keys are all
      digits and every denylisted name starts with a letter. */
  lemma IndexKeyNotSensitive(i: nat)
    ensures Render(i) !in SensitiveFields
  {
  }

  /** An array body is logged as the index-keyed object of its elements,
      none of them redacted. */
  lemma ArrayBodySpread(body: Json)
    requires body.JArr?
    ensures SanitizedBody(body) == JObj(SpreadArray(body.items))
  {
    var m := SpreadArray(body.items);
    SpreadArrayKeys(body.items);
    forall k | k in m ensures k !in SensitiveFields {
      var i :| 0 <= i < |body.items| && k == Render(i);
      IndexKeyNotSensitive(i);
    }
    assert RedactedFields(m) == m;
  }

  /** Sanitising a sanitised body changes nothing. */
  lemma SanitizedBodyIdempotent(body: Json)
    ensures SanitizedBody(SanitizedBody(body)) == SanitizedBody(body)
  {
  }

  // ---------------------------------------------------------------------
  // Log records

  /** The headers and body an incoming-request record carries in
      development. */
  datatype RequestDetails = RequestDetails(headers: map<string, string>, body: Json)

  datatype RequestLog = RequestLog(
    httpMethod: string,
    url: string,
    ip: string,
    userAgent: string,
    timestamp: string,
    details: Option<RequestDetails>)

  datatype ResponseLog = ResponseLog(
    httpMethod: string,
    url: string,
    statusCode: int,
    duration: string,
    timestamp: string,
    responseSize: Option<nat>)

  datatype ErrorLog = ErrorLog(
    httpMethod: string,
    url: string,
    statusCode: Json,
    duration: string,
    error: Json,
    timestamp: string)

  /** `${duration}ms`. */
  function Duration(ms: nat): (s: string)
    ensures |s| >= 2 && s[|s| - 2..] == "ms" && ParseInt(s) == Some(ms)
  {
    ParseIntRender(ms, "ms");
    Render(ms) + "ms"
  }

  /** The incoming-request record: always logged with `log`; the redacted
      headers and body are attached only in development. */
  method LogIncomingRequest(request: Request, nodeEnv: Option<string>, timestamp: string)
    returns (severity: Severity, record: RequestLog)
    ensures severity == Log
    ensures record.httpMethod == request.httpMethod && record.url == request.url && record.ip == request.ip
    ensures record.timestamp == timestamp
    ensures record.userAgent == (if "user-agent" in request.headers then request.headers["user-agent"] else "")
    ensures record.details == (if IsDevelopment(nodeEnv)
                               then Some(RequestDetails(RedactedHeaders(request.headers), SanitizedBody(request.body)))
                               else None)
  {
    var userAgent := UserAgent(request).GetOr("");
    var details := None;
    if IsDevelopment(nodeEnv) {
      var headers := SanitizeHeaders(request.headers);
      var body := SanitizeBody(request.body);
      details := Some(RequestDetails(headers, body));
    }
    severity := Log;
    record := RequestLog(request.httpMethod, request.url, request.ip, userAgent, timestamp, details);
  }

  /** The severity of a response record: `warn` from status 400 on, `log`
      below; a success-path record is never logged as an error. */
  function ResponseSeverity(statusCode: int): (s: Severity)
    ensures s == Warn <==> statusCode >= 400
    ensures s == Log <==> statusCode < 400
  {
    if statusCode >= 400 then Warn else Log
  }

  /** The record written when the handler succeeds. `responseSize` is the
      length of the serialised payload, supplied by the caller, and is
      attached only in development. */
  function ResponseRecord(request: Request, statusCode: int, durationMs: nat, timestamp: string,
                          responseSize: nat, nodeEnv: Option<string>): (r: (Severity, ResponseLog))
    ensures r.0 == ResponseSeverity(statusCode)
    ensures r.1.httpMethod == request.httpMethod && r.1.url == request.url && r.1.statusCode == statusCode
    ensures ParseInt(r.1.duration) == Some(durationMs) && r.1.timestamp == timestamp
    ensures r.1.responseSize.Some? <==> IsDevelopment(nodeEnv)
    ensures r.1.responseSize.Some? ==> r.1.responseSize.value == responseSize
  {
    var size := if IsDevelopment(nodeEnv) then Some(responseSize) else None;
    (ResponseSeverity(statusCode),
     ResponseLog(request.httpMethod, request.url, statusCode, Duration(durationMs), timestamp, size))
  }

  /** The record written when the handler fails: status `error.status ||
      500`, the error's message, and always the `error` severity. */
  function ErrorRecord(request: Request, error: Exception, durationMs: nat, timestamp: string): (r: (Severity, ErrorLog))
    ensures r.0 == Error
    ensures Truthy(StatusOf(error)) ==> r.1.statusCode == StatusOf(error)
    ensures !Truthy(StatusOf(error)) ==> r.1.statusCode == JNum(500)
    ensures r.1.error == MessageOf(error)
    ensures r.1.httpMethod == request.httpMethod && r.1.url == request.url
    ensures ParseInt(r.1.duration) == Some(durationMs) && r.1.timestamp == timestamp
  {
    (Error,
     ErrorLog(request.httpMethod, request.url, Or(StatusOf(error), JNum(500)), Duration(durationMs),
              MessageOf(error), timestamp))
  }

  /** The error record and the filter's envelope agree on the status of an
      `HttpException` with a non-zero status, but a Prisma error is logged
      here as a 500 while the filter answers 400 or 404, and any other
      `Error` carrying a truthy `status` is logged with that status while
      the filter answers 500. */
  lemma ErrorStatusAgainstFilter(request: Request, error: Exception, durationMs: nat, timestamp: string)
    ensures error.Http? && error.status != 0 ==>
      ErrorRecord(request, error, durationMs, timestamp).1.statusCode == JNum(AllExceptionsFilter.Classify(error).status)
    ensures error.Prisma? ==>
      && ErrorRecord(request, error, durationMs, timestamp).1.statusCode == JNum(500)
      && AllExceptionsFilter.Classify(error).status < 500
    ensures error.Generic? && Truthy(error.statusProperty) ==>
      && ErrorRecord(request, error, durationMs, timestamp).1.statusCode == error.statusProperty
      && AllExceptionsFilter.Classify(error).status == 500
  {
  }

  /** Only `development` shows the details: under `test`, `production` or
      an unset `NODE_ENV` the response record has no `responseSize`, and
      in development it always has one. */
  lemma DevelopmentOnlyResponseSize(request: Request, statusCode: int, durationMs: nat, timestamp: string,
                                    responseSize: nat)
    ensures ResponseRecord(request, statusCode, durationMs, timestamp, responseSize, Some("test")).1.responseSize == None
    ensures ResponseRecord(request, statusCode, durationMs, timestamp, responseSize, Some("production")).1.responseSize == None
    ensures ResponseRecord(request, statusCode, durationMs, timestamp, responseSize, None).1.responseSize == None
    ensures ResponseRecord(request, statusCode, durationMs, timestamp, responseSize, Some("development")).1.responseSize
         == Some(responseSize)
  {
  }
}
