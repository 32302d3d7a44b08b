/** What the three transforms read from the request, the thrown value and
    the process environment, with the framework objects pulled out. */
module Context {
  import opened Values

  /** An incoming request. Header names arrive lower-cased, as Node.js
      stores them; `query` holds the single-valued query-string parameters. */
  datatype Request = Request(
    httpMethod: string,
    url: string,
    ip: string,
    headers: map<string, string>,
    body: Json,
    query: map<string, string>)

  /** `request.get('User-Agent')`: Express looks the name up lower-cased in
      the header map, so the value is the `user-agent` entry, and
      `undefined` (`None`) when the client sent none. */
  function UserAgent(request: Request): (r: Option<string>)
    ensures r.Some? <==> "user-agent" in request.headers
    ensures r.Some? ==> r.value == request.headers["user-agent"]
  {
    if "user-agent" in request.headers then Some(request.headers["user-agent"]) else None
  }

  /** The response body held by an `HttpException`: a string, or an object
      whose `message` and `errors` properties are read. */
  datatype HttpResponseBody =
    | TextBody(text: string)
    | ObjectBody(fields: map<string, Json>)

  /** A thrown value, told apart once, in the order the filter tests it:
      - `Http`: an `HttpException` with its status, its response body, its
        own `message` and its `stack`;
      - `Prisma`: a Prisma known-request error with its error code, the
        `meta.target` it reports (if any), its `message` and `stack`;
      - `Generic`: any other `Error`, with whatever its `status` property
        holds (many library errors set one), its `message` and `stack`;
      - `Unknown`: any other thrown value, with whatever its `status`,
        `message` and `stack` properties hold (`JUndefined` when absent). */
  datatype Exception =
    | Http(status: int, response: HttpResponseBody, message: string, stack: string)
    | Prisma(code: string, target: Option<Json>, message: string, stack: string)
    | Generic(statusProperty: Json, message: string, stack: string)
    | Unknown(statusProperty: Json, messageProperty: Json, stackProperty: Json)

  /** The value of `exception.status`: an `HttpException` always has its
      numeric status, a Prisma known-request error has none, and any other
      value has whatever its own property holds. */
  function StatusOf(e: Exception): (r: Json)
    ensures e.Http? ==> r == JNum(e.status)
    ensures e.Prisma? ==> r == JUndefined && !Truthy(r)
    ensures e.Generic? ==> r == e.statusProperty
    ensures e.Unknown? ==> r == e.statusProperty
  {
    match e
    case Http(status, _, _, _) => JNum(status)
    case Prisma(_, _, _, _) => JUndefined
    case Generic(status, _, _) => status
    case Unknown(status, _, _) => status
  }

  /** The value of `exception.message`: a string for every `Error`, and
      whatever the property holds for any other value. */
  function MessageOf(e: Exception): (r: Json)
    ensures !e.Unknown? ==> r == JStr(e.message)
    ensures e.Unknown? ==> r == e.messageProperty
  {
    match e
    case Http(_, _, message, _) => JStr(message)
    case Prisma(_, _, message, _) => JStr(message)
    case Generic(_, message, _) => JStr(message)
    case Unknown(_, message, _) => message
  }

  /** The value of `(exception as Error).stack`: a string for every
      `Error`, and whatever the property holds for any other value. */
  function StackOf(e: Exception): (r: Json)
    ensures !e.Unknown? ==> r == JStr(e.stack)
    ensures e.Unknown? ==> r == e.stackProperty
  {
    match e
    case Http(_, _, _, stack) => JStr(stack)
    case Prisma(_, _, _, stack) => JStr(stack)
    case Generic(_, _, stack) => JStr(stack)
    case Unknown(_, _, stack) => stack
  }

  /** `process.env.NODE_ENV === 'development'`; `None` is an unset variable.
      Every other mode, `test` and `production` alike, is not development. */
  function IsDevelopment(nodeEnv: Option<string>): (b: bool)
    ensures b <==> nodeEnv.Some? && nodeEnv.value == "development"
    ensures nodeEnv == Some("test") || nodeEnv == Some("production") || nodeEnv == None ==> !b
  {
    nodeEnv == Some("development")
  }

  /** The Nest `Logger` method a record is written with. */
  datatype Severity = Log | Warn | Error
}
