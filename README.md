# Request boundary of a NestJS gym-management backend

This project models, in Dafny, the three per-request transforms under
`src/common`. Every HTTP request of the service passes through them.

- **AllExceptionsFilter** (`all_exceptions_filter.dfy`) catches whatever a
  handler threw and classifies it, first match wins. An `HttpException`
  keeps its status. A Prisma known-request error is mapped by its code
  (P2002, P2025, P2003, any other). Any other `Error` gives 500 with its
  own message, and anything else gives 500 with "Internal server error".
  The filter then logs the result at error or warning level and builds the
  `{success: false, …}` error envelope.
- **ResponseInterceptor** (`response_interceptor.dfy`) wraps a handler's
  return value in the `{success: true, …}` envelope. A `{data, meta}`
  payload is unwrapped. An array payload answered to a request with
  `?page=` gets pagination metadata inferred from JavaScript
  `parseInt(…) || default` and `Math.ceil`.
- **LoggingInterceptor** (`logging_interceptor.dfy`) redacts the headers
  and the body before logging them. It also shapes the records for the
  incoming request, the successful response and the failed one, and picks
  the severity of each.

Shared material:
- `values.dfy` holds JSON-shaped JavaScript values, truthiness, `||` and
  property reads.
- `context.dfy` holds the request, the thrown value as a tagged datatype,
  and the `NODE_ENV` test.
- `jsnumber.dfy` holds `parseInt` as JavaScript defines it: leading
  whitespace, an optional sign, radix 16 after `0x`, and `NaN` as `None`.
  It also holds ceiling division with a divisor of either sign, and the
  decimal rendering of a natural number.

The source's `instanceof` chain becomes a match on the tagged `Exception`
datatype: `Http`, `Prisma`, `Generic`, `Unknown`. The order of the variants
is the order of the tests, so "first match wins" holds by construction.
Where the source updates locals step by step, the model has a method with
the same locals. This covers `status`/`message`/`errors` in the filter,
`responseData`/`meta` in the response interceptor, and the copy-then-
overwrite loops of `sanitizeHeaders` and `sanitizeBody`. Each method is
proved against a declarative function (`Classify`, `InferPagination`,
`RedactedHeaders`, `SanitizedBody`), and the lemmas state the source's
promises about those functions.

Clock readings, durations and the serialised response size are parameters.
The model takes one timestamp per call.

### Behaviour of the code worth knowing (the model follows the code)
- The gate is `NODE_ENV === 'development'`, not "not production". In `test`
  mode the stack, the request headers and body, and `responseSize` are all
  hidden (`Catch`, `LogIncomingRequest`, `DevelopmentOnlyResponseSize`).
- The filter includes the stack in its own log record only in development.
- On the success path the logger uses `warn` for every status from 400 up,
  5xx included. It never uses `error` there (`ResponseSeverity`).
- On the error path the logger always uses `error`, and its status is
  `error.status || 500`. A Prisma error is therefore logged as a 500 while
  the client receives 400 or 404. Conversely, a plain `Error` carrying its
  own `status` property is logged with that status while the client
  receives 500 (`ErrorStatusAgainstFilter`).
- `parseInt(x) || default` also falls back on `0` and `-0`, not only on a
  parse failure. `parseInt` reads `0x…` as hexadecimal.

### Quirks reproduced, not corrected
- `?limit=-5` parses to a truthy `-5`. The limit is kept, and `totalPages`
  comes out zero or negative (`NegativeLimitKept`, `InferPagination`).
- The inferred `total` is the length of the returned array, which is the
  current page, and not a count of all rows. A handler that knows the true
  total must return `{data, meta}` itself.
- `sanitizeBody` on an array body logs the index-keyed object that
  `{...array}` produces (`ArrayBodySpread`).

## Model

| member | source | states |
|---|---|---|
| `Context.IsDevelopment` | src/common/filters/all-exceptions.filter.ts:68 | `NODE_ENV === 'development'` holds exactly for `development`; `test`, `production` and an unset variable do not enable the development-only fields |
| `Context.UserAgent` | src/common/interceptors/logging.interceptor.ts:21 | `request.get('User-Agent')` is the `user-agent` header when sent and `undefined` otherwise |
| `Context.StatusOf` | src/common/interceptors/logging.interceptor.ts:65 | `error.status`: the numeric status of an `HttpException`, nothing for a Prisma error, and the value of the property for any other thrown value |
| `Context.MessageOf` | src/common/interceptors/logging.interceptor.ts:72 | `error.message`: a string for every `Error`, the property's value for anything else |
| `Context.StackOf` | src/common/filters/all-exceptions.filter.ts:86-88 | `(exception as Error).stack`: a string for every `Error`, the property's value for anything else |
| `JsNumber.ParseInt` | src/common/interceptors/response.interceptor.ts:49-50 | `parseInt` of a blank string is `NaN`; a number is read only when the text after whitespace starts with a digit or a sign, and a negative one only after a minus |
| `JsNumber.ParseUnsigned` | src/common/interceptors/response.interceptor.ts:49-50 | the unsigned part of `parseInt` is `NaN` exactly when no digit follows (in radix 16 after a `0x` prefix, radix 10 otherwise) |
| `JsNumber.ParseIntRender` | src/common/interceptors/response.interceptor.ts:49-50 | `parseInt` reads back any rendered number, with or without a leading minus, and ignores trailing text that does not start with a digit, nor with `x`/`X` after a bare `0` (which `parseInt` would read as a hexadecimal prefix) |
| `JsNumber.ParseIntSkipsWhitespace` | src/common/interceptors/response.interceptor.ts:49-50 | leading whitespace does not change what `parseInt` reads |
| `JsNumber.CeilDiv` | src/common/interceptors/response.interceptor.ts:56 | `Math.ceil(a / b)`: the least integer not below the exact quotient, for a positive or a negative divisor; zero or less when the divisor is negative |
| `AllExceptionsFilter.Classify` | src/common/filters/all-exceptions.filter.ts:21-57 | a non-HTTP error always gets a string message and status 400, 404 or 500; exactly the Prisma errors get a non-HTTP status below 500; only HTTP exceptions and P2002 carry error detail |
| `AllExceptionsFilter.HttpExceptionClassified` | src/common/filters/all-exceptions.filter.ts:26-35 | an `HttpException` keeps `getStatus()`; a string body is the message; an object body gives `message` or else the exception's message, and `errors` or else `null` |
| `AllExceptionsFilter.PrismaErrorClassified` | src/common/filters/all-exceptions.filter.ts:36-54 | P2002 gives 400, the duplicate message and `{field: meta.target}`; P2025 gives 404 "Record not found"; P2003 gives 400 "Foreign key constraint failed"; any other code gives 400 "Database operation failed" |
| `AllExceptionsFilter.FallbackClassified` | src/common/filters/all-exceptions.filter.ts:21-57 | a plain `Error` gives 500 with its own message; any other thrown value gives 500 "Internal server error"; neither carries error detail |
| `AllExceptionsFilter.DuplicateEmailExample` | src/common/filters/all-exceptions.filter.ts:40-44 | a unique violation on `email` gives 400 with `errors = {field: ["email"]}`, which is truthy and so always sent |
| `AllExceptionsFilter.FilterSeverity` | src/common/filters/all-exceptions.filter.ts:71-75 | error level exactly from status 500 up, warning below |
| `AllExceptionsFilter.Catch` | src/common/filters/all-exceptions.filter.ts:21-89 | the envelope has `success=false`, the classified status and message, the request's path and method, `errors` only when truthy, and `stack` only in development; the log call has the severity by status and the same fields; the output is a function of (exception, request, environment, timestamp) alone |
| `ResponseInterceptor.QueryNumber` | src/common/interceptors/response.interceptor.ts:49-50 | `parseInt(query[key])` or else `fallback`: a non-zero parse is kept; a missing parameter, `NaN` or a zero parse gives the fallback; never zero when the fallback is not |
| `ResponseInterceptor.PageOf` | src/common/interceptors/response.interceptor.ts:49 | the page is never 0, and 1 when the parameter is missing |
| `ResponseInterceptor.LimitOf` | src/common/interceptors/response.interceptor.ts:50 | the limit is never 0, and 10 when the parameter is missing |
| `ResponseInterceptor.PageRequested` | src/common/interceptors/response.interceptor.ts:48 | `request.query.page` is truthy exactly when the parameter is present and a truthy string |
| `ResponseInterceptor.IsDataMetaPair` | src/common/interceptors/response.interceptor.ts:42 | the guard holds exactly for a truthy value of object type that is an object with both a `data` and a `meta` property |
| `ResponseInterceptor.PageAndLimitRead` | src/common/interceptors/response.interceptor.ts:49-50 | positive `page` and `limit` parameters are read back exactly |
| `ResponseInterceptor.ZeroFallsBack` | src/common/interceptors/response.interceptor.ts:50 | a `limit` that is missing, `0`, `-0`, or does not start after whitespace with a digit or a sign (so also an empty or alphabetic one) becomes 10 |
| `ResponseInterceptor.InferPagination` | src/common/interceptors/response.interceptor.ts:48-58 | page and limit are the ones read from the query and never 0; `total` is the array's length; `totalPages` is the rounded-up quotient for either sign of the limit, so at most 0 for a negative one |
| `ResponseInterceptor.PageTwoLimitFive` | src/common/interceptors/response.interceptor.ts:52-57 | `?page=2&limit=5` gives page 2, limit 5, total the length and totalPages the length over 5 rounded up |
| `ResponseInterceptor.NegativeLimitKept` | src/common/interceptors/response.interceptor.ts:50-56 | `?limit=-5` on three items gives limit -5 and 0 total pages |
| `ResponseInterceptor.MetaTruthy` | src/common/interceptors/response.interceptor.ts:70-72 | inferred pagination metadata is always truthy; a passed-through `meta` is truthy by JavaScript truthiness |
| `ResponseInterceptor.Intercept` | src/common/interceptors/response.interceptor.ts:38-72 | `success=true` with the response's status and the request's path and method; a `{data, meta}` payload is unwrapped and its meta kept only when truthy; an array with a truthy `page` is returned whole with inferred meta; anything else passes through with no `meta` |
| `LoggingInterceptor.SanitizeHeaders` | src/common/interceptors/logging.interceptor.ts:82-94 | the loop over the denylist leaves the copy equal to the redacted headers |
| `LoggingInterceptor.RedactedHeadersExactly` | src/common/interceptors/logging.interceptor.ts:86-91 | the key set is kept; a value reads `[REDACTED]` exactly when its key is denylisted with a non-empty value (or was already the marker); every other value is kept |
| `LoggingInterceptor.RedactedHeadersIdempotent` | src/common/interceptors/logging.interceptor.ts:86-91 | redacting headers twice equals redacting them once |
| `LoggingInterceptor.SanitizeBody` | src/common/interceptors/logging.interceptor.ts:96-112 | the early return and the loop over the denylist give exactly the sanitised body |
| `LoggingInterceptor.NonObjectBodyUnchanged` | src/common/interceptors/logging.interceptor.ts:97-99 | a falsy or non-object body is returned unchanged |
| `LoggingInterceptor.ObjectBodyRedaction` | src/common/interceptors/logging.interceptor.ts:101-111 | for an object body the keys are kept; truthy `password`, `token`, `secret` and `key` become `[REDACTED]`; every other value, nested ones included, is kept |
| `LoggingInterceptor.SpreadArrayKeys` | src/common/interceptors/logging.interceptor.ts:101 | `{...array}` has exactly one key per index, the index's decimal rendering |
| `LoggingInterceptor.SpreadArrayValues` | src/common/interceptors/logging.interceptor.ts:101 | in `{...array}` every index key holds the element at that index |
| `LoggingInterceptor.ArrayBodySpread` | src/common/interceptors/logging.interceptor.ts:101-109 | an array body is logged as its index-keyed object with nothing redacted, since no index key is a denylisted name |
| `LoggingInterceptor.SanitizedBodyIdempotent` | src/common/interceptors/logging.interceptor.ts:104-109 | sanitising a body twice equals sanitising it once |
| `LoggingInterceptor.LogIncomingRequest` | src/common/interceptors/logging.interceptor.ts:20-35 | the request record has the method, url, ip, timestamp and `User-Agent` (empty when absent), is logged at `log` level, and carries the redacted headers and body only in development |
| `LoggingInterceptor.Duration` | src/common/interceptors/logging.interceptor.ts:49 | the `${duration}ms` text ends in `ms` and reads back as the duration |
| `LoggingInterceptor.ResponseSeverity` | src/common/interceptors/logging.interceptor.ts:57-61 | `warn` exactly from status 400 up, `log` below, never `error` |
| `LoggingInterceptor.ResponseRecord` | src/common/interceptors/logging.interceptor.ts:45-61 | the response record has the method, url, status, duration and timestamp; `responseSize` is present exactly in development; the severity is chosen by status |
| `LoggingInterceptor.ErrorRecord` | src/common/interceptors/logging.interceptor.ts:63-76 | the error record's status is `error.status` when truthy and 500 otherwise; it carries `error.message`; the severity is always `error` |
| `LoggingInterceptor.ErrorStatusAgainstFilter` | src/common/interceptors/logging.interceptor.ts:65 | the logger and the filter agree on the status of an `HttpException` with a non-zero status; a Prisma error is logged as 500 while the filter answers below 500; a plain `Error` with a truthy `status` property is logged with it while the filter answers 500 |
| `LoggingInterceptor.DevelopmentOnlyResponseSize` | src/common/interceptors/logging.interceptor.ts:51-53 | under `test`, `production` or an unset `NODE_ENV` the response record has no `responseSize`; in development it has the size |

## Left out

- Framework plumbing is not part of this model: the rxjs `Observable`, `tap` and `map` operators, Express `Request` and `Response`, `host.switchToHttp()`, and `response.status(status).json(…)`. `Catch` returns the envelope and its `statusCode` is the status sent.
- The Nest `Logger` sink is not modelled. The filter's log call is returned as a value, and the interceptor's methods return severity and record. The human-readable message strings the interceptor passes beside each record are left out; they repeat the record's method, url, status and duration.
- `Date.now()`, `new Date().toISOString()` and durations are parameters. The filter reads the clock twice; the model uses one timestamp for both readings.
- `JSON.stringify(data).length` (`responseSize`) is a parameter.
- Numbers are unbounded integers. NaN, Infinity, fractions, the loss of precision of very long `parseInt` inputs and the `-0` that `Math.ceil` can return are not modelled. Bodies and payloads do carry fractions (a weight of 65.5, a rating of 4.8), but these transforms only copy such numbers and test their truthiness, and a non-zero integer stands for a non-zero fraction in both. The query numbers are parsed by `parseInt`, which only ever yields integers.
- A thrown `null` or `undefined` is not modelled: reading its `status`, `message` or `stack` raises a TypeError inside the source's own handlers.
- An `HttpException` response body other than a string or a plain object, such as an array or `null`, is left out. The TypeScript signature names only those two.
- Query parameters that repeat (an array) or nest (an object) are left out; `query` maps names to single strings. Header values that are arrays, such as `set-cookie`, are left out; `headers` maps names to strings.
- Arrays carrying extra named properties are not representable as JSON. So the case where both the `{data, meta}` rule and the array rule apply cannot arise in the model: the `{data, meta}` guard requires an object.
- Header names are matched exactly. Node.js lower-cases them before they reach the interceptor, so the map holds lower-case names, as the source expects.
- The header map and the body are values. So "works on a copy and leaves the input untouched" holds trivially, and shared references to them are not modelled.
- `LoggingInterceptor.Duration`: states the duration text by what it reads back as (ends in `ms`, `parseInt` gives the milliseconds) rather than character by character.
- prisma/seed.ts, src/main.ts, src/app.module.ts and src/config/env.validation.ts are not part of this model. They are data fixtures, bootstrap and dependency-injection wiring, and a wrapper over validation-library decorators.
