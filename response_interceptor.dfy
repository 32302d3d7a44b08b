/** The success-path interceptor: wraps whatever a handler returned in the
    `ApiResponse` envelope, unwrapping a handler-built `{data, meta}` pair
    and inferring pagination metadata for an array answered to a `?page=`
    request. */
module ResponseInterceptor {
  import opened Values
  import opened Context
  import opened JsNumber

  const DefaultPage: int := 1
  const DefaultLimit: int := 10

  /** The metadata inferred for an array payload. */
  datatype PaginationMeta = PaginationMeta(page: int, limit: int, total: nat, totalPages: int)

  /** The value of the local `meta`: taken verbatim from a `{data, meta}`
      payload, or inferred for an array. */
  datatype Meta = PassThrough(value: Json) | Inferred(pagination: PaginationMeta)

  /** `if (meta)`: an inferred metadata object is always truthy, a
      passed-through value by JavaScript truthiness. */
  function MetaTruthy(m: Meta): (b: bool)
    ensures m.Inferred? ==> b
    ensures m.PassThrough? ==> (b <==> Truthy(m.value))
  {
    match m
    case PassThrough(v) => Truthy(v)
    case Inferred(_) => true
  }

  /** The success envelope. `meta == None` is a key left out. */
  datatype ApiResponse = ApiResponse(
    success: bool,
    statusCode: int,
    timestamp: string,
    path: string,
    httpMethod: string,
    data: Json,
    meta: Option<Meta>)

  /** `parseInt(query[key]) || fallback`: a missing parameter reads as
      `undefined`, which `parseInt` turns into `NaN`; a `NaN` or a zero
      parse is falsy and gives way to the fallback. */
  function QueryNumber(query: map<string, string>, key: string, fallback: int): (r: int)
    ensures fallback != 0 ==> r != 0
    ensures key !in query ==> r == fallback
    ensures key in query && ParseInt(query[key]).Some? && ParseInt(query[key]).value != 0 ==>
      r == ParseInt(query[key]).value
    ensures key in query && (ParseInt(query[key]).None? || ParseInt(query[key]).value == 0) ==> r == fallback
  {
    var parsed := if key in query then ParseInt(query[key]) else None;
    if parsed.Some? && parsed.value != 0 then parsed.value else fallback
  }

  /** `parseInt(request.query.page) || 1`: never zero, 1 when absent. */
  function PageOf(query: map<string, string>): (p: int)
    ensures p != 0
    ensures "page" !in query ==> p == DefaultPage
  {
    QueryNumber(query, "page", DefaultPage)
  }

  /** `parseInt(request.query.limit) || 10`: never zero, 10 when absent. */
  function LimitOf(query: map<string, string>): (l: int)
    ensures l != 0
    ensures "limit" !in query ==> l == DefaultLimit
  {
    QueryNumber(query, "limit", DefaultLimit)
  }

  /** `request.query.page` is truthy: the parameter is present and, as a
      JavaScript string, truthy. */
  function PageRequested(query: map<string, string>): (b: bool)
    ensures b <==> "page" in query && Truthy(JStr(query["page"]))
  {
    "page" in query && query["page"] != ""
  }

  /** The pair rule's guard: the four JavaScript tests come down to an
      object with both a `data` and a `meta` property. */
  function IsDataMetaPair(payload: Json): (b: bool)
    ensures b <==> Truthy(payload) && IsObjectType(payload) && payload.JObj?
                   && "data" in payload.fields && "meta" in payload.fields
  {
    payload.JObj? && "data" in payload.fields && "meta" in payload.fields
  }

  /** The metadata inferred for `items` under `query`: page and limit from
      the query, `total` the length of the array itself and `totalPages`
      the rounded-up quotient. */
  function InferPagination(items: seq<Json>, query: map<string, string>): (m: PaginationMeta)
    ensures m.page == PageOf(query) && m.limit == LimitOf(query)
    ensures m.page != 0 && m.limit != 0 && m.total == |items|
    ensures m.limit > 0 ==> m.limit * (m.totalPages - 1) < m.total <= m.limit * m.totalPages
    ensures m.limit < 0 ==> m.limit * m.totalPages <= m.total < m.limit * (m.totalPages - 1)
    ensures m.limit < 0 ==> m.totalPages <= 0
  {
    var limit := LimitOf(query);
    var totalPages := CeilDiv(|items|, limit);
    PaginationMeta(PageOf(query), limit, |items|, totalPages)
  }

  /** The map callback of `ResponseInterceptor.intercept`: `responseData`
      and `meta` start as the payload and `undefined`, the pair rule and
      then the array rule may overwrite them, and `meta` is attached to the
      envelope only when truthy. */
  method Intercept(payload: Json, request: Request, statusCode: int, timestamp: string)
    returns (r: ApiResponse)
    ensures r.success && r.statusCode == statusCode && r.timestamp == timestamp
    ensures r.path == request.url && r.httpMethod == request.httpMethod
    ensures IsDataMetaPair(payload) ==>
      && r.data == payload.fields["data"]
      && r.meta == (if Truthy(payload.fields["meta"]) then Some(PassThrough(payload.fields["meta"])) else None)
    ensures payload.JArr? && PageRequested(request.query) ==>
      r.data == payload && r.meta == Some(Inferred(InferPagination(payload.items, request.query)))
    ensures !IsDataMetaPair(payload) && !(payload.JArr? && PageRequested(request.query)) ==>
      r.data == payload && r.meta == None
  {
    var responseData := payload;
    var meta: Option<Meta> := None;

    if Truthy(payload) && IsObjectType(payload) && payload.JObj? && "data" in payload.fields && "meta" in payload.fields {
      responseData := payload.fields["data"];
      meta := Some(PassThrough(payload.fields["meta"]));
    }

    if payload.JArr? && "page" in request.query && request.query["page"] != "" {
      var page := PageOf(request.query);
      var limit := LimitOf(request.query);
      meta := Some(Inferred(PaginationMeta(page, limit, |payload.items|, CeilDiv(|payload.items|, limit))));
    }

    r := ApiResponse(true, statusCode, timestamp, request.url, request.httpMethod, responseData, None);

    if meta.Some? && MetaTruthy(meta.value) {
      r := r.(meta := meta);
    }
  }

  /** `?page=p&limit=l` with positive numbers is read back exactly. */
  lemma PageAndLimitRead(p: nat, l: nat, query: map<string, string>)
    requires p > 0 && l > 0
    requires "page" in query && query["page"] == Render(p)
    requires "limit" in query && query["limit"] == Render(l)
    ensures PageOf(query) == p && LimitOf(query) == l
  {
    ParseIntRender(p, "");
    ParseIntRender(l, "");
    assert Render(p) + "" == Render(p);
    assert Render(l) + "" == Render(l);
  }

  /** For an array answered to `?page=2&limit=5` the inferred metadata is
      page 2, limit 5, the array's length and its length divided by five,
      rounded up. */
  lemma PageTwoLimitFive(items: seq<Json>)
    ensures InferPagination(items, map["page" := "2", "limit" := "5"])
         == PaginationMeta(2, 5, |items|, (|items| + 4) / 5)
  {
  }

  /** A zero, a `-0`, a missing parameter or one that does not start (after
      whitespace) with a digit or a sign falls back to the default. */
  lemma ZeroFallsBack(query: map<string, string>)
    requires "limit" in query ==> query["limit"] in {"0", "-0"} || !StartsNumber(TrimStart(query["limit"]))
    ensures LimitOf(query) == DefaultLimit
  {
  }

  /** A negative limit is taken as it is, so `totalPages` comes out zero
      or negative: `?page=1&limit=-5` on a three-element array gives limit
      -5 and zero pages. */
  lemma NegativeLimitKept(items: seq<Json>)
    requires |items| == 3
    ensures InferPagination(items, map["page" := "1", "limit" := "-5"]).limit == -5
    ensures InferPagination(items, map["page" := "1", "limit" := "-5"]).totalPages == 0
  {
  }
}
