/**
 * What the two read-only proxy endpoints share: the upstream call they make
 * to the movie metadata service and how its outcome becomes their reply.
 */
module TmdbProxy {
  import opened Wrappers

  /** The single upstream request a handler issues. */
  datatype UpstreamRequest = Discover(page: int) | SearchTitle(query: string)

  /**
   * How the upstream call ends: the fetch itself rejects, or a response
   * arrives whose body is the parsed JSON `B`, or `None` when `json()` throws.
   */
  datatype Upstream<B> = NetworkError | Responded(status: int, statusText: string, json: Option<B>)

  datatype ReplyBody<B> = NoContent | Passthrough(data: B) | ErrorJson(error: string, message: Option<string>)

  /** Status, JSON body, and the upstream request made, if any. */
  datatype Reply<B> = Reply(status: int, body: ReplyBody<B>, called: Option<UpstreamRequest>)

  /** `response.ok`. */
  predicate Ok(status: int) {
    200 <= status <= 299
  }

  /** The catch-all answer to anything thrown inside a handler. */
  function InternalError<B>(called: Option<UpstreamRequest>): Reply<B> {
    Reply(500, ErrorJson("Internal Server Error", None), called)
  }

  /**
   * Issue `request` once and relay its outcome: a non-ok status is
   * forwarded unchanged, an ok one becomes 200 with the body passed through,
   * and anything thrown becomes 500.
   */
  function Forward<B>(request: UpstreamRequest, upstream: Upstream<B>): (r: Reply<B>)
    ensures r.called == Some(request)
    ensures upstream.Responded? && !Ok(upstream.status) ==>
              r.status == upstream.status && r.body == ErrorJson("Error fetching data from TMDB", Some(upstream.statusText))
    ensures r.body.Passthrough? <==> upstream.Responded? && Ok(upstream.status) && upstream.json.Some?
    ensures r.body.Passthrough? ==> r.status == 200 && r.body.data == upstream.json.value
    ensures r.status == 200 ==> r.body.Passthrough?
    ensures r.status == 500 && r.body.ErrorJson? && r.body.message.None? <==>
              upstream.NetworkError? || (Ok(upstream.status) && upstream.json.None?)
  {
    match upstream
    case NetworkError => InternalError(Some(request))
    case Responded(status, statusText, json) =>
      if !Ok(status) then
        Reply(status, ErrorJson("Error fetching data from TMDB", Some(statusText)), Some(request))
      else
        match json
        case Some(data) => Reply(200, Passthrough(data), Some(request))
        case None => InternalError(Some(request))
  }
}

/** `GET /api/popular?page=N`: one page of the popularity-ranked catalogue. */
module PopularApi {
  import opened Wrappers
  import opened TmdbProxy

  /** The largest page the endpoint serves. */
  const MaxPage: int := 50

  /** `!page || isNaN(page) || page < 1 || page > 50` rejects; `None` is NaN. */
  predicate ValidPage(page: Option<int>) {
    page.Some? && page.value != 0 && !(page.value < 1 || page.value > MaxPage)
  }

  /**
   * The handler, given the method, the result of `parseInt(req.query.page, 10)`,
   * and what the upstream call would produce if it were made.
   */
  function Handle<B>(httpMethod: string, page: Option<int>, upstream: Upstream<B>): (r: Reply<B>)
    ensures r.status == 204 <==> httpMethod == "OPTIONS"
    ensures r.status == 204 ==> r.body == NoContent && r.called.None?
    ensures r.called.None? && r.status == 405 <==> httpMethod != "OPTIONS" && httpMethod != "GET"
    ensures r.called.None? && r.status == 400 <==>
              httpMethod == "GET" && (page.None? || page.value < 1 || page.value > 50)
    ensures r.called.Some? <==> httpMethod == "GET" && page.Some? && 1 <= page.value <= 50
    ensures r.called.Some? ==> r == Forward(Discover(page.value), upstream)
  {
    if httpMethod == "OPTIONS" then
      Reply(204, NoContent, None)
    else if httpMethod != "GET" then
      Reply(405, ErrorJson("Method Not Allowed", None), None)
    else if !ValidPage(page) then
      Reply(400, ErrorJson("Bad Request", Some("Invalid page number.")), None)
    else
      Forward(Discover(page.value), upstream)
  }
}

/** `GET /api/search?query=Q`: title search. */
module SearchApi {
  import opened Wrappers
  import opened JsValue
  import opened TmdbProxy

  /** `req.query.query`, `undefined` when the parameter is absent. */
  function QueryParam(params: map<string, Value>): Value {
    if "query" in params then params["query"] else Undefined
  }

  /**
   * The handler.  It reads neither the method nor any parameter other than
   * `query`.
   */
  function Handle<B>(httpMethod: string, params: map<string, Value>, upstream: Upstream<B>): (r: Reply<B>)
    ensures r.called.None? <==> !(QueryParam(params).Str? && QueryParam(params).s != "")
    ensures r.called.None? ==>
              r == Reply(400, ErrorJson("Bad Request", Some("Missing or invalid query parameter")), None)
    ensures r.called.Some? ==> r == Forward(SearchTitle(QueryParam(params).s), upstream)
  {
    var query := QueryParam(params);
    if !Truthy(query) || TypeOf(query) != "string" then
      Reply(400, ErrorJson("Bad Request", Some("Missing or invalid query parameter")), None)
    else
      Forward(SearchTitle(query.s), upstream)
  }

  /**
   * The reply depends on the request only through `query`: the method and
   * the `page` parameter make no difference, so every page of a search
   * issues the same upstream request.
   */
  lemma OnlyQueryMatters<B>(m1: string, m2: string, p1: map<string, Value>, p2: map<string, Value>, upstream: Upstream<B>)
    requires QueryParam(p1) == QueryParam(p2)
    ensures Handle(m1, p1, upstream) == Handle(m2, p2, upstream)
  {
  }
}

/**
 * Seen from the client, whose wrappers test `response.ok`: a relayed reply
 * is ok exactly when it carries the upstream data.
 */
module ProxyClientView {
  import opened Wrappers
  import opened JsValue
  import opened TmdbProxy
  import PopularApi
  import SearchApi

  lemma ForwardOkIffPassthrough<B>(request: UpstreamRequest, upstream: Upstream<B>)
    ensures Ok(Forward(request, upstream).status) <==> Forward(request, upstream).body.Passthrough?
  {
  }

  /** Apart from the OPTIONS preflight, a popular reply is ok exactly when it relays upstream data. */
  lemma PopularOkIffPassthrough<B>(httpMethod: string, page: Option<int>, upstream: Upstream<B>)
    ensures Ok(PopularApi.Handle(httpMethod, page, upstream).status) <==>
              httpMethod == "OPTIONS" || PopularApi.Handle(httpMethod, page, upstream).body.Passthrough?
  {
    if httpMethod == "GET" && PopularApi.ValidPage(page) {
      ForwardOkIffPassthrough(Discover(page.value), upstream);
    }
  }

  /** A search reply is ok exactly when it relays upstream data. */
  lemma SearchOkIffPassthrough<B>(httpMethod: string, params: map<string, Value>, upstream: Upstream<B>)
    ensures Ok(SearchApi.Handle(httpMethod, params, upstream).status) <==>
              SearchApi.Handle(httpMethod, params, upstream).body.Passthrough?
  {
    var q := SearchApi.QueryParam(params);
    if q.Str? && q.s != "" {
      ForwardOkIffPassthrough(SearchTitle(q.s), upstream);
    }
  }
}
