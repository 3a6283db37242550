/**
 The blocking backend: `Spotify::request` and the five verbs that feed it.
 Everything outside this file's own logic is a parameter: the token the
 token provider returns (`get_token`), the header `bearer_auth` builds from
 it, and the network call that turns a finished request into a response.
 */
module Ureq {
  import opened Results
  import opened Http

  /** The `std::io::Error` that reading a response body can fail with. */
  datatype IoError = IoError(message: string)

  /** ureq's status codes are `u16`. */
  type Status = n: int | 0 <= n < 0x1_0000

  /** What the network call hands back: whether `ok()` holds, the status
      line, and the body as `into_string` reads it. */
  datatype Response = Response(ok: bool, status: Status, statusText: string, body: Result<string, IoError>)

  /** The crate's `ClientError`, reduced to what this backend produces;
      `Other` stands for every further variant, which only the token provider
      can return here. */
  datatype ClientError =
    | StatusCode(status: Status, statusText: string)
    | Io(cause: IoError)
    | Other(detail: string)

  type ClientResult<T> = Result<T, ClientError>

  /** `ClientError::from_response`: a status error carrying the response's
      status code and status text. */
  function FromResponse(resp: Response): (e: ClientError)
    ensures e.StatusCode? && e.status == resp.status && e.statusText == resp.statusText
  {
    StatusCode(resp.status, resp.statusText)
  }

  /** The last step of `request`: an ok response yields its body text, a
      failure to read it becomes an `Io` error, and every response that is
      not ok becomes a `StatusCode` error carrying its status line. */
  function IntoResult(resp: Response): (r: ClientResult<string>)
    ensures r.Success? <==> resp.ok && resp.body.Success?
    ensures r.Success? ==> r.value == resp.body.value
    ensures (r.Failure? && r.error.StatusCode?) <==> !resp.ok
    ensures !resp.ok ==> r.error.status == resp.status && r.error.statusText == resp.statusText
    ensures resp.ok && resp.body.Failure? ==> r.error == Io(resp.body.error)
  {
    if resp.ok then
      match resp.body
      case Success(text) => Success(text)
      case Failure(e) => Failure(Io(e))
    else
      Failure(FromResponse(resp))
  }

  /** Header resolution: caller headers are set verbatim; without them the
      token is fetched and exactly one header, `bearer_auth` of the token, is
      set; a token failure is returned as is. Nothing but the headers changes. */
  function ResolveHeaders<Tok>(
    req: HttpRequest,
    headers: Option<StringMap>,
    token: ClientResult<Tok>,
    bearerAuth: Tok -> Pair): (r: ClientResult<HttpRequest>)
    ensures r.Failure? <==> headers.None? && token.Failure?
    ensures r.Failure? ==> r.error == token.error
    ensures r.Success? ==>
      r.value.verb == req.verb && r.value.url == req.url && r.value.query == req.query && r.value.body == req.body
    ensures headers.Some? ==> r.value.headers == req.headers + ToMap(headers.value)
    ensures headers.None? && token.Success? ==>
      r.value.headers == req.headers[bearerAuth(token.value).0 := bearerAuth(token.value).1]
  {
    match headers
    case Some(h) =>
      SetAllIsOverride(req, h);
      Success(SetAll(req, h))
    case None =>
      match token
      case Failure(e) => Failure(e)
      case Success(t) =>
        var (key, value) := bearerAuth(t);
        Success(Set(req, key, value))
  }

  /** What one call of `request` did: the request the network call was given,
      if it was made, and the result returned to the caller. */
  datatype Exchange = Exchange(sent: Option<HttpRequest>, result: ClientResult<string>)

  /** `Spotify::request`. `prepare` is what the verb's `send_request` closure
      does to the request before its network call, and `transport` is that
      call. A token failure returns before anything is sent; otherwise the
      result depends only on the response to the request that was sent. */
  function Request<Tok>(
    req: HttpRequest,
    headers: Option<StringMap>,
    token: ClientResult<Tok>,
    bearerAuth: Tok -> Pair,
    prepare: HttpRequest -> HttpRequest,
    transport: HttpRequest -> Response): (x: Exchange)
    ensures x.sent.None? <==> headers.None? && token.Failure?
    ensures x.sent.None? ==> x.result == Failure(token.error)
    ensures x.sent.Some? ==> x.sent.value == prepare(ResolveHeaders(req, headers, token, bearerAuth).value)
    ensures x.sent.Some? ==> x.result == IntoResult(transport(x.sent.value))
  {
    match ResolveHeaders(req, headers, token, bearerAuth)
    case Failure(e) => Exchange(None, Failure(e))
    case Success(authorized) =>
      var sent := prepare(authorized);
      Exchange(Some(sent), IntoResult(transport(sent)))
  }

  /** The header set every verb sends, given that something is sent: the
      caller's map when there is one, else the single bearer header. */
  function AuthHeaders<Tok>(headers: Option<StringMap>, token: ClientResult<Tok>, bearerAuth: Tok -> Pair): (m: map<string, string>)
    requires headers.Some? || token.Success?
  {
    if headers.Some? then ToMap(headers.value)
    else map[bearerAuth(token.value).0 := bearerAuth(token.value).1]
  }

  /** On a fresh request, header resolution yields exactly `AuthHeaders` and
      leaves the rest of the request empty. */
  lemma ResolveFresh<Tok>(verb: Method, url: string, headers: Option<StringMap>, token: ClientResult<Tok>, bearerAuth: Tok -> Pair)
    requires headers.Some? || token.Success?
    ensures ResolveHeaders(NewRequest(verb, url), headers, token, bearerAuth)
         == Success(HttpRequest(verb, url, AuthHeaders(headers, token, bearerAuth), [], NoBody))
  {
    var empty := NewRequest(verb, url);
    assert empty.headers == map[];
    if headers.Some? {
      assert empty.headers + ToMap(headers.value) == ToMap(headers.value);
    }
  }

  /** `x` is the exchange of a fresh `verb` request to `url` whose closure
      adds `query` and `body`, under the shared header policy and status
      mapping of `request`. */
  predicate Routed<Tok>(
    x: Exchange,
    verb: Method,
    url: string,
    query: seq<Pair>,
    body: Body,
    headers: Option<StringMap>,
    token: ClientResult<Tok>,
    bearerAuth: Tok -> Pair,
    transport: HttpRequest -> Response)
  {
    && (x.sent.None? <==> headers.None? && token.Failure?)
    && (x.sent.None? ==> x.result == Failure(token.error))
    && (x.sent.Some? ==>
          && x.sent.value == HttpRequest(verb, url, AuthHeaders(headers, token, bearerAuth), query, body)
          && x.result == IntoResult(transport(x.sent.value)))
  }

  /** `get`: the query pairs are added to the request inside the closure, in iteration order. */
  function Get<Tok>(
    url: string,
    headers: Option<StringMap>,
    payload: StringMap,
    token: ClientResult<Tok>,
    bearerAuth: Tok -> Pair,
    transport: HttpRequest -> Response): (x: Exchange)
    ensures Routed(x, GET, url, payload, NoBody, headers, token, bearerAuth, transport)
  {
    var x := Request(NewRequest(GET, url), headers, token, bearerAuth, (r: HttpRequest) => AddQueries(r, payload), transport);
    if headers.None? && token.Failure? then x
    else
      ResolveFresh(GET, url, headers, token, bearerAuth);
      x
  }

  /** `post`: the JSON payload is sent as the body. */
  function Post<Tok>(
    url: string,
    headers: Option<StringMap>,
    payload: string,
    token: ClientResult<Tok>,
    bearerAuth: Tok -> Pair,
    transport: HttpRequest -> Response): (x: Exchange)
    ensures Routed(x, POST, url, [], Json(payload), headers, token, bearerAuth, transport)
  {
    var x := Request(NewRequest(POST, url), headers, token, bearerAuth, (r: HttpRequest) => r.(body := Json(payload)), transport);
    if headers.None? && token.Failure? then x
    else
      ResolveFresh(POST, url, headers, token, bearerAuth);
      x
  }

  /** `post_form`: the form's pairs are collected in iteration order and sent unchanged. */
  function PostForm<Tok>(
    url: string,
    headers: Option<StringMap>,
    payload: StringMap,
    token: ClientResult<Tok>,
    bearerAuth: Tok -> Pair,
    transport: HttpRequest -> Response): (x: Exchange)
    ensures Routed(x, POST, url, [], Form(payload), headers, token, bearerAuth, transport)
  {
    // Collecting the borrowed pairs into a vector keeps the iteration order and every pair.
    var x := Request(NewRequest(POST, url), headers, token, bearerAuth, (r: HttpRequest) => r.(body := Form(payload)), transport);
    if headers.None? && token.Failure? then x
    else
      ResolveFresh(POST, url, headers, token, bearerAuth);
      x
  }

  /** `put`: the JSON payload is sent as the body. */
  function Put<Tok>(
    url: string,
    headers: Option<StringMap>,
    payload: string,
    token: ClientResult<Tok>,
    bearerAuth: Tok -> Pair,
    transport: HttpRequest -> Response): (x: Exchange)
    ensures Routed(x, PUT, url, [], Json(payload), headers, token, bearerAuth, transport)
  {
    var x := Request(NewRequest(PUT, url), headers, token, bearerAuth, (r: HttpRequest) => r.(body := Json(payload)), transport);
    if headers.None? && token.Failure? then x
    else
      ResolveFresh(PUT, url, headers, token, bearerAuth);
      x
  }

  /** `delete`: the JSON payload is sent as the body. */
  function Delete<Tok>(
    url: string,
    headers: Option<StringMap>,
    payload: string,
    token: ClientResult<Tok>,
    bearerAuth: Tok -> Pair,
    transport: HttpRequest -> Response): (x: Exchange)
    ensures Routed(x, DELETE, url, [], Json(payload), headers, token, bearerAuth, transport)
  {
    var x := Request(NewRequest(DELETE, url), headers, token, bearerAuth, (r: HttpRequest) => r.(body := Json(payload)), transport);
    if headers.None? && token.Failure? then x
    else
      ResolveFresh(DELETE, url, headers, token, bearerAuth);
      x
  }
}
