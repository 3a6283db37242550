/**
 Properties of the blocking backend's request policy that hold for every
 verb: override-or-default headers, the token short-circuit, and a result
 that depends only on the response to what was sent.
 */
module RequestPolicy {
  import opened Results
  import opened Http
  import opened Ureq

  /** Without caller headers and with a token, exactly one header is sent:
      the pair `bearer_auth` derives from the token. */
  lemma DefaultHeaderIsSingleBearer<Tok>(
    x: Exchange, verb: Method, url: string, query: seq<Pair>, body: Body,
    token: ClientResult<Tok>, bearerAuth: Tok -> Pair, transport: HttpRequest -> Response)
    requires Routed(x, verb, url, query, body, None, token, bearerAuth, transport)
    requires token.Success?
    ensures x.sent.Some?
    ensures x.sent.value.headers.Keys == {bearerAuth(token.value).0}
    ensures x.sent.value.headers[bearerAuth(token.value).0] == bearerAuth(token.value).1
  {
  }

  /** With caller headers, exactly the caller's pairs are sent, each verbatim;
      no bearer header is added unless the caller's map holds it. */
  lemma CallerHeadersVerbatim<Tok>(
    x: Exchange, verb: Method, url: string, query: seq<Pair>, body: Body, headers: StringMap,
    token: ClientResult<Tok>, bearerAuth: Tok -> Pair, transport: HttpRequest -> Response)
    requires Routed(x, verb, url, query, body, Some(headers), token, bearerAuth, transport)
    ensures x.sent.Some?
    ensures x.sent.value.headers.Keys == KeysOf(headers)
    ensures forall i :: 0 <= i < |headers| ==> x.sent.value.headers[headers[i].0] == headers[i].1
  {
  }

  /** With caller headers the token is never consulted: any two token
      outcomes give the same exchange. */
  lemma CallerHeadersIgnoreToken<Tok>(
    req: HttpRequest, headers: StringMap, token1: ClientResult<Tok>, token2: ClientResult<Tok>,
    bearerAuth: Tok -> Pair, prepare: HttpRequest -> HttpRequest, transport: HttpRequest -> Response)
    ensures Request(req, Some(headers), token1, bearerAuth, prepare, transport)
         == Request(req, Some(headers), token2, bearerAuth, prepare, transport)
  {
  }

  /** A token failure without caller headers is returned unchanged and
      nothing is sent. */
  lemma TokenFailureShortCircuits<Tok>(
    x: Exchange, verb: Method, url: string, query: seq<Pair>, body: Body,
    e: ClientError, bearerAuth: Tok -> Pair, transport: HttpRequest -> Response)
    requires Routed(x, verb, url, query, body, None, Failure(e), bearerAuth, transport)
    ensures x.sent.None?
    ensures x.result == Failure(e)
  {
  }

  /** Once a request is sent, the only outcomes are the body, an `Io` error
      reading it, or a `StatusCode` error carrying the response's status
      line; there is no other failure branch. */
  lemma SentOutcomes<Tok>(
    x: Exchange, verb: Method, url: string, query: seq<Pair>, body: Body, headers: Option<StringMap>,
    token: ClientResult<Tok>, bearerAuth: Tok -> Pair, transport: HttpRequest -> Response)
    requires Routed(x, verb, url, query, body, headers, token, bearerAuth, transport)
    requires x.sent.Some?
    ensures var resp := transport(x.sent.value);
      && (x.result.Success? <==> resp.ok && resp.body.Success?)
      && (x.result.Failure? ==> x.result.error.StatusCode? || x.result.error.Io?)
      && (!resp.ok ==> x.result == Failure(StatusCode(resp.status, resp.statusText)))
  {
  }

  /** The ok/not-ok split decides the outcome: an ok response with a
      readable body succeeds with that body whatever its status, and any
      response that is not ok fails whatever its body. */
  lemma OkDecidesOutcome(r1: Response, r2: Response)
    ensures r1.ok && r2.ok && r1.body == r2.body ==> IntoResult(r1) == IntoResult(r2)
    ensures !r1.ok && !r2.ok && r1.status == r2.status && r1.statusText == r2.statusText
      ==> IntoResult(r1) == IntoResult(r2)
  {
  }

  /** All five verbs route through `request`: they send under the same
      condition and with the same header set. */
  lemma VerbsShareHeaderPolicy<Tok>(
    url: string, headers: Option<StringMap>, query: StringMap, json: string, form: StringMap,
    token: ClientResult<Tok>, bearerAuth: Tok -> Pair, transport: HttpRequest -> Response)
    ensures var g, p, f, u, d :=
        Get(url, headers, query, token, bearerAuth, transport),
        Post(url, headers, json, token, bearerAuth, transport),
        PostForm(url, headers, form, token, bearerAuth, transport),
        Put(url, headers, json, token, bearerAuth, transport),
        Delete(url, headers, json, token, bearerAuth, transport);
      && g.sent.Some? == p.sent.Some? == f.sent.Some? == u.sent.Some? == d.sent.Some?
      && (g.sent.Some? ==>
            g.sent.value.headers == p.sent.value.headers == f.sent.value.headers
              == u.sent.value.headers == d.sent.value.headers)
      && (g.sent.None? ==> g.result == p.result == f.result == u.result == d.result)
  {
  }

  /** A GET sends every query pair, in the map's iteration order, and no body. */
  lemma GetSendsQuery<Tok>(
    url: string, headers: Option<StringMap>, query: StringMap,
    token: ClientResult<Tok>, bearerAuth: Tok -> Pair, transport: HttpRequest -> Response)
    ensures var x := Get(url, headers, query, token, bearerAuth, transport);
      x.sent.Some? ==> x.sent.value.query == query && x.sent.value.body == NoBody
  {
  }

  /** A form POST sends the form's pairs unchanged and adds no query. */
  lemma PostFormSendsPairs<Tok>(
    url: string, headers: Option<StringMap>, form: StringMap,
    token: ClientResult<Tok>, bearerAuth: Tok -> Pair, transport: HttpRequest -> Response)
    ensures var x := PostForm(url, headers, form, token, bearerAuth, transport);
      x.sent.Some? ==> x.sent.value.body == Form(form) && x.sent.value.query == []
  {
  }

  /** Caller headers replace the default entirely: an empty caller map sends
      a request with no header at all, not even an authorization header. */
  lemma EmptyCallerHeadersSendNone<Tok>(
    url: string, query: StringMap, token: ClientResult<Tok>,
    bearerAuth: Tok -> Pair, transport: HttpRequest -> Response)
    ensures var x := Get(url, Some([]), query, token, bearerAuth, transport);
      x.sent.Some? && x.sent.value.headers == map[]
  {
  }
}
