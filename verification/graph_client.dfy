/** The request pipeline every tool goes through: admission by the rate
    limiter, a valid bearer token, one send, one retry after a 429 (after
    sleeping out the backoff), one retry after a 401 (after a refresh), then
    the mapping of the final response to a value or an error. The network is
    an oracle: the n-th send of a call receives `transport(n)` and the n-th
    token-endpoint call `tokenEndpoint(n)`. Sending takes no time; sleeping
    advances both clocks. */
module GraphClient {
  import opened Base
  import opened Text
  import opened Json
  import opened Errors
  import opened RateLimiter
  import opened TokenStore
  import opened Auth
  import Base64Url

  const BaseUrl: string := "https://graph.microsoft.com/v1.0"
  const SessionExpiredMessage: string := "Session expired. Please log in again."
  const RetryExhaustedMessage: string := "Rate limit exceeded after retry"

  /** The absolute URL of a Graph path, with or without its leading slash. */
  function Url(path: string): string {
    if |path| > 0 && path[0] == '/' then BaseUrl + path else BaseUrl + "/" + path
  }

  /** Every URL lies under the service root followed by a slash, and a
      relative path and its slash-prefixed form name the same resource. */
  lemma UrlJoin(path: string)
    ensures StartsWith(Url(path), BaseUrl + "/")
    ensures |path| > 0 && path[0] == '/' ==> Url(path) == BaseUrl + path
    ensures !(|path| > 0 && path[0] == '/') ==> Url(path) == BaseUrl + "/" + path && Url("/" + path) == Url(path)
  {
    if |path| > 0 && path[0] == '/' {
      assert Url(path)[..|BaseUrl + "/"|] == BaseUrl + "/";
    } else {
      assert ("/" + path)[0] == '/';
      assert BaseUrl + ("/" + path) == BaseUrl + "/" + path;
    }
  }

  datatype Method = GET | POST | PATCH | DELETE | PUT

  /** What a request carries: nothing, a JSON body, or raw bytes. */
  datatype Payload = NoPayload | JsonPayload(json: Value) | RawPayload(bytes: seq<Base64Url.byte>)

  /** What a caller of the client asks for. */
  datatype Request = Request(
    verb: Method, path: string, params: map<string, string>,
    payload: Payload, headers: map<string, string>)

  /** What goes over the wire. */
  datatype Sent = Sent(
    verb: Method, url: string, params: map<string, string>,
    payload: Payload, headers: map<string, string>)

  /** `get`, `post`, `patch` and `delete`: the client's four verbs. */
  function GetRequest(path: string, params: map<string, string>, headers: map<string, string>): Request {
    Request(GET, path, params, NoPayload, headers)
  }

  function PostRequest(path: string, body: Value, params: map<string, string>, headers: map<string, string>): Request {
    Request(POST, path, params, JsonPayload(body), headers)
  }

  function PatchRequest(path: string, body: Value, headers: map<string, string>): Request {
    Request(PATCH, path, map[], JsonPayload(body), headers)
  }

  function DeleteRequest(path: string, headers: map<string, string>): Request {
    Request(DELETE, path, map[], NoPayload, headers)
  }

  /** The `Retry-After` header as `float()` reads it: absent (read as
      `"0"`), whole seconds, or text `float()` rejects. */
  datatype RetryAfter = NoRetryAfter | RetryAfterSeconds(seconds: int) | RetryAfterUnparsable(text: string)

  /** A response: its status, `Retry-After`, the body when it parses as
      JSON, the raw text, and the message `json.loads` raises for the text
      when it does not parse (which depends on where the text goes wrong). */
  datatype Response = Response(status: int, retryAfter: RetryAfter, body: Option<Value>, text: string,
                               decodeError: string)

  /** `float(header) or None`: zero reads as no interval; unparsable text
      raises a `ValueError` quoting the text as `repr` writes it. */
  function RetryInterval(h: RetryAfter): (r: Result<Option<int>, GraphError>)
    ensures r.Err? <==> h.RetryAfterUnparsable?
    ensures r.Err? ==> r.error == OtherError("could not convert string to float: " + Repr(h.text))
    ensures r.Ok? && r.value.Some? ==> h == RetryAfterSeconds(r.value.value) && r.value.value != 0
    ensures r == Ok(None) <==> h == NoRetryAfter || h == RetryAfterSeconds(0)
  {
    match h
    case NoRetryAfter => Ok(None)
    case RetryAfterSeconds(n) => if n == 0 then Ok(None) else Ok(Some(n))
    case RetryAfterUnparsable(text) => Err(OtherError("could not convert string to float: " + Repr(text)))
  }

  /** Header text without quotes, backslashes or unprintable characters is
      quoted as it is in the `ValueError`, and any header can be read back
      from the message. */
  lemma RetryIntervalQuotesText(text: string)
    ensures var r := RetryInterval(RetryAfterUnparsable(text));
      var prefix := "could not convert string to float: ";
      && r.Err? && r.error.OtherError? && prefix <= r.error.message
      && var quoted := r.error.message[|prefix|..];
         |quoted| >= 2 && Unescape(quoted[1..|quoted| - 1]) == text
    ensures (forall i :: 0 <= i < |text| ==> PlainIn(text[i], '\''))
      ==> RetryInterval(RetryAfterUnparsable(text)) == Err(OtherError("could not convert string to float: '" + text + "'"))
  {
    var prefix := "could not convert string to float: ";
    var r := Repr(text);
    var message := prefix + r;
    assert message[|prefix|..] == r;
    ReprReadsBack(text);
    if forall i :: 0 <= i < |text| ==> PlainIn(text[i], '\'') {
      ReprPlain(text);
      assert prefix + ("'" + text + "'") == "could not convert string to float: '" + text + "'";
    }
  }

  /** Python's `str()` of a scalar JSON value; containers fall back to `fallback`. */
  function ScalarText(v: Value, fallback: string): string {
    match v
    case Str(s) => s
    case Num(n) => IntToString(n)
    case Bool(b) => if b then "True" else "False"
    case Null => "None"
    case _ => fallback
  }

  /** The detail of an error response: `str()` of the body's
      `error.message` when the body is a JSON object whose `error` is an
      object holding a message, else the raw text. */
  function ErrorDetail(r: Response): (d: string)
    ensures r.body.None? ==> d == r.text
    ensures r.body.Some? && r.body.value.Obj? && "error" !in r.body.value.fields ==> d == r.text
    ensures r.body.Some? && r.body.value.Obj? && "error" in r.body.value.fields
            && r.body.value.fields["error"].Obj? && "message" !in r.body.value.fields["error"].fields ==>
      d == r.text
    ensures r.body.Some? && r.body.value.Obj? && "error" in r.body.value.fields
            && r.body.value.fields["error"].Obj? && "message" in r.body.value.fields["error"].fields ==>
      var m := r.body.value.fields["error"].fields["message"];
      && (m.Str? ==> d == m.s)
      && (m.Num? ==> d == IntToString(m.n))
      && (m.Bool? ==> d == if m.b then "True" else "False")
      && (m == Null ==> d == "None")
    ensures (r.body.Some? && !(r.body.value.Obj? &&
              ("error" !in r.body.value.fields || r.body.value.fields["error"].Obj?))) ==> d == r.text
  {
    match r.body
    case None => r.text
    case Some(b) =>
      match Get(b, "error", Obj(map[]))
      case None => r.text
      case Some(err) =>
        match Get(err, "message", Str(r.text))
        case None => r.text
        case Some(m) => ScalarText(m, r.text)
  }

  /** The two clocks: monotonic seconds for the limiter, wall seconds for
      token expiry. */
  datatype Clock = Clock(mono: int, wall: int)

  /** `asyncio.sleep(d)`: a non-positive delay returns at once. */
  function Sleep(c: Clock, d: int): (r: Clock)
    ensures r.mono >= c.mono && r.wall >= c.wall
    ensures r.mono - c.mono == r.wall - c.wall
    ensures d > 0 ==> r.mono == c.mono + d
    ensures d <= 0 ==> r == c
  {
    if d > 0 then Clock(c.mono + d, c.wall + d) else c
  }

  /** The shared state a call reads and changes, and what it did on the way. */
  datatype Trace = Trace(
    limiter: Limiter, auth: AuthManager, clock: Clock,
    sent: seq<Sent>, tokenCalls: seq<TokenRequest>)

  /** The configuration and the network the call runs against. */
  datatype Context = Context(
    settings: Settings,
    transport: nat -> Response,
    tokenEndpoint: nat -> TokenReply)

  datatype Outcome = Outcome(trace: Trace, result: Result<Option<Value>, GraphError>)

  /** The headers of the first send: the bearer token, then the caller's
      headers, which win on a clash. */
  function InitialHeaders(token: string, extra: map<string, string>): (h: map<string, string>)
    ensures "Authorization" in h
    ensures "Authorization" !in extra ==> h["Authorization"] == "Bearer " + token
    ensures forall k :: k in extra ==> k in h && h[k] == extra[k]
    ensures h.Keys == extra.Keys + {"Authorization"}
  {
    map["Authorization" := "Bearer " + token] + extra
  }

  datatype Fetched = Fetched(trace: Trace, token: Result<string, GraphError>)

  /** `get_valid_access_token` at the wall clock, against the next token
      reply: a fresh token is handed out as it is, with no token call; an
      expired one is refreshed first and the refreshed token handed out. */
  function FetchToken(t: Trace, ctx: Context): (f: Fetched)
    ensures f.trace.limiter == t.limiter && f.trace.clock == t.clock && f.trace.sent == t.sent
    ensures |t.tokenCalls| <= |f.trace.tokenCalls| <= |t.tokenCalls| + 1
    ensures f.trace.tokenCalls[..|t.tokenCalls|] == t.tokenCalls
    ensures f.token.Ok? ==> f.token.value != "" && AccessToken(f.trace.auth.store) == Some(f.token.value)
    ensures f.token.Err? ==> f.token.error == AuthenticationError(NotAuthenticatedMessage)
    ensures !IsAccessTokenExpired(t.auth.store, t.clock.wall, DefaultBuffer) ==>
      f.trace == t && (f.token.Ok? <==> AccessToken(t.auth.store).value != "")
    ensures IsAccessTokenExpired(t.auth.store, t.clock.wall, DefaultBuffer) ==>
      var r := RefreshOf(t, ctx);
      f.trace == AfterRefresh(t, ctx)
      && (f.token.Ok? <==> r.ok && AccessToken(r.manager.store).Some? && AccessToken(r.manager.store).value != "")
  {
    var g := GetValidAccessToken(t.auth, ctx.settings, t.clock.wall, ctx.tokenEndpoint(|t.tokenCalls|));
    Fetched(t.(auth := g.manager, tokenCalls := t.tokenCalls + g.calls), g.result)
  }

  datatype Transmitted = Transmitted(trace: Trace, response: Response)

  /** One send of the request with `headers`; its response is the oracle's
      answer to the next send. */
  function Transmit(t: Trace, ctx: Context, req: Request, headers: map<string, string>): (x: Transmitted)
    ensures x.trace == t.(sent := t.sent + [Sent(req.verb, Url(req.path), req.params, req.payload, headers)])
    ensures x.response == ctx.transport(|t.sent|)
  {
    Transmitted(t.(sent := t.sent + [Sent(req.verb, Url(req.path), req.params, req.payload, headers)]),
                ctx.transport(|t.sent|))
  }

  /** The caller's headers other than `Authorization` are all in `h`. */
  predicate CarriesCallerHeaders(h: map<string, string>, req: Request) {
    forall k :: k in req.headers && k != "Authorization" ==> k in h && h[k] == req.headers[k]
  }

  /** Every send of a call is the caller's request: the same verb, URL,
      parameters and payload, and the caller's headers, only the bearer token
      differing. */
  predicate SameRequest(sent: seq<Sent>, req: Request) {
    forall i :: 0 <= i < |sent| ==>
      sent[i].verb == req.verb && sent[i].url == Url(req.path)
      && sent[i].params == req.params && sent[i].payload == req.payload
      && CarriesCallerHeaders(sent[i].headers, req)
  }

  /** The last response of a call that sent something. */
  function LastResponse(t: Trace, ctx: Context): Response
    requires |t.sent| > 0
  {
    ctx.transport(|t.sent| - 1)
  }

  /** How a call that sent something ends, read off its last response: an
      error status other than 401 and 429 raises `GraphAPIError` with that
      status and its detail; a final 401 or 429 is an error too; a success
      status clears the backoff and returns `None` for 204, else the JSON
      body, failing only when there is none. */
  predicate Settled(o: Outcome, ctx: Context)
    requires |o.trace.sent| > 0
  {
    var last := LastResponse(o.trace, ctx);
    && (last.status >= 400 && last.status != 401 && last.status != 429 ==>
          o.result == Err(GraphApiError(IntToString(last.status) + ": " + ErrorDetail(last), Some(last.status))))
    && (last.status == 401 || last.status == 429 ==> o.result.Err?)
    && (last.status < 400 ==>
          && o.trace.limiter.backoffCount == 0 && o.trace.limiter.backoffUntil == 0
          && (o.result.Ok? <==> last.status == 204 || last.body.Some?)
          && (o.result.Ok? ==> o.result.value == if last.status == 204 then None else last.body))
  }

  /** The last send carried the token the store holds now. */
  predicate LastSendCarriesToken(t: Trace) {
    |t.sent| > 0 ==>
      && AccessToken(t.auth.store).Some?
      && "Authorization" in t.sent[|t.sent| - 1].headers
      && t.sent[|t.sent| - 1].headers["Authorization"] == "Bearer " + AccessToken(t.auth.store).value
  }

  /** A call that succeeds after a retry sent that retry with the token the
      store holds when the call ends. */
  predicate RetryCarriesCurrentToken(o: Outcome) {
    o.result.Ok? && |o.trace.sent| > 1 ==> LastSendCarriesToken(o.trace)
  }

  /** The final response: an error status raises with the status and its
      detail; anything else clears the backoff, and then 204 is `None` and
      any other body is its JSON, a body that is not JSON raising. */
  function Finish(t: Trace, resp: Response): (o: Outcome)
    ensures o.trace.sent == t.sent && o.trace.tokenCalls == t.tokenCalls
    ensures o.trace.auth == t.auth && o.trace.clock == t.clock
    ensures resp.status >= 400 ==>
      o.trace.limiter == t.limiter
      && o.result == Err(GraphApiError(IntToString(resp.status) + ": " + ErrorDetail(resp), Some(resp.status)))
    ensures resp.status < 400 ==> o.trace.limiter == ResetBackoff(t.limiter)
    ensures resp.status < 400 ==> (o.result.Ok? <==> resp.status == 204 || resp.body.Some?)
    ensures resp.status == 204 ==> o.result == Ok(None)
    ensures resp.status < 400 && resp.status != 204 && resp.body.Some? ==> o.result == Ok(resp.body)
    ensures resp.status < 400 && resp.status != 204 && resp.body.None? ==> o.result == Err(OtherError(resp.decodeError))
  {
    if resp.status >= 400 then
      Outcome(t, Err(GraphApiError(IntToString(resp.status) + ": " + ErrorDetail(resp), Some(resp.status))))
    else
      var t' := t.(limiter := ResetBackoff(t.limiter));
      if resp.status == 204 then Outcome(t', Ok(None))
      else if resp.body.None? then Outcome(t', Err(OtherError(resp.decodeError)))
      else Outcome(t', Ok(resp.body))
  }

  /** `Finish` on the last response settles the call. */
  lemma FinishSettles(t: Trace, ctx: Context)
    requires |t.sent| > 0
    ensures Settled(Finish(t, LastResponse(t, ctx)), ctx)
  {
  }

  /** Sending again with headers that carry the caller's keeps every send the
      caller's request. */
  lemma TransmitKeepsRequest(t: Trace, ctx: Context, req: Request, h: map<string, string>)
    requires SameRequest(t.sent, req) && CarriesCallerHeaders(h, req)
    ensures SameRequest(Transmit(t, ctx, req, h).trace.sent, req)
  {
    var sent := Transmit(t, ctx, req, h).trace.sent;
    assert forall i :: 0 <= i < |t.sent| ==> sent[i] == t.sent[i];
  }

  /** Sending again with the caller's headers over the stored token keeps
      every send the caller's request, and the new send carries that token. */
  lemma ResendKeepsRequest(t: Trace, ctx: Context, req: Request, headers: map<string, string>, token: string)
    requires SameRequest(t.sent, req) && CarriesCallerHeaders(headers, req)
    requires AccessToken(t.auth.store) == Some(token)
    ensures var h := headers["Authorization" := "Bearer " + token];
      var x := Transmit(t, ctx, req, h);
      && CarriesCallerHeaders(h, req)
      && |x.trace.sent| == |t.sent| + 1 && x.trace.sent[..|t.sent|] == t.sent
      && x.trace.sent[|t.sent|].headers == h
      && x.response == LastResponse(x.trace, ctx)
      && SameRequest(x.trace.sent, req) && LastSendCarriesToken(x.trace)
      && x.trace.auth == t.auth && x.trace.clock == t.clock
  {
    var h := headers["Authorization" := "Bearer " + token];
    TransmitKeepsRequest(t, ctx, req, h);
  }

  /** The second half of the 401 branch, after a successful refresh: fetch
      the current token and send once more; another 401 ends the session. */
  function ResendAfterRefresh(t: Trace, ctx: Context, req: Request, headers: map<string, string>): (o: Outcome)
    requires |t.sent| > 0 && LastResponse(t, ctx).status == 401
    requires SameRequest(t.sent, req) && CarriesCallerHeaders(headers, req)
    ensures |t.sent| <= |o.trace.sent| <= |t.sent| + 1 && o.trace.sent[..|t.sent|] == t.sent
    ensures o.trace.clock == t.clock
    ensures SameRequest(o.trace.sent, req) && Settled(o, ctx) && RetryCarriesCurrentToken(o)
    ensures |o.trace.sent| > |t.sent| ==>
      AccessToken(o.trace.auth.store).Some? &&
      o.trace.sent[|t.sent|].headers == headers["Authorization" := "Bearer " + AccessToken(o.trace.auth.store).value]
    ensures LastResponse(o.trace, ctx).status == 401 ==>
      (o.result == Err(AuthenticationError(SessionExpiredMessage))
       || o.result == Err(AuthenticationError(NotAuthenticatedMessage)))
  {
    var f := FetchToken(t, ctx);
    if f.token.Err? then Outcome(f.trace, Err(f.token.error))
    else
      var h := headers["Authorization" := "Bearer " + f.token.value];
      var x := Transmit(f.trace, ctx, req, h);
      ResendKeepsRequest(f.trace, ctx, req, headers, f.token.value);
      if x.response.status == 401 then Outcome(x.trace, Err(AuthenticationError(SessionExpiredMessage)))
      else
        FinishSettles(x.trace, ctx);
        Finish(x.trace, x.response)
  }

  /** The 401 branch: any other response finishes the call; a 401 refreshes
      and, when that succeeds, sends once more with the current token; a
      refused refresh or a second 401 ends the session. */
  function On401(t: Trace, ctx: Context, req: Request, headers: map<string, string>, resp: Response): (o: Outcome)
    requires |t.sent| > 0 && resp == LastResponse(t, ctx)
    requires SameRequest(t.sent, req) && CarriesCallerHeaders(headers, req)
    requires |t.sent| > 1 ==> LastSendCarriesToken(t)
    ensures |t.sent| <= |o.trace.sent| <= |t.sent| + 1 && o.trace.sent[..|t.sent|] == t.sent
    ensures SameRequest(o.trace.sent, req) && Settled(o, ctx) && RetryCarriesCurrentToken(o)
    ensures o.trace.clock == t.clock
    ensures resp.status != 401 ==> o == Finish(t, resp)
    ensures resp.status == 401 ==> o == Unauthorized(t, ctx, req, headers)
  {
    if resp.status != 401 then
      FinishSettles(t, ctx);
      Finish(t, resp)
    else Unauthorized(t, ctx, req, headers)
  }

  /** A 401: refresh; a refused refresh ends the session, a successful one
      sends once more. */
  function Unauthorized(t: Trace, ctx: Context, req: Request, headers: map<string, string>): (o: Outcome)
    requires |t.sent| > 0 && LastResponse(t, ctx).status == 401
    requires SameRequest(t.sent, req) && CarriesCallerHeaders(headers, req)
    ensures |t.sent| <= |o.trace.sent| <= |t.sent| + 1 && o.trace.sent[..|t.sent|] == t.sent
    ensures SameRequest(o.trace.sent, req) && Settled(o, ctx) && RetryCarriesCurrentToken(o)
    ensures o.trace.clock == t.clock
    ensures !RefreshOf(t, ctx).ok ==>
      o == Outcome(AfterRefresh(t, ctx), Err(AuthenticationError(SessionExpiredMessage)))
    ensures RefreshOf(t, ctx).ok ==> o == ResendAfterRefresh(AfterRefresh(t, ctx), ctx, req, headers)
  {
    var t1 := AfterRefresh(t, ctx);
    if !RefreshOf(t, ctx).ok then Outcome(t1, Err(AuthenticationError(SessionExpiredMessage)))
    else ResendAfterRefresh(t1, ctx, req, headers)
  }

  /** `refresh_access_token` at the wall clock, against the next token reply. */
  function RefreshOf(t: Trace, ctx: Context): Refreshed {
    RefreshAccessToken(t.auth, ctx.settings, t.clock.wall, ctx.tokenEndpoint(|t.tokenCalls|))
  }

  /** The trace after that refresh: only the credentials and the token calls change. */
  function AfterRefresh(t: Trace, ctx: Context): (t': Trace)
    ensures t'.sent == t.sent && t'.clock == t.clock && t'.limiter == t.limiter
  {
    t.(auth := RefreshOf(t, ctx).manager, tokenCalls := t.tokenCalls + RefreshOf(t, ctx).calls)
  }

  /** The second half of the 429 branch, after the backoff: fetch the current
      token and send once more; another 429 gives up, anything else goes on
      to the 401 branch. */
  function ResendAfterBackoff(t: Trace, ctx: Context, req: Request, headers: map<string, string>): (o: Outcome)
    requires |t.sent| == 1 && LastResponse(t, ctx).status == 429
    requires SameRequest(t.sent, req) && CarriesCallerHeaders(headers, req)
    ensures 1 <= |o.trace.sent| <= 3 && o.trace.sent[..1] == t.sent
    ensures SameRequest(o.trace.sent, req) && Settled(o, ctx) && RetryCarriesCurrentToken(o)
    ensures o.trace.clock == t.clock
    ensures |o.trace.sent| == 2 && LastResponse(o.trace, ctx).status == 429 ==>
      o.result == Err(GraphApiError(RetryExhaustedMessage, Some(429))) && o.trace.limiter == t.limiter
  {
    var f := FetchToken(t, ctx);
    if f.token.Err? then Outcome(f.trace, Err(f.token.error))
    else
      var h := headers["Authorization" := "Bearer " + f.token.value];
      var x := Transmit(f.trace, ctx, req, h);
      ResendKeepsRequest(f.trace, ctx, req, headers, f.token.value);
      if x.response.status == 429 then Outcome(x.trace, Err(GraphApiError(RetryExhaustedMessage, Some(429))))
      else On401(x.trace, ctx, req, h, x.response)
  }

  /** The 429 branch: back off (the server's interval, else the doubling
      delay) and sleep it out before sending again; an unparsable
      `Retry-After` raises before any of that. */
  function On429(t: Trace, ctx: Context, req: Request, headers: map<string, string>, resp: Response): (o: Outcome)
    requires |t.sent| == 1 && resp == LastResponse(t, ctx)
    requires SameRequest(t.sent, req) && CarriesCallerHeaders(headers, req)
    ensures 1 <= |o.trace.sent| <= 3 && o.trace.sent[..1] == t.sent
    ensures SameRequest(o.trace.sent, req) && Settled(o, ctx) && RetryCarriesCurrentToken(o)
    ensures resp.status != 429 ==> o == On401(t, ctx, req, headers, resp)
    ensures resp.status == 429 && resp.retryAfter.RetryAfterUnparsable? ==>
      o.trace == t && o.result == Err(RetryInterval(resp.retryAfter).error)
    ensures resp.status == 429 && !resp.retryAfter.RetryAfterUnparsable? ==>
      var b := Handle429(t.limiter, t.clock.mono, RetryInterval(resp.retryAfter).value);
      o == ResendAfterBackoff(t.(limiter := b.limiter, clock := Sleep(t.clock, b.delay)), ctx, req, headers)
  {
    if resp.status != 429 then On401(t, ctx, req, headers, resp)
    else
      match RetryInterval(resp.retryAfter)
      case Err(e) => Outcome(t, Err(e))
      case Ok(interval) =>
        var b := Handle429(t.limiter, t.clock.mono, interval);
        ResendAfterBackoff(t.(limiter := b.limiter, clock := Sleep(t.clock, b.delay)), ctx, req, headers)
  }

  /** The start of `_request`: wait for the limiter, then get a valid token.
      Nothing is sent yet. */
  function Admit(limiter: Limiter, auth: AuthManager, clock: Clock, ctx: Context): (f: Fetched)
    ensures f.trace.sent == [] && |f.trace.tokenCalls| <= 1
    ensures f.trace.clock == Sleep(clock, Acquire(limiter, clock.mono).waited)
    ensures f.trace.limiter == Acquire(limiter, clock.mono).limiter
    ensures Acquire(limiter, clock.mono).admitted.Err? ==>
      f.trace.tokenCalls == [] && f.trace.auth == auth
      && f.token == Err(Acquire(limiter, clock.mono).admitted.error) && f.token.error.RateLimitError?
    ensures f.token.Ok? ==> f.token.value != "" && AccessToken(f.trace.auth.store) == Some(f.token.value)
    ensures Acquire(limiter, clock.mono).admitted.Ok? && f.token.Err? ==>
      f.token.error == AuthenticationError(NotAuthenticatedMessage)
  {
    var a := Acquire(limiter, clock.mono);
    var t0 := Trace(a.limiter, auth, Sleep(clock, a.waited), [], []);
    if a.admitted.Err? then Fetched(t0, Err(a.admitted.error)) else FetchToken(t0, ctx)
  }

  /** `_request`: admission and a token, the first send with the caller's
      headers over the bearer token, then the 429 and 401 branches. */
  function Execute(limiter: Limiter, auth: AuthManager, clock: Clock, ctx: Context, req: Request): (o: Outcome)
    ensures |o.trace.sent| <= 3
  {
    var f := Admit(limiter, auth, clock, ctx);
    if f.token.Err? then Outcome(f.trace, Err(f.token.error))
    else
      var h := InitialHeaders(f.token.value, req.headers);
      var x := Transmit(f.trace, ctx, req, h);
      FirstSendIsRequest(f.trace, ctx, req, f.token.value);
      On429(x.trace, ctx, req, h, x.response)
  }

  /** The first send of a call is the caller's request, and its response is
      the call's last response so far. */
  lemma FirstSendIsRequest(t: Trace, ctx: Context, req: Request, token: string)
    requires t.sent == []
    ensures var h := InitialHeaders(token, req.headers);
      var x := Transmit(t, ctx, req, h);
      && CarriesCallerHeaders(h, req)
      && |x.trace.sent| == 1 && x.response == LastResponse(x.trace, ctx)
      && SameRequest(x.trace.sent, req)
  {
    var h := InitialHeaders(token, req.headers);
    TransmitKeepsRequest(t, ctx, req, h);
  }

  /** What every call guarantees: at most three sends, all of them the
      caller's request; a refused admission sends nothing and contacts no
      token endpoint; a call sends nothing exactly when admission or the
      token fails, and then it fails with that error (a missing token with
      the not-authenticated error); a call that sent something is settled by
      its last response; success clears the backoff and, after a retry, used
      the token the store now holds. */
  lemma ExecuteContract(limiter: Limiter, auth: AuthManager, clock: Clock, ctx: Context, req: Request)
    ensures var o := Execute(limiter, auth, clock, ctx, req);
      && SameRequest(o.trace.sent, req) && RetryCarriesCurrentToken(o)
      && (|o.trace.sent| > 0 ==> Settled(o, ctx))
      && (Acquire(limiter, clock.mono).admitted.Err? ==>
            o.trace.sent == [] && o.trace.tokenCalls == [] && o.trace.auth == auth
            && o.result == Err(Acquire(limiter, clock.mono).admitted.error) && o.result.error.RateLimitError?)
      && (o.trace.sent == [] <==> Admit(limiter, auth, clock, ctx).token.Err?)
      && (o.trace.sent == [] ==> o.result == Err(Admit(limiter, auth, clock, ctx).token.error))
      && (Acquire(limiter, clock.mono).admitted.Ok? && Admit(limiter, auth, clock, ctx).token.Err? ==>
            o.trace.sent == [] && o.result == Err(AuthenticationError(NotAuthenticatedMessage)))
      && |o.trace.sent| <= 3
      && (o.result.Ok? ==> o.trace.limiter.backoffCount == 0 && o.trace.limiter.backoffUntil == 0)
  {
  }

  /** A call admitted at once with a fresh, non-empty token. */
  predicate ReadyToSend(limiter: Limiter, auth: AuthManager, clock: Clock) {
    && clock.mono >= limiter.backoffUntil
    && Acquire(limiter, clock.mono).admitted.Ok?
    && !IsAccessTokenExpired(auth.store, clock.wall, DefaultBuffer)
    && AccessToken(auth.store).value != ""
  }

  /** A call that is ready to send is admitted without sleeping and holds
      the stored token, without contacting the token endpoint. */
  lemma AdmitReady(limiter: Limiter, auth: AuthManager, clock: Clock, ctx: Context)
    requires ReadyToSend(limiter, auth, clock)
    ensures Admit(limiter, auth, clock, ctx)
      == Fetched(Trace(Acquire(limiter, clock.mono).limiter, auth, clock, [], []), Ok(AccessToken(auth.store).value))
  {
    var a := Acquire(limiter, clock.mono);
    assert a.waited == 0 && a.admitted.Ok?;
    var t0 := Trace(a.limiter, auth, clock, [], []);
    assert FetchToken(t0, ctx) == Fetched(t0, Ok(AccessToken(auth.store).value));
  }

  /** The trace after the first send of a call that was ready to send. */
  function FirstSendTrace(limiter: Limiter, auth: AuthManager, clock: Clock, req: Request): (t: Trace)
    requires AccessToken(auth.store).Some?
    ensures |t.sent| == 1 && SameRequest(t.sent, req)
    ensures CarriesCallerHeaders(InitialHeaders(AccessToken(auth.store).value, req.headers), req)
  {
    Trace(Acquire(limiter, clock.mono).limiter, auth, clock,
          [Sent(req.verb, Url(req.path), req.params, req.payload,
                InitialHeaders(AccessToken(auth.store).value, req.headers))], [])
  }

  /** A call that is ready to send sends once with the stored token, without
      sleeping or refreshing, and goes on to the 429 branch. */
  lemma FirstSend(limiter: Limiter, auth: AuthManager, clock: Clock, ctx: Context, req: Request)
    requires ReadyToSend(limiter, auth, clock)
    ensures Execute(limiter, auth, clock, ctx, req)
      == On429(FirstSendTrace(limiter, auth, clock, req), ctx, req,
               InitialHeaders(AccessToken(auth.store).value, req.headers), ctx.transport(0))
  {
    AdmitReady(limiter, auth, clock, ctx);
    FirstTransmit(limiter, auth, clock, ctx, req);
  }

  lemma FirstTransmit(limiter: Limiter, auth: AuthManager, clock: Clock, ctx: Context, req: Request)
    requires AccessToken(auth.store).Some?
    ensures Transmit(Trace(Acquire(limiter, clock.mono).limiter, auth, clock, [], []), ctx, req,
                     InitialHeaders(AccessToken(auth.store).value, req.headers))
      == Transmitted(FirstSendTrace(limiter, auth, clock, req), ctx.transport(0))
  {
  }

  /** After the backoff, a fresh token and a success: the resend returns the
      body and clears the backoff, without touching the token endpoint. */
  lemma ServedAfterBackoff(t: Trace, ctx: Context, req: Request, headers: map<string, string>, body: Value)
    requires |t.sent| == 1 && LastResponse(t, ctx).status == 429
    requires SameRequest(t.sent, req) && CarriesCallerHeaders(headers, req)
    requires !IsAccessTokenExpired(t.auth.store, t.clock.wall, DefaultBuffer)
    requires AccessToken(t.auth.store).value != ""
    requires ctx.transport(1).status == 200 && ctx.transport(1).body == Some(body)
    ensures var o := ResendAfterBackoff(t, ctx, req, headers);
      && o.result == Ok(Some(body))
      && |o.trace.sent| == 2 && o.trace.tokenCalls == t.tokenCalls && o.trace.clock == t.clock
      && o.trace.limiter == ResetBackoff(t.limiter)
  {
    var token := AccessToken(t.auth.store).value;
    assert FetchToken(t, ctx) == Fetched(t, Ok(token));
    var h := headers["Authorization" := "Bearer " + token];
    ResendKeepsRequest(t, ctx, req, headers, token);
    var x := Transmit(t, ctx, req, h);
    assert On401(x.trace, ctx, req, h, x.response) == Finish(x.trace, x.response);
  }

  /** A 429 without `Retry-After` followed by a success: the call sleeps the
      first backoff step of two seconds, sends once more, returns the body
      and clears the backoff, without touching the token endpoint. */
  lemma ThrottledThenServed(limiter: Limiter, auth: AuthManager, clock: Clock, ctx: Context, req: Request, body: Value)
    requires ReadyToSend(limiter, auth, clock) && limiter.backoffCount == 0
    requires !IsAccessTokenExpired(auth.store, clock.wall + 2, DefaultBuffer)
    requires ctx.transport(0).status == 429 && ctx.transport(0).retryAfter == NoRetryAfter
    requires ctx.transport(1).status == 200 && ctx.transport(1).body == Some(body)
    ensures var o := Execute(limiter, auth, clock, ctx, req);
      && o.result == Ok(Some(body))
      && |o.trace.sent| == 2 && o.trace.tokenCalls == []
      && o.trace.clock == Clock(clock.mono + 2, clock.wall + 2)
      && o.trace.limiter.backoffCount == 0 && o.trace.limiter.backoffUntil == 0
  {
    FirstSend(limiter, auth, clock, ctx, req);
    var h := InitialHeaders(AccessToken(auth.store).value, req.headers);
    var t1 := FirstSendTrace(limiter, auth, clock, req);
    FirstSendIsRequest(Trace(Acquire(limiter, clock.mono).limiter, auth, clock, [], []), ctx, req,
                       AccessToken(auth.store).value);
    FirstTransmit(limiter, auth, clock, ctx, req);
    var b := Handle429(t1.limiter, clock.mono, None);
    assert b.delay == 2;
    var t2 := t1.(limiter := b.limiter, clock := Clock(clock.mono + 2, clock.wall + 2));
    assert Sleep(t1.clock, b.delay) == t2.clock;
    ServedAfterBackoff(t2, ctx, req, h, body);
  }

  /** Two 429s in a row: the call gives up with the retry-exhausted error,
      and the limiter keeps the backoff it started. */
  lemma ThrottledTwiceGivesUp(limiter: Limiter, auth: AuthManager, clock: Clock, ctx: Context, req: Request)
    requires ReadyToSend(limiter, auth, clock)
    requires !IsAccessTokenExpired(auth.store, clock.wall + BackoffCap, DefaultBuffer)
    requires ctx.transport(0).status == 429 && ctx.transport(0).retryAfter == NoRetryAfter
    requires ctx.transport(1).status == 429
    ensures var o := Execute(limiter, auth, clock, ctx, req);
      && o.result == Err(GraphApiError(RetryExhaustedMessage, Some(429)))
      && |o.trace.sent| == 2
      && o.trace.limiter.backoffCount == limiter.backoffCount + 1
      && o.trace.limiter.backoffUntil > clock.mono
  {
    var token := AccessToken(auth.store).value;
    FirstSend(limiter, auth, clock, ctx, req);
    FirstSendIsRequest(Trace(Acquire(limiter, clock.mono).limiter, auth, clock, [], []), ctx, req, token);
    FirstTransmit(limiter, auth, clock, ctx, req);
    var h := InitialHeaders(token, req.headers);
    var t1 := FirstSendTrace(limiter, auth, clock, req);
    var b := Handle429(t1.limiter, clock.mono, None);
    assert 2 <= b.delay <= BackoffCap;
    var t2 := t1.(limiter := b.limiter, clock := Sleep(clock, b.delay));
    assert On429(t1, ctx, req, h, ctx.transport(0)) == ResendAfterBackoff(t2, ctx, req, h);
    ThrottledAgain(t2, ctx, req, h);
  }

  /** After the backoff, a fresh token and another 429: the resend gives up
      with the retry-exhausted error and leaves the limiter as it was. */
  lemma ThrottledAgain(t: Trace, ctx: Context, req: Request, headers: map<string, string>)
    requires |t.sent| == 1 && LastResponse(t, ctx).status == 429
    requires SameRequest(t.sent, req) && CarriesCallerHeaders(headers, req)
    requires !IsAccessTokenExpired(t.auth.store, t.clock.wall, DefaultBuffer)
    requires AccessToken(t.auth.store).value != ""
    requires ctx.transport(1).status == 429
    ensures var o := ResendAfterBackoff(t, ctx, req, headers);
      && o.result == Err(GraphApiError(RetryExhaustedMessage, Some(429)))
      && |o.trace.sent| == 2 && o.trace.limiter == t.limiter
  {
    assert FetchToken(t, ctx) == Fetched(t, Ok(AccessToken(t.auth.store).value));
  }

  /** A 401 while the token is still fresh by the clock: the refresh returns
      at once without a grant, and the request goes out again with the same
      bearer token. */
  lemma UnauthorizedResendsFreshToken(limiter: Limiter, auth: AuthManager, clock: Clock, ctx: Context, req: Request)
    requires ReadyToSend(limiter, auth, clock) && "Authorization" !in req.headers
    requires RefreshToken(auth.store).value != ""
    requires ctx.transport(0).status == 401 && ctx.transport(1).status != 401
    ensures var o := Execute(limiter, auth, clock, ctx, req);
      && |o.trace.sent| == 2 && o.trace.tokenCalls == [] && o.trace.auth == auth
      && o.trace.sent[0].headers == o.trace.sent[1].headers
      && o.trace.sent[1].headers["Authorization"] == "Bearer " + AccessToken(auth.store).value
  {
    var token := AccessToken(auth.store).value;
    FirstSend(limiter, auth, clock, ctx, req);
    FirstSendIsRequest(Trace(Acquire(limiter, clock.mono).limiter, auth, clock, [], []), ctx, req, token);
    FirstTransmit(limiter, auth, clock, ctx, req);
    var h := InitialHeaders(token, req.headers);
    var t1 := FirstSendTrace(limiter, auth, clock, req);
    assert On429(t1, ctx, req, h, ctx.transport(0)) == Unauthorized(t1, ctx, req, h);
    assert RefreshOf(t1, ctx) == Refreshed(auth, true, []);
    assert AfterRefresh(t1, ctx) == t1;
    ResendSameToken(t1, ctx, req, h);
  }

  /** A resend after a 401 with a token that is still fresh reuses it: the
      headers are unchanged and the token endpoint is not contacted. */
  lemma ResendSameToken(t: Trace, ctx: Context, req: Request, headers: map<string, string>)
    requires |t.sent| > 0 && LastResponse(t, ctx).status == 401
    requires SameRequest(t.sent, req) && CarriesCallerHeaders(headers, req)
    requires !IsAccessTokenExpired(t.auth.store, t.clock.wall, DefaultBuffer)
    requires AccessToken(t.auth.store).value != ""
    requires "Authorization" in headers && headers["Authorization"] == "Bearer " + AccessToken(t.auth.store).value
    requires ctx.transport(|t.sent|).status != 401
    ensures var o := ResendAfterRefresh(t, ctx, req, headers);
      && o.trace.sent == t.sent + [Sent(req.verb, Url(req.path), req.params, req.payload, headers)]
      && o.trace.tokenCalls == t.tokenCalls && o.trace.auth == t.auth
  {
    var token := AccessToken(t.auth.store).value;
    assert FetchToken(t, ctx) == Fetched(t, Ok(token));
    assert headers["Authorization" := "Bearer " + token] == headers;
  }

  /** A 401 when the token has expired by the clock, a refresh grant
      answered 200 with a new access token that outlives the buffer, and a
      success on the resend: the call returns the body, exactly one grant is
      made, and the resend carries the new token. */
  lemma RefreshedThenServed(t: Trace, ctx: Context, req: Request, headers: map<string, string>,
                            resp: TokenResponse, text: string, decodeError: string, body: Value)
    requires |t.sent| > 0 && LastResponse(t, ctx).status == 401
    requires SameRequest(t.sent, req) && CarriesCallerHeaders(headers, req)
    requires IsAccessTokenExpired(t.auth.store, t.clock.wall, DefaultBuffer)
    requires RefreshToken(t.auth.store).Some? && RefreshToken(t.auth.store).value != ""
    requires ctx.tokenEndpoint(|t.tokenCalls|) == TokenReply(200, Some(resp), text, decodeError)
    requires resp.accessToken.Some? && resp.accessToken.value != ""
    requires resp.expiresIn.GetOr(DefaultExpiresIn) > DefaultBuffer
    requires ctx.transport(|t.sent|).status == 200 && ctx.transport(|t.sent|).body == Some(body)
    ensures var o := Unauthorized(t, ctx, req, headers);
      && o.result == Ok(Some(body))
      && o.trace.tokenCalls == t.tokenCalls + [RefreshGrant(ctx.settings, RefreshToken(t.auth.store).value)]
      && |o.trace.sent| == |t.sent| + 1
      && o.trace.sent[|t.sent|].headers == headers["Authorization" := "Bearer " + resp.accessToken.value]
      && AccessToken(o.trace.auth.store) == resp.accessToken
  {
    var token := resp.accessToken.value;
    var r := RefreshOf(t, ctx);
    assert r.ok && r.calls == [RefreshGrant(ctx.settings, RefreshToken(t.auth.store).value)];
    assert r.manager.store.record == Normalize(resp, t.clock.wall);
    var t1 := AfterRefresh(t, ctx);
    assert !IsAccessTokenExpired(t1.auth.store, t1.clock.wall, DefaultBuffer);
    assert FetchToken(t1, ctx) == Fetched(t1, Ok(token));
    ResendKeepsRequest(t1, ctx, req, headers, token);
  }
}
