/** The credential coordinator: the PKCE authorization-code flow (RFC 7636
    over section 4.1 of RFC 6749), the pending-flow map from `state` to code
    verifier that defends against cross-site request forgery (section 10.12
    of RFC 6749), the refresh-token grant (section 6 of RFC 6749), the
    callback classification of `login`, and `logout`. The token endpoint's
    reply is passed in per call, SHA-256 is a function parameter with a
    32-byte result, and randomness is the random bytes `secrets` would draw. */
module Auth {
  import opened Base
  import opened Text
  import opened Errors
  import opened TokenStore
  import opened Base64Url

  datatype Settings = Settings(
    clientId: string,
    tenantId: string,
    redirectUri: string,
    /** The path component of `redirectUri`, given with the settings rather
        than parsed from it. */
    redirectPath: string,
    /** The delegated permissions to request. */
    scopes: seq<string>)

  /** The permissions the configuration requests by default. */
  const DefaultScopes: seq<string> := [
    "offline_access", "openid", "profile", "User.Read", "User.ReadBasic.All",
    "Chat.Read", "Chat.ReadWrite", "ChatMessage.Send", "ChannelMessage.Read.All",
    "ChannelMessage.Send", "Team.ReadBasic.All", "Channel.ReadBasic.All",
    "Calendars.Read", "Mail.Read", "Mail.Send", "Presence.Read",
    "Presence.Read.All", "Presence.ReadWrite"]

  /** The `scope` parameter: the permissions, space-separated (section 3.3
      of RFC 6749). */
  function ScopeString(s: Settings): string {
    Join(s.scopes, " ")
  }

  function Authority(s: Settings): string {
    "https://login.microsoftonline.com/" + s.tenantId
  }

  function AuthorizeEndpoint(s: Settings): string {
    Authority(s) + "/oauth2/v2.0/authorize"
  }

  function TokenEndpoint(s: Settings): string {
    Authority(s) + "/oauth2/v2.0/token"
  }

  /** The path the local receiver answers: the redirect URI's, else `/auth/callback`. */
  function CallbackPath(s: Settings): string {
    if s.redirectPath == "" then "/auth/callback" else s.redirectPath
  }

  const CsrfMessage: string := "Invalid state parameter \U{2014} possible CSRF attack"
  const NotAuthenticatedMessage: string := "Not authenticated. Please log in first."
  const MissingClientIdMessage: string := "AZURE_CLIENT_ID is not configured. Run 'graph-mcp setup' first."
  const LoginTimeoutMessage: string := "Login timed out or was cancelled."

  // ---------------------------------------------------------------- PKCE

  type Digest = d: seq<byte> | |d| == 32 witness seq(32, i => 0)

  /** `str.encode("ascii")` of text in the URL-safe alphabet. */
  function AsciiBytes(s: string): (b: seq<byte>)
    requires IsUrlSafe(s)
    ensures |b| == |s|
    ensures forall i :: 0 <= i < |s| ==> b[i] == s[i] as int
  {
    seq(|s|, i requires 0 <= i < |s| => s[i] as int)
  }

  datatype Pkce = Pkce(verifier: string, challenge: string)

  /** `_generate_pkce`: the verifier is `token_urlsafe` text cut to at most 128
      characters; the S256 challenge is the padding-free URL-safe base64 of the
      verifier's SHA-256 digest. */
  function GeneratePkce(random: seq<byte>, sha256: seq<byte> -> Digest): (p: Pkce)
    ensures |p.verifier| == Min(128, |EncodeNoPad(random)|)
    ensures p.verifier == EncodeNoPad(random)[..|p.verifier|]
    ensures IsUrlSafe(p.verifier)
    ensures |p.challenge| == 43 && IsUrlSafe(p.challenge)
    ensures DecodeNoPad(p.challenge) == Some(sha256(AsciiBytes(p.verifier)))
    ensures SextetValue(p.challenge[42]) % 4 == 0
  {
    var full := EncodeNoPad(random);
    var verifier := full[..Min(128, |full|)];
    assert IsUrlSafe(verifier);
    var digest := sha256(AsciiBytes(verifier));
    ThirtyTwoBytes(digest);
    DecodeEncodeNoPad(digest);
    EncodeDigitsZeroUnusedBits(digest);
    Pkce(verifier, EncodeNoPad(digest))
  }

  /** With the 64 random bytes `token_urlsafe(64)` draws, or any number from
      32 up, the verifier's length is within the 43 to 128 characters section
      4.1 of RFC 7636 allows. */
  lemma VerifierLength(random: seq<byte>, sha256: seq<byte> -> Digest)
    requires |random| >= 32
    ensures 43 <= |GeneratePkce(random, sha256).verifier| <= 128
    ensures |random| == 64 ==> |GeneratePkce(random, sha256).verifier| == 86
  {
  }

  /** The challenge is the one text the server computes from the verifier:
      any other URL-safe text without padding that decodes to the same digest
      differs in the unused bits of its last character. */
  lemma ChallengeIsCanonical(random: seq<byte>, sha256: seq<byte> -> Digest, c: string)
    ensures var p := GeneratePkce(random, sha256);
      IsUrlSafe(c) && ZeroUnusedBits(c) && DecodeNoPad(c) == DecodeNoPad(p.challenge) ==> c == p.challenge
  {
    var p := GeneratePkce(random, sha256);
    EncodeDigitsZeroUnusedBits(sha256(AsciiBytes(p.verifier)));
    EncodeDecodeNoPad(p.challenge);
    if IsUrlSafe(c) && ZeroUnusedBits(c) && DecodeNoPad(c) == DecodeNoPad(p.challenge) {
      EncodeDecodeNoPad(c);
    }
  }

  // ------------------------------------------------------- authorization

  /** The in-process coordinator state: pending flows and the token store. */
  datatype AuthManager = AuthManager(pending: map<string, string>, store: TokenStore)

  /** The authorization URL: the endpoint and its query parameters. */
  datatype AuthorizationRequest = AuthorizationRequest(endpoint: string, query: map<string, string>)

  datatype LoginStart = LoginStart(manager: AuthManager, url: AuthorizationRequest, state: string)

  /** The authorization URL's query: the client, the `code` response type,
      the redirect URI, the space-separated scopes, the state, and the S256
      challenge. */
  function AuthQuery(settings: Settings, state: string, challenge: string): (q: map<string, string>)
    ensures q.Keys == {"client_id", "response_type", "redirect_uri", "scope", "state",
                       "code_challenge", "code_challenge_method"}
    ensures q["response_type"] == "code" && q["code_challenge_method"] == "S256"
    ensures q["state"] == state && q["code_challenge"] == challenge
    ensures q["client_id"] == settings.clientId && q["redirect_uri"] == settings.redirectUri
    ensures q["scope"] == ScopeString(settings)
  {
    map[
      "client_id" := settings.clientId,
      "response_type" := "code",
      "redirect_uri" := settings.redirectUri,
      "scope" := ScopeString(settings),
      "state" := state,
      "code_challenge" := challenge,
      "code_challenge_method" := "S256"]
  }

  /** `build_auth_url`: registers one pending flow under a fresh `state` and
      returns the authorization URL carrying the S256 challenge of its verifier. */
  function BuildAuthUrl(am: AuthManager, settings: Settings, verifierRandom: seq<byte>,
                        stateRandom: seq<byte>, sha256: seq<byte> -> Digest): (r: LoginStart)
    ensures r.state == EncodeNoPad(stateRandom)
    ensures r.manager.store == am.store
    ensures r.manager.pending == am.pending[r.state := GeneratePkce(verifierRandom, sha256).verifier]
    ensures r.url == AuthorizationRequest(AuthorizeEndpoint(settings),
                                          AuthQuery(settings, r.state, GeneratePkce(verifierRandom, sha256).challenge))
  {
    var pkce := GeneratePkce(verifierRandom, sha256);
    var state := EncodeNoPad(stateRandom);
    LoginStart(am.(pending := am.pending[state := pkce.verifier]),
               AuthorizationRequest(AuthorizeEndpoint(settings), AuthQuery(settings, state, pkce.challenge)), state)
  }

  /** The flow's binding: the challenge sent in the URL is the digest of the
      verifier kept under the returned state, and other pending flows are as
      they were. */
  lemma AuthUrlBindsVerifier(am: AuthManager, settings: Settings, verifierRandom: seq<byte>,
                             stateRandom: seq<byte>, sha256: seq<byte> -> Digest)
    ensures var r := BuildAuthUrl(am, settings, verifierRandom, stateRandom, sha256);
      && r.state in r.manager.pending
      && IsUrlSafe(r.manager.pending[r.state])
      && DecodeNoPad(r.url.query["code_challenge"]) == Some(sha256(AsciiBytes(r.manager.pending[r.state])))
      && forall s :: s in am.pending && s != r.state ==> s in r.manager.pending && r.manager.pending[s] == am.pending[s]
  {
  }

  // ------------------------------------------------------ token endpoint

  /** A form POST to the token endpoint. */
  datatype TokenRequest = TokenRequest(endpoint: string, form: map<string, string>)

  /** The token endpoint's answer: a status, the JSON object of the body when
      it parses as one, the raw text, and the message `json.loads` raises
      when it does not; or a transport exception. */
  datatype TokenReply =
    | TokenReply(status: int, body: Option<TokenResponse>, text: string, decodeError: string)
    | TransportFailure(message: string)

  datatype Exchange = Exchange(manager: AuthManager, result: Result<TokenResponse, GraphError>, calls: seq<TokenRequest>)

  function CodeGrant(settings: Settings, code: string, verifier: string): TokenRequest {
    TokenRequest(TokenEndpoint(settings), map[
      "client_id" := settings.clientId,
      "grant_type" := "authorization_code",
      "code" := code,
      "redirect_uri" := settings.redirectUri,
      "code_verifier" := verifier])
  }

  /** `exchange_code`: pops `state` whatever happens; an unknown or consumed
      state fails as forgery before the token endpoint is contacted; otherwise
      one authorization-code grant carrying the flow's verifier, and on a 200
      reply the tokens are stored. */
  function ExchangeCode(am: AuthManager, settings: Settings, code: string, state: string,
                        now: int, reply: TokenReply): (e: Exchange)
    ensures e.manager.pending == am.pending - {state}
    ensures (state !in am.pending || am.pending[state] == "") <==>
      (e.result == Err(AuthenticationError(CsrfMessage)) && e.calls == [])
    ensures e.calls == [] ==> e.manager.store == am.store
    ensures e.calls != [] ==> e.calls == [CodeGrant(settings, code, am.pending[state])]
    ensures e.result.Ok? <==>
      (e.calls != [] && reply.TokenReply? && reply.status == 200 && reply.body.Some?
       && reply.body.value.accessToken.Some?)
    ensures e.result.Ok? ==>
      e.result.value == reply.body.value
      && e.manager.store == Store(am.store, reply.body.value, now).value
    ensures e.result.Err? ==> e.manager.store == am.store
    ensures reply.TokenReply? && reply.body.None? && e.calls != [] ==>
      e.result == Err(OtherError(reply.decodeError))
    ensures reply.TokenReply? && reply.status != 200 && reply.body.Some? && e.calls != [] ==>
      e.result == Err(AuthenticationError("Token exchange failed: "
                                          + reply.body.value.errorDescription.GetOr(reply.text)))
  {
    var verifier := if state in am.pending then am.pending[state] else "";
    var popped := am.(pending := am.pending - {state});
    if verifier == "" then Exchange(popped, Err(AuthenticationError(CsrfMessage)), [])
    else
      var calls := [CodeGrant(settings, code, verifier)];
      match reply
      case TransportFailure(msg) => Exchange(popped, Err(OtherError(msg)), calls)
      case TokenReply(status, body, text, decodeError) =>
        if status != 200 then
          match body
          case None => Exchange(popped, Err(OtherError(decodeError)), calls)
          case Some(b) =>
            Exchange(popped, Err(AuthenticationError("Token exchange failed: " + b.errorDescription.GetOr(text))), calls)
        else
          match body
          case None => Exchange(popped, Err(OtherError(decodeError)), calls)
          case Some(b) =>
            match Store(popped.store, b, now)
            case Err(err) => Exchange(popped, Err(err), calls)
            case Ok(st) => Exchange(popped.(store := st), Ok(b), calls)
  }

  /** A state is single-use: once presented, whatever the outcome, presenting
      it again fails as forgery without contacting the token endpoint. */
  lemma StateIsSingleUse(am: AuthManager, settings: Settings, code: string, code2: string,
                         state: string, now: int, now2: int, reply: TokenReply, reply2: TokenReply)
    ensures var first := ExchangeCode(am, settings, code, state, now, reply);
      var second := ExchangeCode(first.manager, settings, code2, state, now2, reply2);
      second.result == Err(AuthenticationError(CsrfMessage)) && second.calls == []
      && second.manager == first.manager
  {
  }

  datatype Refreshed = Refreshed(manager: AuthManager, ok: bool, calls: seq<TokenRequest>)

  function RefreshGrant(settings: Settings, refreshToken: string): TokenRequest {
    TokenRequest(TokenEndpoint(settings), map[
      "client_id" := settings.clientId,
      "grant_type" := "refresh_token",
      "refresh_token" := refreshToken,
      "scope" := ScopeString(settings)])
  }

  /** `refresh_access_token`: no refresh token gives False and a token that is
      still fresh gives True, both without contacting the endpoint; otherwise
      one refresh grant, after which a non-200 reply clears the store and
      gives False, a 200 reply with an access token stores the new tokens and
      gives True, and a transport or decoding failure gives False with the
      store untouched. Pending flows are never touched. */
  function RefreshAccessToken(am: AuthManager, settings: Settings, now: int, reply: TokenReply): (r: Refreshed)
    ensures r.manager.pending == am.pending
    ensures RefreshToken(am.store).None? || RefreshToken(am.store).value == "" ==>
      !r.ok && r.calls == [] && r.manager == am
    ensures RefreshToken(am.store).Some? && RefreshToken(am.store).value != "" ==>
      if !IsAccessTokenExpired(am.store, now, DefaultBuffer) then r.ok && r.calls == [] && r.manager == am
      else r.calls == [RefreshGrant(settings, RefreshToken(am.store).value)]
    ensures r.calls != [] && reply.TokenReply? && reply.status != 200 ==>
      !r.ok && r.manager.store == Clear(am.store)
    ensures r.calls != [] && reply.TokenReply? && reply.status == 200 && reply.body.Some?
            && reply.body.value.accessToken.Some? ==>
      r.ok && r.manager.store == Store(am.store, reply.body.value, now).value
    ensures r.calls != [] && (reply.TransportFailure? || (reply.status == 200 &&
            (reply.body.None? || reply.body.value.accessToken.None?))) ==>
      !r.ok && r.manager == am
  {
    var refresh := RefreshToken(am.store);
    if refresh.None? || refresh.value == "" then Refreshed(am, false, [])
    else if !IsAccessTokenExpired(am.store, now, DefaultBuffer) then Refreshed(am, true, [])
    else
      var calls := [RefreshGrant(settings, refresh.value)];
      match reply
      case TransportFailure(_) => Refreshed(am, false, calls)
      case TokenReply(status, body, _, _) =>
        if status != 200 then Refreshed(am.(store := Clear(am.store)), false, calls)
        else
          match body
          case None => Refreshed(am, false, calls)
          case Some(b) =>
            match Store(am.store, b, now)
            case Err(_) => Refreshed(am, false, calls)
            case Ok(st) => Refreshed(am.(store := st), true, calls)
  }

  datatype TokenLookup = TokenLookup(manager: AuthManager, result: Result<string, GraphError>, calls: seq<TokenRequest>)

  /** The access token now held, or the not-authenticated error when there is
      none or it is empty. */
  function CurrentToken(am: AuthManager, calls: seq<TokenRequest>): (t: TokenLookup)
    ensures t.manager == am && t.calls == calls
    ensures t.result.Ok? <==> AccessToken(am.store).Some? && AccessToken(am.store).value != ""
    ensures t.result.Ok? ==> AccessToken(am.store) == Some(t.result.value)
    ensures t.result.Err? ==> t.result.error == AuthenticationError(NotAuthenticatedMessage)
  {
    match AccessToken(am.store)
    case Some(token) =>
      if token != "" then TokenLookup(am, Ok(token), calls)
      else TokenLookup(am, Err(AuthenticationError(NotAuthenticatedMessage)), calls)
    case None => TokenLookup(am, Err(AuthenticationError(NotAuthenticatedMessage)), calls)
  }

  /** `get_valid_access_token`: refresh when the token is expired, fail when
      that refresh fails, and otherwise hand out the stored access token,
      failing too when there is none or it is empty. */
  function GetValidAccessToken(am: AuthManager, settings: Settings, now: int, reply: TokenReply): (t: TokenLookup)
    ensures t.result.Ok? ==> t.result.value != "" && AccessToken(t.manager.store) == Some(t.result.value)
    ensures t.result.Err? ==> t.result.error == AuthenticationError(NotAuthenticatedMessage)
    ensures !IsAccessTokenExpired(am.store, now, DefaultBuffer) ==>
      t.manager == am && t.calls == []
      && (t.result.Ok? <==> AccessToken(am.store).value != "")
    ensures IsAccessTokenExpired(am.store, now, DefaultBuffer) ==>
      var r := RefreshAccessToken(am, settings, now, reply);
      t.manager == r.manager && t.calls == r.calls
      && (t.result.Ok? <==> r.ok && AccessToken(r.manager.store).Some? && AccessToken(r.manager.store).value != "")
    ensures |t.calls| <= 1
  {
    if IsAccessTokenExpired(am.store, now, DefaultBuffer) then
      var r := RefreshAccessToken(am, settings, now, reply);
      if !r.ok then TokenLookup(r.manager, Err(AuthenticationError(NotAuthenticatedMessage)), r.calls)
      else CurrentToken(r.manager, r.calls)
    else CurrentToken(am, [])
  }

  /** An expired token whose refresh grant is answered 200 with a new,
      non-empty access token: one grant is made, the new tokens are stored,
      and the new access token is handed out. */
  lemma ExpiredTokenRefreshed(am: AuthManager, settings: Settings, now: int, resp: TokenResponse, text: string, decodeError: string)
    requires IsAccessTokenExpired(am.store, now, DefaultBuffer)
    requires RefreshToken(am.store).Some? && RefreshToken(am.store).value != ""
    requires resp.accessToken.Some? && resp.accessToken.value != ""
    ensures var t := GetValidAccessToken(am, settings, now, TokenReply(200, Some(resp), text, decodeError));
      && t.result == Ok(resp.accessToken.value)
      && t.calls == [RefreshGrant(settings, RefreshToken(am.store).value)]
      && t.manager == am.(store := Store(am.store, resp, now).value)
      && t.manager.store.record == Normalize(resp, now)
  {
  }

  // ------------------------------------------------------------- login

  /** One request to the local redirect receiver: its path and the first
      value of each query parameter, as `parse_qs` yields them. */
  datatype Callback = Callback(path: string, query: map<string, string>)

  /** How the receiver classifies what it got. */
  datatype CallbackResult =
    | NotFound
    | OAuthError(error: string, description: string)
    | CodeAndState(code: string, state: string)
    | NoCode

  /** A query parameter; `parse_qs` drops blank values, so an empty one is absent. */
  function Param(q: map<string, string>, key: string): Option<string> {
    if key in q && q[key] != "" then Some(q[key]) else None
  }

  /** The receiver's classification: a request to another path is not found;
      error parameters win over everything else; then a code and a state
      together; anything else, or no request before the timeout, carries no
      code. */
  function ClassifyCallback(cb: Option<Callback>, callbackPath: string): (c: CallbackResult)
    ensures c.NotFound? <==> cb.Some? && cb.value.path != callbackPath
    ensures c.OAuthError? <==>
      cb.Some? && cb.value.path == callbackPath && Param(cb.value.query, "error").Some?
    ensures c.OAuthError? ==>
      c.error == cb.value.query["error"]
      && c.description == Param(cb.value.query, "error_description").GetOr("Unknown error")
    ensures c.CodeAndState? <==>
      cb.Some? && cb.value.path == callbackPath && Param(cb.value.query, "error").None?
      && Param(cb.value.query, "code").Some? && Param(cb.value.query, "state").Some?
    ensures c.CodeAndState? ==>
      c.code == cb.value.query["code"] && c.state == cb.value.query["state"]
  {
    match cb
    case None => NoCode
    case Some(Callback(path, query)) =>
      if path != callbackPath then NotFound
      else if Param(query, "error").Some? then
        OAuthError(query["error"], Param(query, "error_description").GetOr("Unknown error"))
      else if Param(query, "code").Some? && Param(query, "state").Some? then
        CodeAndState(query["code"], query["state"])
      else NoCode
  }

  datatype LoginOutcome = LoginOutcome(
    manager: AuthManager,
    authUrl: Option<AuthorizationRequest>,
    /** The HTTP status the receiver answered with, if a request came. */
    pageStatus: Option<int>,
    result: Result<TokenResponse, GraphError>,
    calls: seq<TokenRequest>)

  function PageStatus(c: CallbackResult, cb: Option<Callback>): Option<int> {
    if cb.None? then None else if c.NotFound? then Some(404) else Some(200)
  }

  /** `login`: without a client id it fails before anything happens;
      otherwise it registers a flow, serves exactly one callback request (or
      none before the timeout) and acts on its classification. */
  function Login(am: AuthManager, settings: Settings, verifierRandom: seq<byte>, stateRandom: seq<byte>,
                 sha256: seq<byte> -> Digest, cb: Option<Callback>, now: int, reply: TokenReply): (o: LoginOutcome)
    ensures settings.clientId == "" ==>
      o == LoginOutcome(am, None, None, Err(AuthenticationError(MissingClientIdMessage)), [])
    ensures settings.clientId != "" ==>
      var start := BuildAuthUrl(am, settings, verifierRandom, stateRandom, sha256);
      var c := ClassifyCallback(cb, CallbackPath(settings));
      && o.authUrl == Some(start.url)
      && o.pageStatus == PageStatus(c, cb)
      && (c.NotFound? || c.NoCode? ==>
            o.result == Err(AuthenticationError(LoginTimeoutMessage)) && o.calls == [] && o.manager == start.manager)
      && (c.OAuthError? ==>
            o.result == Err(AuthenticationError("OAuth error: " + c.error + " \U{2014} " + c.description))
            && o.calls == [] && o.manager == start.manager)
      && (c.CodeAndState? ==>
            var e := ExchangeCode(start.manager, settings, c.code, c.state, now, reply);
            o.result == e.result && o.calls == e.calls && o.manager == e.manager)
  {
    if settings.clientId == "" then
      LoginOutcome(am, None, None, Err(AuthenticationError(MissingClientIdMessage)), [])
    else
      var start := BuildAuthUrl(am, settings, verifierRandom, stateRandom, sha256);
      var c := ClassifyCallback(cb, CallbackPath(settings));
      var page := PageStatus(c, cb);
      match c
      case OAuthError(err, desc) =>
        LoginOutcome(start.manager, Some(start.url), page,
                     Err(AuthenticationError("OAuth error: " + err + " \U{2014} " + desc)), [])
      case CodeAndState(code, state) =>
        var e := ExchangeCode(start.manager, settings, code, state, now, reply);
        LoginOutcome(e.manager, Some(start.url), page, e.result, e.calls)
      case _ =>
        LoginOutcome(start.manager, Some(start.url), page, Err(AuthenticationError(LoginTimeoutMessage)), [])
  }

  /** A callback to the right path with a code and a state, and no error,
      goes straight to the exchange of that code under that state. */
  lemma LoginExchangesCallback(am: AuthManager, settings: Settings, verifierRandom: seq<byte>,
                               stateRandom: seq<byte>, sha256: seq<byte> -> Digest,
                               code: string, state: string, now: int, reply: TokenReply)
    requires settings.clientId != "" && code != "" && state != ""
    ensures var start := BuildAuthUrl(am, settings, verifierRandom, stateRandom, sha256);
      var e := ExchangeCode(start.manager, settings, code, state, now, reply);
      Login(am, settings, verifierRandom, stateRandom, sha256,
            Some(Callback(CallbackPath(settings), map["code" := code, "state" := state])), now, reply)
        == LoginOutcome(e.manager, Some(start.url), Some(200), e.result, e.calls)
  {
    var cb := Callback(CallbackPath(settings), map["code" := code, "state" := state]);
    assert Param(cb.query, "error").None?;
    assert ClassifyCallback(Some(cb), CallbackPath(settings)) == CodeAndState(code, state);
  }

  /** A callback carrying a state that was never issued fails as forgery
      without contacting the token endpoint, and leaves the store as it was. */
  lemma LoginRejectsForeignState(am: AuthManager, settings: Settings, verifierRandom: seq<byte>,
                                 stateRandom: seq<byte>, sha256: seq<byte> -> Digest,
                                 code: string, state: string, now: int, reply: TokenReply)
    requires settings.clientId != "" && code != "" && state != ""
    requires state !in am.pending && state != EncodeNoPad(stateRandom)
    ensures var o := Login(am, settings, verifierRandom, stateRandom, sha256,
                           Some(Callback(CallbackPath(settings), map["code" := code, "state" := state])), now, reply);
      o.result == Err(AuthenticationError(CsrfMessage)) && o.calls == [] && o.manager.store == am.store
  {
    LoginExchangesCallback(am, settings, verifierRandom, stateRandom, sha256, code, state, now, reply);
    var start := BuildAuthUrl(am, settings, verifierRandom, stateRandom, sha256);
    assert state !in start.manager.pending;
  }

  /** A callback that returns the flow's own state with a code, answered by a
      200 reply with an access token, logs in: the tokens are stored and the
      flow is consumed. */
  lemma LoginCompletesOwnFlow(am: AuthManager, settings: Settings, verifierRandom: seq<byte>,
                              stateRandom: seq<byte>, sha256: seq<byte> -> Digest,
                              code: string, now: int, resp: TokenResponse, text: string, decodeError: string)
    requires settings.clientId != "" && code != "" && |verifierRandom| > 0 && |stateRandom| > 0
    requires resp.accessToken.Some?
    ensures var state := EncodeNoPad(stateRandom);
      var o := Login(am, settings, verifierRandom, stateRandom, sha256,
                     Some(Callback(CallbackPath(settings), map["code" := code, "state" := state])),
                     now, TokenReply(200, Some(resp), text, decodeError));
      && o.result == Ok(resp)
      && o.manager.pending == am.pending - {state}
      && o.manager.store.record == Normalize(resp, now)
      && o.calls == [CodeGrant(settings, code, GeneratePkce(verifierRandom, sha256).verifier)]
  {
    var state := EncodeNoPad(stateRandom);
    assert |state| > 0;
    LoginExchangesCallback(am, settings, verifierRandom, stateRandom, sha256, code, state, now,
                           TokenReply(200, Some(resp), text, decodeError));
    var start := BuildAuthUrl(am, settings, verifierRandom, stateRandom, sha256);
    OwnFlowPending(am, settings, verifierRandom, stateRandom, sha256);
    ExchangeSucceeds(start.manager, settings, code, state, now, resp, text, decodeError);
  }

  /** The flow a login starts is pending under its state with a non-empty
      verifier, and consuming it restores the other flows. */
  lemma OwnFlowPending(am: AuthManager, settings: Settings, verifierRandom: seq<byte>,
                       stateRandom: seq<byte>, sha256: seq<byte> -> Digest)
    requires |verifierRandom| > 0
    ensures var start := BuildAuthUrl(am, settings, verifierRandom, stateRandom, sha256);
      && start.state in start.manager.pending
      && start.manager.pending[start.state] == GeneratePkce(verifierRandom, sha256).verifier
      && start.manager.pending[start.state] != ""
      && start.manager.pending - {start.state} == am.pending - {start.state}
  {
    var full := EncodeNoPad(verifierRandom);
    assert |full| == (4 * |verifierRandom| + 2) / 3 >= 2;
    var verifier := GeneratePkce(verifierRandom, sha256).verifier;
    assert |verifier| == Min(128, |full|) > 0;
    var start := BuildAuthUrl(am, settings, verifierRandom, stateRandom, sha256);
    assert start.manager.pending == am.pending[start.state := verifier];
    UpdateThenRemove(am.pending, start.state, verifier);
  }

  lemma UpdateThenRemove(m: map<string, string>, k: string, v: string)
    ensures m[k := v] - {k} == m - {k}
  {
    var a, b := m[k := v] - {k}, m - {k};
    assert forall x :: x in a <==> x in b;
    assert forall x :: x in a ==> a[x] == b[x];
  }

  /** A pending state with a non-empty verifier, answered by a 200 reply with
      an access token, is exchanged: one grant, the tokens stored, the state
      consumed. */
  lemma ExchangeSucceeds(am: AuthManager, settings: Settings, code: string, state: string,
                         now: int, resp: TokenResponse, text: string, decodeError: string)
    requires state in am.pending && am.pending[state] != "" && resp.accessToken.Some?
    ensures var e := ExchangeCode(am, settings, code, state, now, TokenReply(200, Some(resp), text, decodeError));
      && e.result == Ok(resp)
      && e.manager.pending == am.pending - {state}
      && e.manager.store.record == Normalize(resp, now)
      && e.calls == [CodeGrant(settings, code, am.pending[state])]
  {
  }

  /** `logout`: no credential and no pending flow remain; logging out twice
      is logging out once. */
  function Logout(am: AuthManager): (r: AuthManager)
    ensures r.pending == map[] && r.store == Clear(am.store)
    ensures !IsAuthenticated(r.store, 0) && r.store.disk.tokenFile.None?
  {
    AuthManager(map[], Clear(am.store))
  }

  lemma LogoutIdempotent(am: AuthManager)
    ensures Logout(Logout(am)) == Logout(am)
  {
  }
}
