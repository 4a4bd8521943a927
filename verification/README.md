# Graph-MCP core, modelled in Dafny

Graph-MCP is a Model Context Protocol server that lets an assistant work with a
Microsoft 365 account through the Microsoft Graph API. This project models, as
pure Dafny functions, the parts of the server that decide what is sent to Graph
and what comes back to the assistant:

- **Rate limiter** (`RateLimiter`, `rate_limiter.dfy`).
  - A sliding window of admission instants under a ceiling.
  - An exponential backoff after HTTP 429 responses, reset by a success.
- **Token store** (`TokenStore`, `token_store.dfy`).
  - The access and refresh tokens with their expiry.
  - Kept in memory and in a Fernet-encrypted file under a key that comes from the caller, from a key file, or is generated.
- **Authentication manager** (`Auth`, `auth.dfy`).
  - The OAuth 2.0 authorization-code flow with PKCE (RFC 7636): pending flows keyed by a single-use `state`.
  - The code exchange, the refresh, and the valid-token lookup.
  - The interactive login with its one-shot local redirect receiver, and logout.
- **Graph client** (`GraphClient`, `graph_client.dfy`).
  - The URL joining.
  - `_request`: admission, the bearer token, the caller's headers, the single retry after a 429, the single retry after a 401 refresh, error statuses, and the JSON result.
- **Response envelopes** (`Responses`, `responses.dfy`).
  - `success_response` and `error_response`.
  - The `require_auth` decorator that turns exceptions into error envelopes.
- **Tool handlers**, as the requests they build and the envelopes they answer with:
  - calendar (`CalendarTools`);
  - OneDrive files (`FilesTools`);
  - Teams chats (`ChatTools`);
  - mail (`MailTools`);
  - message search (`SearchTools`).
  - `Toolkit` holds what the handlers share.

Supporting modules:

- `Base`: `Option`, `Result`, `Min`.
- `Text`: Python's `str(int)`, read back by `ParseInt`.
- `Json`: parsed JSON values and `dict.get`.
- `Errors`: the exception classes.
- `Base64Url`: URL-safe base64 of RFC 4648 section 5, with its decoder.

Everything the server gets from outside is a parameter:

- the clocks;
- random bytes;
- SHA-256;
- the HTTP transport, as a function from the send's index to its response;
- the token endpoint's reply;
- the redirect the browser delivers.

Tool handlers see the Graph client as a `Client`: a function from a request to
its parsed result or the exception it raises.

Where the code does something other than its names or settings suggest, the
model follows the code:

- `refresh_access_token` without a refresh token returns `False` without clearing the store (auth.py:77-82).
- The login receiver handles exactly one HTTP request, so a stray request ends the login (auth.py:181-186).
- The refresh buffer setting (`graph_token_refresh_buffer`, config.py:16) is read nowhere. Expiry always uses the default 300-second buffer (token_store.py:84, auth.py:84 and 111).
- A 401 does not force a refresh. `refresh_access_token` returns `True` without a grant while the stored token is fresh by the clock, so the resend carries the token Graph just rejected (auth.py:83-85, graph_client.py:59-64).
- A key file's text is stripped of surrounding whitespace, and Fernet reads the key leniently: both base64 alphabets, skipped stray characters, and ignored unused bits (token_store.py:20, 42 and 55).

## Model

| member | source | states |
|---|---|---|
| RateLimiter.NewLimiter | src/graph_mcp/rate_limiter.py:11-16 | A new limiter keeps the ceiling and window it is given, has admitted nothing, has no backoff pending, and already satisfies the invariant |
| RateLimiter.DropExpired | src/graph_mcp/rate_limiter.py:18-21 | Pruning only pops from the front: what stays is a suffix of the window, everything popped is older than the cutoff, and the first survivor is not |
| RateLimiter.DropExpiredSorted | src/graph_mcp/rate_limiter.py:18-21 | On an ordered window, pruning leaves an ordered window lying wholly at or after the cutoff |
| RateLimiter.DropExpiredIsRecent | src/graph_mcp/rate_limiter.py:18-21 | On an ordered window, the popping loop keeps exactly the admissions at or after the cutoff, as given by the independent filter `Recent` |
| RateLimiter.RecentKeepsAll | src/graph_mcp/rate_limiter.py:18-21 | When no admission is older than the cutoff, the window keeps every admission |
| RateLimiter.CleanWindow | src/graph_mcp/rate_limiter.py:18-21 | Only the admissions change, and only by popping from the front: what remains is a suffix of them, with the limits and backoff kept |
| RateLimiter.CleanWindowValid | src/graph_mcp/rate_limiter.py:18-21 | Pruning a limiter that satisfies the invariant leaves one that does |
| RateLimiter.CleanWindowOrdered | src/graph_mcp/rate_limiter.py:18-21 | Pruning at a later instant keeps the window ordered, never in the future, and never longer |
| RateLimiter.Acquire | src/graph_mcp/rate_limiter.py:23-35 | The caller sleeps exactly until an active backoff ends and not at all otherwise; a refusal (RateLimitError) happens iff the pruned window is at the ceiling; an admission appends the wake instant; the backoff state and limits are untouched |
| RateLimiter.AcquirePreservesValid | src/graph_mcp/rate_limiter.py:23-35 | With a clock that does not run backwards, the window stays ordered and no longer than the ceiling, and the recorded instant is the latest |
| RateLimiter.CeilingWithinOneWindow | src/graph_mcp/rate_limiter.py:23-35 | Within one window and outside a backoff, the i-th of a run of acquisitions is admitted iff fewer than the ceiling admissions precede it; so from empty, call N+1 of ceiling N fails |
| RateLimiter.BackoffDelay | src/graph_mcp/rate_limiter.py:37-39 | A non-zero server interval is the delay; otherwise the delay is 2 to the count for a count up to five and the 60-second cap from six on |
| RateLimiter.Handle429 | src/graph_mcp/rate_limiter.py:37-41 | Each 429 increments the consecutive count and sets the backoff end to now plus the returned delay; the delay is the server's non-zero interval, else `min(2**count, 60)`, between 2 and 60 |
| RateLimiter.BackoffNonDecreasing | src/graph_mcp/rate_limiter.py:37-41 | Consecutive 429s without a server interval never shorten the delay, and from the sixth on it is capped at 60 |
| RateLimiter.ResetBackoff | src/graph_mcp/rate_limiter.py:43-45 | The count and backoff end return to zero; the window and limits are kept |
| RateLimiter.ResetRestartsBackoff | src/graph_mcp/rate_limiter.py:23-45 | After a reset the next acquisition does not wait and the next 429 backs off for 2 seconds again |
| TokenStore.FernetKey | src/graph_mcp/token_store.py:42 | A key string is accepted iff the lenient URL-safe base64 decoder reads it as exactly 32 bytes, and the key is those bytes |
| TokenStore.Decrypt | src/graph_mcp/token_store.py:42-44 | Decryption succeeds iff the token was sealed under exactly those key bytes, and then gives what was sealed |
| TokenStore.CipherRoundTrip | src/graph_mcp/token_store.py:42-57 | Decrypting under the sealing key bytes gives the plaintext back; any other key bytes fail |
| TokenStore.GenerateKey | src/graph_mcp/token_store.py:17-26 | A generated key is 44 characters, 43 URL-safe ones and one `=`, and Fernet reads it back as exactly the 32 random bytes |
| TokenStore.StandardAlphabetKey | src/graph_mcp/token_store.py:42 | The same bytes written in the standard base64 alphabet name the same key |
| TokenStore.KeyLowBitsIgnored | src/graph_mcp/token_store.py:42 | Changing the two unused bits of a key's last digit gives a different string that names the same key |
| TokenStore.Load | src/graph_mcp/token_store.py:38-49 | No token file leaves the in-memory record; a refused key, a file that does not open under the key's bytes, or one that does not parse leaves no record; a loaded record is exactly what the file sealed under those bytes |
| TokenStore.Save | src/graph_mcp/token_store.py:51-63 | The file changes only when there is a record and an accepted key, and then holds that record sealed under the key's bytes; memory and the key file are untouched |
| TokenStore.Configure | src/graph_mcp/token_store.py:17-36 | A non-empty supplied key wins, else the key file's text stripped of surrounding whitespace, else a freshly generated key for the random bytes, which is written to the key file; then the token file is loaded |
| TokenStore.KeyFileStripped | src/graph_mcp/token_store.py:20 | A key file holding a generated key followed by whitespace, such as a newline, gives exactly that key |
| TokenStore.Normalize | src/graph_mcp/token_store.py:65-71 | A record exists iff the response has an access token; the refresh token and scope default to empty and the lifetime to 3600 seconds from now |
| TokenStore.Store | src/graph_mcp/token_store.py:65-72 | Storing fails (KeyError) iff the access token is missing; otherwise the record is replaced by the normalised response and saved |
| TokenStore.AccessToken | src/graph_mcp/token_store.py:74-77 | There is an access token iff there is a record, and it is the record's |
| TokenStore.RefreshToken | src/graph_mcp/token_store.py:79-82 | There is a refresh token iff there is a record, and it is the record's |
| TokenStore.IsAccessTokenExpired | src/graph_mcp/token_store.py:84-88 | Expired without a record, otherwise exactly from `buffer` seconds before the recorded expiry onwards |
| TokenStore.IsAuthenticated | src/graph_mcp/token_store.py:90-95 | Authenticated iff there is a record whose access token is still fresh or whose refresh token is non-empty |
| TokenStore.Clear | src/graph_mcp/token_store.py:97-101 | The record and the token file are gone; the key and key file stay |
| TokenStore.ClearForgetsEverything | src/graph_mcp/token_store.py:74-101 | After clearing, the token is expired at any time and buffer, the store is not authenticated, both getters give None, and clearing is idempotent |
| TokenStore.DefaultLifetimeExpiry | src/graph_mcp/token_store.py:65-88 | A token stored at t without a lifetime reads as expired exactly from t + 3300 |
| TokenStore.StoreOverwrites | src/graph_mcp/token_store.py:65-72 | What storing leaves does not depend on the previous record |
| TokenStore.SaveLoadRoundTrip | src/graph_mcp/token_store.py:38-63 | A saved record loads back unchanged, whatever memory held |
| TokenStore.KeyDecidesLoad | src/graph_mcp/token_store.py:38-63 | A saved record loads back under another key string iff it decodes to the same key bytes, and then unchanged; a tampered file leaves no record |
| TokenStore.RestartRecoversRecord | src/graph_mcp/token_store.py:34-72 | A fresh process configured with the sealing key reads back the record the previous process stored |
| Auth.AsciiBytes | src/graph_mcp/auth.py:29 | ASCII encoding of alphabet text keeps its length, and each byte is its character's code |
| Auth.GeneratePkce | src/graph_mcp/auth.py:27-31 | The verifier is the URL-safe random text cut to at most 128 characters; the challenge is 43 URL-safe characters that decode to SHA-256 of the verifier's bytes, with the unused bits of its last character zero |
| Auth.ChallengeIsCanonical | src/graph_mcp/auth.py:30 | Any URL-safe text without padding whose unused bits are zero and that decodes to the same digest is the challenge itself |
| Auth.VerifierLength | src/graph_mcp/auth.py:28 | With at least 32 random bytes the verifier has 43 to 128 characters, as RFC 7636 section 4.1 demands; with the 64 bytes drawn it has 86 |
| Base64Url.DecodeEncodeNoPad | src/graph_mcp/auth.py:30 | Unpadded URL-safe base64 loses nothing: decoding gives the bytes back |
| Base64Url.EncodeDigitsZeroUnusedBits | src/graph_mcp/auth.py:30 | The encoder always leaves the unused bits of a short last group zero |
| Base64Url.EncodeDecodeNoPad | src/graph_mcp/auth.py:30 | Unpadded URL-safe text with zero unused bits that decodes re-encodes to itself |
| Base64Url.ThirtyTwoBytes | src/graph_mcp/auth.py:30 | A 32-byte digest encodes to 43 characters, and padding adds exactly one `=` |
| Base64Url.LenientDecodeEncode | src/graph_mcp/token_store.py:42 | The lenient decoder Fernet uses reads a padded URL-safe encoding back as its bytes |
| Base64Url.RunEncodeLoose | src/graph_mcp/token_store.py:42 | Whatever the unused bits of the last digit hold, decoding the encoding appends exactly the encoded bytes |
| Base64Url.EncodeLooseDiffers | src/graph_mcp/token_store.py:42 | For 32 bytes and other lengths with a two-byte last group, different unused bits give different texts |
| Base64Url.SameLexemesSameRun | src/graph_mcp/token_store.py:42 | Texts that read the same character by character, in either alphabet or with different skipped characters, decode alike |
| Base64Url.RunAppend | src/graph_mcp/token_store.py:42 | Decoding a concatenation is decoding the first part and then the second, unless the first stopped on padding |
| Base64Url.ToStandard | src/graph_mcp/token_store.py:42 | The standard-alphabet text has the same length and differs only in writing `-` as `+` and `_` as `/` |
| Text.StripStart | src/graph_mcp/token_store.py:20 | What remains is a suffix, everything removed is whitespace, and it does not start with whitespace |
| Text.StripEnd | src/graph_mcp/token_store.py:20 | What remains is a prefix, everything removed is whitespace, and it does not end with whitespace |
| Text.StripTrailing | src/graph_mcp/token_store.py:20 | Text without whitespace at either end, followed by whitespace, strips back to itself |
| Text.Repr | src/graph_mcp/graph_client.py:44 | `repr` of text starts and ends with its quote: double quotes exactly when the text holds a single quote and no double quote |
| Text.ReprReadsBack | src/graph_mcp/graph_client.py:44 | Reading the escapes between the quotes of `repr` back gives the text |
| Text.ReprPlain | src/graph_mcp/graph_client.py:44 | Text without a single quote, a backslash or a character Python escapes is written as it is between single quotes |
| Text.ReprSwitchesQuote | src/graph_mcp/graph_client.py:44 | `a'b` is written between double quotes |
| Text.ReprDoublesBackslash | src/graph_mcp/graph_client.py:44 | A backslash is written doubled |
| Auth.AuthQuery | src/graph_mcp/auth.py:39-47 | The authorization query holds exactly the client id, response type `code`, redirect URI, space-joined scopes, state, challenge and method `S256` |
| Auth.BuildAuthUrl | src/graph_mcp/auth.py:33-49 | Registers the verifier under a fresh state and leaves the store alone; the URL is the authorize endpoint with that query |
| Auth.AuthUrlBindsVerifier | src/graph_mcp/auth.py:33-49 | The challenge in the URL is the digest of the verifier kept under the returned state, and every other pending flow is unchanged |
| Auth.ExchangeCode | src/graph_mcp/auth.py:51-75 | The state is removed whatever happens; an unknown or empty-verifier state fails as forgery iff no grant is sent; otherwise exactly one code grant with the flow's verifier; success iff a 200 reply carries an access token, which is then stored; any failure leaves the store alone; a non-200 JSON reply fails with its description; a reply that is not JSON fails with the decoder's own message |
| Auth.StateIsSingleUse | src/graph_mcp/auth.py:52-56 | Presenting a state a second time, whatever happened the first time, fails as forgery without contacting the endpoint or changing anything |
| Auth.ExchangeSucceeds | src/graph_mcp/auth.py:51-75 | A pending state with a verifier and a 200 reply with an access token: one grant, the tokens stored, the state consumed |
| Auth.RefreshAccessToken | src/graph_mcp/auth.py:77-108 | No refresh token gives False and a still-fresh token gives True, both with no call; otherwise one refresh grant, after which a non-200 reply clears the store, a 200 with a token stores it, and a transport or decoding failure changes nothing; pending flows are never touched |
| Auth.CurrentToken | src/graph_mcp/auth.py:118-121 | The stored access token when there is a non-empty one, otherwise the not-authenticated error |
| Auth.GetValidAccessToken | src/graph_mcp/auth.py:110-121 | A fresh token is handed out with no call; an expired one is refreshed first, and the call succeeds iff the refresh succeeded and left a non-empty token; a failure is the not-authenticated error; any token returned is the one stored; at most one endpoint call |
| Auth.ExpiredTokenRefreshed | src/graph_mcp/auth.py:77-121 | An expired token whose refresh grant is answered 200 with a new access token: one grant, the reply stored, and the new token handed out |
| Auth.ClassifyCallback | src/graph_mcp/auth.py:139-173 | Another path is not found; an error parameter wins, with "Unknown error" as default description; a code and a state together are taken; anything else carries no code |
| Auth.Login | src/graph_mcp/auth.py:123-197 | Without a client id it fails before anything; otherwise it registers a flow and acts on the one callback: no code or a wrong path times out, an OAuth error is reported, a code and state go to the exchange |
| Auth.LoginExchangesCallback | src/graph_mcp/auth.py:139-197 | A callback to the right path with a code and a state is answered 200 and exchanged under exactly that state |
| Auth.LoginRejectsForeignState | src/graph_mcp/auth.py:52-56 | A callback with a state never issued fails as forgery, sends no grant and leaves the store |
| Auth.LoginCompletesOwnFlow | src/graph_mcp/auth.py:123-197 | Returning the flow's own state with a code and a good reply logs in: the tokens are stored, the flow consumed, and the grant carries the flow's verifier |
| Auth.OwnFlowPending | src/graph_mcp/auth.py:35-37 | The new flow is pending under its state with a non-empty verifier, and the other flows are as before |
| Auth.Logout | src/graph_mcp/auth.py:199-201 | No pending flow and no credential remain, and the token file is gone |
| Auth.LogoutIdempotent | src/graph_mcp/auth.py:199-201 | Logging out twice is logging out once |
| GraphClient.UrlJoin | src/graph_mcp/graph_client.py:35 | Every URL lies under the service root and a slash; a relative path and its slash-prefixed form give the same URL |
| GraphClient.RetryInterval | src/graph_mcp/graph_client.py:44 | An absent or zero Retry-After means no interval, a number is that interval, and unparsable text raises a ValueError quoting the text as `repr` writes it |
| GraphClient.RetryIntervalQuotesText | src/graph_mcp/graph_client.py:44 | The `ValueError` for an unparsable header quotes it so that it reads back, and plain header text appears as it is between single quotes |
| GraphClient.ErrorDetail | src/graph_mcp/graph_client.py:73-78 | The detail is the raw text when the body is not JSON, not an object, has no `error` or an `error` without `message`; a text message is itself, a number its decimal form, and a boolean or null `True`, `False` or `None` |
| GraphClient.Sleep | src/graph_mcp/graph_client.py:47 | Both clocks advance together by a positive delay; a non-positive delay changes nothing |
| GraphClient.InitialHeaders | src/graph_mcp/graph_client.py:31-33 | The bearer token is sent unless the caller supplies its own Authorization; every caller header is sent as given and nothing else is added |
| GraphClient.FetchToken | src/graph_mcp/graph_client.py:30 | Fetching a token changes only the credentials and adds at most one endpoint call; a fresh token is obtained with no call iff it is non-empty; an expired one iff its refresh succeeded and left a non-empty token; a token obtained is the stored one |
| GraphClient.Transmit | src/graph_mcp/graph_client.py:37-40 | A send records the verb, joined URL, parameters, payload and headers, and its response is the transport's answer for that send |
| GraphClient.Finish | src/graph_mcp/graph_client.py:73-85 | A status of 400 or more raises GraphAPIError with the status and its detail; otherwise the backoff is reset and 204 gives None, any other JSON body is the result, and a non-JSON body raises the decoder's own message |
| GraphClient.FinishSettles | src/graph_mcp/graph_client.py:73-85 | Finishing on the last response settles the call |
| GraphClient.TransmitKeepsRequest | src/graph_mcp/graph_client.py:51-54 | Resending with the caller's headers keeps every send the caller's request |
| GraphClient.ResendKeepsRequest | src/graph_mcp/graph_client.py:49-54 | Replacing only the bearer token keeps every send the caller's request |
| GraphClient.ResendAfterRefresh | src/graph_mcp/graph_client.py:64-71 | After a refresh, at most one more send, carrying the current token; a second 401 ends the session |
| GraphClient.On401 | src/graph_mcp/graph_client.py:59-79 | A non-401 response finishes the call; a 401 goes to the refresh branch; at most one more send, the call settles, and a retried success carries the current token |
| GraphClient.Unauthorized | src/graph_mcp/graph_client.py:59-71 | A refused refresh raises "Session expired" with nothing resent; an accepted one resends |
| GraphClient.AfterRefresh | src/graph_mcp/graph_client.py:60 | A refresh changes only the credentials and the endpoint calls |
| GraphClient.ResendAfterBackoff | src/graph_mcp/graph_client.py:49-56 | After the backoff, one more send with the current token; a second 429 raises "Rate limit exceeded after retry" with status 429 |
| GraphClient.On429 | src/graph_mcp/graph_client.py:43-56 | An unparsable Retry-After raises; otherwise the limiter backs off, the clock sleeps the delay and the request is sent again; a non-429 goes straight to the 401 branch |
| GraphClient.Admit | src/graph_mcp/graph_client.py:27-30 | The limiter is consulted first: a refusal sends nothing and contacts no token endpoint; the clock sleeps the admission wait |
| GraphClient.Execute | src/graph_mcp/graph_client.py:19-85 | A call never sends more than three times |
| GraphClient.FirstSendIsRequest | src/graph_mcp/graph_client.py:31-40 | The first send is the caller's request with the caller's headers |
| GraphClient.ExecuteContract | src/graph_mcp/graph_client.py:19-85 | Every send is the caller's request; nothing is sent iff admission or the token fetch failed, and then the call fails with that error, the not-authenticated error for a failed fetch; a call that sent something is settled by its last response; a success resets the backoff and, after a retry, used the token the store now holds; at most three sends |
| GraphClient.AdmitReady | src/graph_mcp/graph_client.py:27-30 | A call admitted at once with a fresh token neither sleeps nor refreshes |
| GraphClient.FirstSendTrace | src/graph_mcp/graph_client.py:37-40 | The trace after the first send holds one send, the caller's request |
| GraphClient.FirstSend | src/graph_mcp/graph_client.py:27-43 | A ready call sends once with the stored token and goes on to the 429 check |
| GraphClient.FirstTransmit | src/graph_mcp/graph_client.py:37-40 | The first send of a ready call is recorded as that call's first send trace |
| GraphClient.ServedAfterBackoff | src/graph_mcp/graph_client.py:49-85 | After the backoff, a fresh token and a success: the resend returns the body and resets the backoff |
| GraphClient.ThrottledThenServed | src/graph_mcp/graph_client.py:43-85 | A 429 without Retry-After, then a success: the call sleeps 2 seconds, sends twice, returns the body, resets the backoff and never refreshes |
| GraphClient.ThrottledTwiceGivesUp | src/graph_mcp/graph_client.py:43-56 | Two 429s in a row: two sends, then "Rate limit exceeded after retry" with 429, and the backoff stays in force |
| GraphClient.ThrottledAgain | src/graph_mcp/graph_client.py:49-56 | A second 429 after the backoff gives up with the retry-exhausted error and leaves the limiter as it was |
| GraphClient.UnauthorizedResendsFreshToken | src/graph_mcp/graph_client.py:59-69 | A 401 while the token is fresh by the clock resends once with the same bearer token and no endpoint call |
| GraphClient.ResendSameToken | src/graph_mcp/graph_client.py:64-69 | A resend after a 401 with a still-fresh token reuses it: the same headers and no endpoint call |
| GraphClient.RefreshedThenServed | src/graph_mcp/graph_client.py:58-85 | A 401 with an expired token, a refresh answered 200 and a success on the resend: the body is returned, one grant is made, and the resend carries the new bearer token, which the store holds |
| Responses.SuccessResponse | src/graph_mcp/responses.py:10-11 | The envelope reads back as exactly the data and the message, `success` by default |
| Responses.ErrorResponse | src/graph_mcp/responses.py:14-18 | The envelope reads back as the error, with `action_required` present iff a non-empty action is given; by default there is none |
| Responses.ResponseDefaults | src/graph_mcp/responses.py:10-18 | Without a message a success envelope reads as `success`; without an action a failure is the bare error object |
| Responses.EnvelopesDistinct | src/graph_mcp/responses.py:10-18 | A success envelope is never an error envelope |
| Responses.SuccessInjective | src/graph_mcp/responses.py:10-11 | Two success envelopes are equal iff their data and messages are |
| Responses.RequireAuth | src/graph_mcp/responses.py:21-38 | A tool's envelope passes through; an exception becomes an error envelope that asks for login iff it is an AuthenticationError; a GraphAPIError is prefixed "Graph API error: " and anything else "Unexpected error: " |
| Responses.RequireAuthKeepsMessage | src/graph_mcp/responses.py:28-36 | The error text ends with the exception's whole message, and a RateLimitError is reported as unexpected |
| Toolkit.TopParamMeaning | src/graph_mcp/tools/calendar_tools.py:35 | The `$top` sent reads back as `min(top, cap)`, so it never exceeds the cap and is `top` within it |
| Toolkit.ValueList | src/graph_mcp/tools/calendar_tools.py:53 | `result.get("value", [])` succeeds iff the result is an object, giving its `value` or an empty list; otherwise it raises AttributeError |
| Toolkit.ListReplyMeaning | src/graph_mcp/tools/chat_tools.py:19-20 | A list handler answers with the result's `value`, `[]` when absent; a non-object result raises and an exception goes through `require_auth` |
| Toolkit.ItemReplyMeaning | src/graph_mcp/tools/calendar_tools.py:63-64 | An item handler answers with the result itself, `null` for a 204, and exceptions go through `require_auth` |
| Toolkit.FixedReplyMeaning | src/graph_mcp/tools/mail_tools.py:94-96 | A fixed-reply handler answers with its data whenever the request returns |
| CalendarTools.ListEventsRequest | src/graph_mcp/tools/calendar_tools.py:33-50 | With both dates, a `calendarView` query with the two dates and no ordering; otherwise an `/events` query ordered by start; under the primary calendar or the named one; select and a `$top` of at most 50 |
| CalendarTools.ListEventsParams | src/graph_mcp/tools/calendar_tools.py:33-50 | The two date parameters come together or not at all, exactly when there is no ordering, and `$top` never exceeds 50 |
| CalendarTools.ListCalendars | src/graph_mcp/tools/calendar_tools.py:9-15 | One request: the caller's calendars with the selected fields |
| CalendarTools.ListEvents | src/graph_mcp/tools/calendar_tools.py:19-53 | Exactly one request, the one `ListEventsRequest` builds; every argument has the source's default |
| CalendarTools.ListEventsDefaults | src/graph_mcp/tools/calendar_tools.py:19-50 | Without arguments the primary calendar's `/me/events` is asked for 50 events, newest first, with no date range |
| CalendarTools.GetEvent | src/graph_mcp/tools/calendar_tools.py:57-64 | One request for the event by id |
| FilesTools.FolderPathMeaning | src/graph_mcp/tools/files_tools.py:24-27 | An empty folder id lists the drive root; any other id lists that folder's children, and the id reads back from the path |
| FilesTools.FileClamps | src/graph_mcp/tools/files_tools.py:33-51 | Listing asks for at most 50 items and searching for at most 25 |
| FilesTools.ListFiles | src/graph_mcp/tools/files_tools.py:15-36 | Exactly one request, the folder listing |
| FilesTools.SearchFiles | src/graph_mcp/tools/files_tools.py:40-54 | Exactly one request, the drive search |
| FilesTools.FilesDefaults | src/graph_mcp/tools/files_tools.py:15-49 | Without arguments the listing is of the drive root, and both the listing and a search ask for 25 items |
| FilesTools.StartsWithAny | src/graph_mcp/tools/files_tools.py:75-80 | True iff the MIME type starts with one of the prefixes |
| FilesTools.TextMimeExamples | src/graph_mcp/tools/files_tools.py:75-80 | `text/plain` and `application/json; charset=utf-8` are text; `image/png` and the empty type are not |
| FilesTools.MimeOf | src/graph_mcp/tools/files_tools.py:69-80 | The MIME type is `file.mimeType` of the metadata, with `{}` and `""` standing in for missing keys; it is read iff both lookups work and the value is text; a missing `get` on the metadata or on `file` raises AttributeError, and a non-text value raises the AttributeError of its missing `startswith` |
| FilesTools.GetFileContent | src/graph_mcp/tools/files_tools.py:58-97 | The metadata is always asked for first; the content is asked for, as the second and last request, iff the file has a text type |
| FilesTools.BinaryFileShape | src/graph_mcp/tools/files_tools.py:82-89 | A binary file is answered with its MIME type and a download link, and no content |
| FilesTools.TextFileShape | src/graph_mcp/tools/files_tools.py:91-97 | A text file is answered with the content as fetched, and no download link |
| FilesTools.UploadFileAsWritten | src/graph_mcp/tools/files_tools.py:101-122 | As written, nothing is ever sent: undecodable input and files within the limit both end in an unexpected-error envelope, and a file over the limit gets the too-large reply |
| FilesTools.UploadAsWrittenNeverSends | src/graph_mcp/tools/files_tools.py:117-121 | Any upload within the limit sends nothing and fails with "'GraphClient' object has no attribute 'put'" |
| FilesTools.UploadFile | src/graph_mcp/tools/files_tools.py:101-122 | As intended: nothing is sent for undecodable input or more than 4 MiB; otherwise exactly one PUT of the bytes, answered with its result |
| FilesTools.UploadLimitInclusive | src/graph_mcp/tools/files_tools.py:111 | Exactly 4 MiB is uploaded; one byte more is refused without a request |
| FilesTools.UploadFixed | src/graph_mcp/tools/files_tools.py:117-122 | The corrected upload is one PUT of the caller's bytes to the path's content as an octet stream, answered with the result, where the as-written one sends nothing |
| FilesTools.ShareLinkReadsBack | src/graph_mcp/tools/files_tools.py:138-142 | The link request is a POST whose body holds exactly the type and scope asked for; different type or scope give different requests |
| FilesTools.ShareFile | src/graph_mcp/tools/files_tools.py:126-143 | Exactly one request, the `createLink` POST |
| FilesTools.ShareDefaults | src/graph_mcp/tools/files_tools.py:126-142 | Without a type or scope the link asked for is a `view` link for the `organization` |
| ChatTools.ChatClamps | src/graph_mcp/tools/chat_tools.py:17-31 | Both chat listings ask for at most 50 items |
| ChatTools.MessageBodyReadsBack | src/graph_mcp/tools/chat_tools.py:49-50 | The message is sent untouched; the content type is `html` iff an HTML message was asked for, `text` otherwise; different messages give different bodies |
| ChatTools.BindRoundTrip | src/graph_mcp/tools/chat_tools.py:80 | A member's directory reference names exactly that member |
| ChatTools.MemberObjects | src/graph_mcp/tools/chat_tools.py:74-82 | One member object per member, in order |
| ChatTools.MemberObjectsReadBack | src/graph_mcp/tools/chat_tools.py:74-82 | Reading the member objects back gives the members in order, each an owner |
| ChatTools.ChatMembers | src/graph_mcp/tools/chat_tools.py:68-72 | A one-on-one chat always includes the caller, prepended when missing, with the rest kept; any other chat keeps the list |
| ChatTools.CreateChatBody | src/graph_mcp/tools/chat_tools.py:74-85 | The body has the type and members, and a topic iff it is a group chat with a non-empty topic |
| ChatTools.MyId | src/graph_mcp/tools/chat_tools.py:69-70 | An id is obtained iff `/me` gave an object holding it as text; an object without it is `KeyError('id')`; anything else, including a 204, is Python's `TypeError` for subscripting a list, a string or a non-container |
| ChatTools.CreateChat | src/graph_mcp/tools/chat_tools.py:58-87 | A one-on-one chat asks `/me` first and then creates the chat with the caller included; other chats make the single create request |
| ChatTools.OneOnOneIncludesCaller | src/graph_mcp/tools/chat_tools.py:68-85 | The one-on-one body binds the caller and, when the caller was missing, every requested member in order after them, and has no topic |
| ChatTools.ListChats | src/graph_mcp/tools/chat_tools.py:9-20 | Exactly one request, the chat listing |
| ChatTools.GetChatMessages | src/graph_mcp/tools/chat_tools.py:24-35 | Exactly one request, the message listing |
| ChatTools.SendChatMessage | src/graph_mcp/tools/chat_tools.py:39-54 | Exactly one request, the message POST |
| ChatTools.ChatDefaults | src/graph_mcp/tools/chat_tools.py:9-83 | Without the optional arguments both listings ask for 50 items, a message is sent as plain text, and a chat other than one-on-one is created with exactly its type and members, no topic |
| ChatTools.ListChatMembers | src/graph_mcp/tools/chat_tools.py:91-98 | Exactly one request, the member listing |
| MailTools.ListMailRequest | src/graph_mcp/tools/mail_tools.py:21-30 | Newest first, selected fields, at most 50, and the filter iff one is given |
| MailTools.QuotedRoundTrip | src/graph_mcp/tools/mail_tools.py:54 | Quoting the search term loses nothing and adds two characters |
| MailTools.MailQueries | src/graph_mcp/tools/mail_tools.py:21-58 | The search term reads back from `$search` and both listings ask for at most 50 |
| MailTools.Recipients | src/graph_mcp/tools/mail_tools.py:79-89 | One recipient object per address, in order |
| MailTools.RecipientsRoundTrip | src/graph_mcp/tools/mail_tools.py:79-89 | Reading the recipients back gives the addresses in order |
| MailTools.MailMessage | src/graph_mcp/tools/mail_tools.py:79-93 | The message has subject, body with its content type and recipients, and copies iff a non-empty copy list is given |
| MailTools.SendMailCarriesRecipients | src/graph_mcp/tools/mail_tools.py:79-95 | Every recipient and every copy reaches the message in order, and the message is always kept in Sent Items |
| MailTools.SendMail | src/graph_mcp/tools/mail_tools.py:63-96 | Exactly one request, the `sendMail` POST |
| MailTools.ReplyMail | src/graph_mcp/tools/mail_tools.py:100-117 | Exactly one request, the reply POST |
| MailTools.ReplyKinds | src/graph_mcp/tools/mail_tools.py:110-117 | Reply and reply-all go to different endpoints and report different statuses |
| MailTools.ListMail | src/graph_mcp/tools/mail_tools.py:9-31 | Exactly one request, the folder listing |
| MailTools.ListMailDefaults | src/graph_mcp/tools/mail_tools.py:9-30 | Without arguments the listing is of `inbox`, 25 messages, unfiltered, newest first |
| MailTools.ReadMail | src/graph_mcp/tools/mail_tools.py:35-42 | Exactly one request, the message by id |
| MailTools.SearchMail | src/graph_mcp/tools/mail_tools.py:46-59 | Exactly one request, the search |
| MailTools.SearchMailDefaults | src/graph_mcp/tools/mail_tools.py:46-55 | Without a count a search asks for 25 messages |
| MailTools.SendMailDefaults | src/graph_mcp/tools/mail_tools.py:63-92 | Without the optional arguments a mail is plain text and carries no copy list |
| MailTools.ReplyMailDefaults | src/graph_mcp/tools/mail_tools.py:100-113 | Without `reply_all` the reply goes to `/reply`, not `/replyAll` |
| SearchTools.SearchSize | src/graph_mcp/tools/search_tools.py:15-24 | One search of chat messages for the query from the first hit, with a page of at most 25, exactly `top` within the cap |
| SearchTools.Iterate | src/graph_mcp/tools/search_tools.py:28-30 | Iterating a list gives its items; an empty text or object gives nothing; a non-empty one or a scalar fails |
| SearchTools.ListField | src/graph_mcp/tools/search_tools.py:28-30 | `v.get(key, [])` iterated: a non-object fails, a missing key gives nothing, a present one is iterated |
| SearchTools.ResourceOf | src/graph_mcp/tools/search_tools.py:31 | A hit succeeds iff it is an object, giving its `resource` or the hit itself |
| SearchTools.ResourcesOf | src/graph_mcp/tools/search_tools.py:30-31 | Succeeds iff every hit is an object, with one resource per hit in order; otherwise the error is that of the first non-object hit |
| SearchTools.ThenAssociative | src/graph_mcp/tools/search_tools.py:27-31 | Appending the results of three steps does not depend on grouping |
| SearchTools.ThenNothing | src/graph_mcp/tools/search_tools.py:27-31 | A step before or after an empty step is itself |
| SearchTools.FlatMapAppend | src/graph_mcp/tools/search_tools.py:27-31 | Looping over two lists in turn is looping over their concatenation |
| SearchTools.FlatMapSingle | src/graph_mcp/tools/search_tools.py:27-31 | Looping over one element is processing it |
| SearchTools.FlattenOneContainer | src/graph_mcp/tools/search_tools.py:25-31 | One response with one container yields exactly the resources of its hits; a 204 result fails on `.get` |
| SearchTools.FlattenResponses | src/graph_mcp/tools/search_tools.py:27-31 | The hits of several responses are those of each in order, the first failure winning |
| SearchTools.SearchMessages | src/graph_mcp/tools/search_tools.py:8-33 | One search request; a well-formed answer gives a success envelope with the flattened hits, and any failure goes through `require_auth` |
| SearchTools.SearchDefaults | src/graph_mcp/tools/search_tools.py:8-25 | Without a count the search asks for a page of 25 hits starting at the first |

## Left out

- Network I/O. The `httpx` client, its 30-second timeout and transport exceptions of Graph calls are replaced by the `transport` oracle.
- The login receiver's HTTP server, the browser launch and the 120-second wait. They are replaced by an optional callback; its absence models the timeout.
- The `asyncio.Lock` around refreshes and any concurrency. Each call is modelled as running alone.
- The JSON decoder. Whether a body parses, and the message `json.loads` raises when it does not, come with each response as inputs (`body`, `decodeError`).
- Text.Repr: characters above U+00FF that Python does not count as printable are written as they are, not as `\u` or `\U` escapes.
- Floating point. Clock instants and delays are whole seconds, so a fractional `Retry-After` is not modelled.
- GraphClient.ErrorDetail: a non-text `error.message` that is a list or object is reported as the raw text, not as Python's `str()` of it.
- GraphClient.Execute: its own ensures only bounds the sends to three. The full promise, including the failed token fetch that sends nothing, is in `GraphClient.ExecuteContract`.
- The refresh buffer setting (`graph_token_refresh_buffer`) is not modelled, because the code never reads it.
- ChatTools.MyId: a `/me` answer whose `id` is not text yields a model error instead of whatever Python would do with the value.
- FilesTools.UploadFile: `base64.b64decode` is a parameter (`decoded`). Its result is not modelled.
- The Fernet cipher is symbolic: a sealed blob records the 32 key bytes and the plaintext. AES, HMAC and token timestamps are not modelled, and a foreign token that happens to authenticate is not considered.
- A token file holding JSON that is not a credential dictionary is not modelled.
- SHA-256 is a parameter of the PKCE functions.
- TokenStore.Normalize: the token endpoint's reply is read as a record of typed fields, in which a JSON `null` counts as a missing key and every present value is assumed to have the type the endpoint sends (text tokens and scope, a whole-number `expires_in`). So `{"access_token": null}`, which `store` keeps as a record whose token is `None` (token_store.py:67), fails in the model as a missing key; a `null` or non-numeric `expires_in`, for which `time.time() + …` raises a TypeError (token_store.py:69), gets the 3600-second default; and a reply that is not a JSON object cannot be expressed.
- TokenStore.Store: inherits the reading of Normalize, so it does not promise Python's behaviour on `null` or mistyped fields.
- Auth.ExchangeCode: an `error_description` of `null`, which Python reports as "Token exchange failed: None" (auth.py:70-71), falls back to the reply's text as a missing one does.
- Auth.CallbackPath: the path of the redirect URI is an input of the settings (`redirectPath`), not parsed from `redirectUri` with `urlparse` (auth.py:134-136); the receiver's port is not modelled.
- Python iteration over dictionaries and strings is modelled by its first failing `.get` (SearchTools.Iterate), not by a per-key or per-character loop.
- MailTools.MailMessage: an empty copy list and no copy list both omit `ccRecipients`, as `if cc:` does. The two cases are not distinguished further.
- File-system permissions (`chmod`), directory creation and logging.
- JSON text. Envelopes and bodies are JSON values, not serialized strings.
- These files are not part of this model: `server.py`, `config.py`, `tools/__init__.py`, `tools/auth_tools.py`, and the teams, presence, user, meeting and profile tool modules.
- The Graph client's `patch` and `delete` are modelled as request builders only; the modelled tools use `get` and `post`.

## Findings

| source | as written | input that shows it | evidently intended | confidence | as-written member | corrected member |
|---|---|---|---|---|---|---|
| src/graph_mcp/tools/files_tools.py:117-121 | `graph_upload_file` calls `graph_client.put`, but GraphClient (src/graph_mcp/graph_client.py:18-119) defines only `get`, `post`, `patch` and `delete`, so the call raises AttributeError and the tool answers "Unexpected error: 'GraphClient' object has no attribute 'put'" | any valid base64 content of at most 4 MiB, e.g. "aGk=" | one PUT of the decoded bytes to `/me/drive/root:/{path}:/content`, answered with its result | high, not executed | FilesTools.UploadAsWrittenNeverSends | FilesTools.UploadFixed |
