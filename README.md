# node.bittrex.api.js in Dafny

A model of the sequential core of the Bittrex API client `node.bittrex.api.js`,
with proofs of what that code guarantees. It covers three parts.

- **Signed request construction** (`nonce.dfy`, `query_string.dfy`, `signing.dfy`):
  - `getNonce` and its window of recent nonces, written as a class.
  - `updateQueryStringParameter`. Its regular expression `([?&])key=.*?(&|$)` (flag `i`) is spelled out character by character as leftmost-match semantics.
  - `setRequestUriGetParams` and `apiCredentials`. The HMAC-SHA512 of the `apisign` header (RFC 2104 with FIPS 180-4) is a function parameter.
- **Response classification** (`dispatch.dfy`): which two arguments, if any, `sendRequestCallback` hands the caller's callback.
- **The websocket session** (`websocket_spec.dfy`, `websocket_props.dfy`, `websocket_session.dfy`):
  - The state is the subscription registry, the liveness timestamp, the watchdog interval and the `wsclient` handle.
  - Operations: `resetWs`, `connectws` and its asynchronous bootstrap fetch, the `bound`/`connected`/`disconnected` handlers, the watchdog tick, `messageReceived`, `websockets.client`/`listen`/`subscribe`.
  - `WebsocketSpec` states each step as a function on a `State` value.
  - `WebsocketSession.Session` keeps the same fields as mutable class fields. Each of its methods is proved to perform the `WebsocketSpec` step.
  - `WebsocketProps` proves what the steps guarantee.
  - What the client does to the outside world goes to a `log` of effects: hub calls, starting or ending a client, callback invocations and the `onConnect`/`onDisconnect` hooks.

### Behaviour kept exactly as written

- **Only the last key is signed.** `setRequestUriGetParams` upserts every key into the *original* URI, so only the last key survives. `apiCredentials` therefore signs `uri?nonce=N` without the API key (`Signing.CredentialUriOmitsApiKey`).
- **Business failure reads the HTTP response.** In `sendRequestCallback` the business-failure test reads `success` of the HTTP response object, not of the parsed JSON.
- **The watchdog re-runs its captured callback.** The watchdog interval captures the callback of the `connectws` call that created it. A forced reconnect therefore runs that callback again. When it is `subscribe`'s closure, its markets are appended a second time (`WebsocketProps.ReconnectRerunsCapturedCallback`).
- **`messageReceived` is lost on handshake.** A successful bootstrap fetch replaces the service handlers, which drops `messageReceived` until `listen` or `subscribe` runs again (the `messageHandler` field).
- **An object `uri` with keys throws.** `updateQueryStringParameter` receives the object and `uri.indexOf` throws a TypeError (`Threw`). An object with no keys is re-signed with its own `uri`; an empty `uri` falls back to the object itself (`TargetIsObject`).

## Model

| member | source | states |
|---|---|---|
| Nonce.SuffixOfSuffix | node.bittrex.api.js:55-57 | taking the last 50 of the last 51 issued nonces is taking the last 50 |
| Nonce.SuffixPush | node.bittrex.api.js:55-56 | `slice(-50)` followed by `push(nonce)` gives the last 51 entries of the history extended with the nonce |
| Nonce.FirstReadingOutside | node.bittrex.api.js:48-52 | the retry loop returns the first clock reading not in the window; every earlier reading is in it |
| Nonce.FreshExtendsHistory | node.bittrex.api.js:50-57 | a nonce absent from the last 51 issued keeps any 52 consecutively issued nonces pairwise distinct |
| Nonce.WindowStep | node.bittrex.api.js:55-57 | trimming to 50 and pushing a fresh nonce leaves the window equal to the last 51 issued nonces, and the history stays spread-distinct |
| Nonce.NonceWindow.constructor | node.bittrex.api.js:46 | the window starts empty |
| Nonce.NonceWindow.GetNonce | node.bittrex.api.js:47-59 | the nonce returned was not in the window, is the first such clock reading, and the window becomes the old last 50 plus the nonce (length at most 51, ending with it) |
| QueryString.ValueEnd | node.bittrex.api.js:63 | the lazy value scan `.*?`, when it succeeds, stops at an `&` or at the end, never before its start |
| QueryString.ValueEndStops | node.bittrex.api.js:63 | the lazy value pattern stops at the first `&` or the end with no line terminator before it, and fails exactly when a line terminator comes before any `&` |
| QueryString.FirstMatchLeftmost | node.bittrex.api.js:63-66 | the match found is a match, its value end is where the lazy scan stops, no earlier position matches, and no match means no position matches |
| QueryString.MatchesAt | node.bittrex.api.js:63 | the expression matches at `i`: a `?` or `&`, the key case-insensitively, `=`, and a value scan that succeeds |
| QueryString.FirstMatch | node.bittrex.api.js:63-66 | the search for the leftmost match finds a start no earlier than where it began and a value end inside the text |
| QueryString.FirstMatchIs | node.bittrex.api.js:63-66 | a match with no match before it is the leftmost one |
| QueryString.FirstMatchNone | node.bittrex.api.js:66 | no match anywhere means the `uri.match(re)` test fails |
| QueryString.UpdateQueryStringParameter | node.bittrex.api.js:62-70 | `updateQueryStringParameter`: rewrite the leftmost match of the key, or append `key=value` after `&` or `?` |
| QueryString.UpdateFollowsRegex | node.bittrex.api.js:62-70 | when the expression matches, the leftmost match becomes `$1key=value$2` and the rest of the URI is untouched; otherwise `key=value` is appended after `&` if the URI holds `?`, else after `?` |
| QueryString.MatchTransfers | node.bittrex.api.js:63 | whether the expression matches at a position depends only on the case-folded text up to a point where both scans succeed |
| QueryString.AppendLocates | node.bittrex.api.js:64-69 | after appending, the first match is the appended pair and its value runs to the end |
| QueryString.ReplaceLocates | node.bittrex.api.js:66-67 | after replacing, the first match is still at the same place and its value is exactly the new value |
| QueryString.UpdateLocates | node.bittrex.api.js:62-70 | in either branch the result's first match holds the key as given, `=`, and exactly the new value |
| QueryString.UpdateThenRead | node.bittrex.api.js:62-70 | reading `key` back from the result gives exactly `value` (key without delimiters, value without `&` or line terminators) |
| QueryString.UpdateIdempotent | node.bittrex.api.js:62-70 | upserting the same pair again changes nothing, so no second `key=` is added |
| QueryString.UpdateNonEmpty | node.bittrex.api.js:62-70 | the result is never empty, so the caller's fallback from `params` to `uri` never fires |
| Signing.Decimal | node.bittrex.api.js:96 | the nonce is written as a non-empty string of decimal digits |
| Signing.DecimalRoundTrip | node.bittrex.api.js:96 | reading the digits back gives the nonce |
| Signing.FinalUri | node.bittrex.api.js:82-87 | the URI sent: the original URI upserted with the last key only, or the URI itself when there are no keys |
| Signing.SetRequestUriGetParams | node.bittrex.api.js:72-91 | string URI: the signed URI is the last key upserted into the original URI (the URI itself with no keys), `apisign` is the HMAC of that URI under the secret, and the timeout is seconds × 1000; object URI: TypeError with keys, re-signed `op.uri` without keys |
| Signing.LastKeyWins | node.bittrex.api.js:82-84 | only the last key of the options decides the signed URI |
| Signing.ApiCredentials | node.bittrex.api.js:93-99 | draws a fresh nonce from the window and signs `uri` upserted with `nonce` alone |
| Signing.CredentialNonceReadsBack | node.bittrex.api.js:93-98 | the signed URI carries `nonce` and it reads back as the nonce drawn |
| Signing.CredentialUriOmitsApiKey | node.bittrex.api.js:82-98 | for a URI without a query, the signed URI is `uri?nonce=N` and holds no `apikey` parameter |
| Dispatch.SendRequestOutcome | node.bittrex.api.js:107-134 | no call iff a 200 with a body fails to parse; transport failure gives the `URL request error` object; a falsy response `success` gives the response object; otherwise the body (cleartext) or the parsed JSON |
| Dispatch.InverseSwapsArguments | node.bittrex.api.js:114-130 | flipping `inverse_callback_arguments` swaps the two arguments and changes nothing else |
| Dispatch.TransportFailureOnlyReportsError | node.bittrex.api.js:107-117 | a non-200 reply always calls back, with the error object |
| Dispatch.DecisionIgnoresParsedContent | node.bittrex.api.js:119-130 | the slot and the kind of argument depend only on whether parsing succeeded, never on the parsed value |
| WebsocketSpec.Init | node.bittrex.api.js:153-158 | global flag off, no global callback, no markets, no market callbacks, `websocketLastMessage` set to the creation time, no client, no watchdog, nothing pending or logged, a consistent state |
| WebsocketSpec.RunCallback | node.bittrex.api.js:357-367 | the closure `connectws` runs: `listen`'s sets the flag and the global callback and installs `messageReceived`; `subscribe`'s concatenates the markets and pushes the callback and installs `messageReceived`; a caller's function is called with the current client |
| WebsocketSpec.Connect | node.bittrex.api.js:167-204 | `connectws` up to the fetch: the early return runs the callback on the current client; otherwise a forced call ends the client, a watchdog capturing the callback is created when none is live, and a bootstrap fetch is issued |
| WebsocketSpec.CompleteHandshake | node.bittrex.api.js:206-308 | a failed fetch only drops the pending entry; a successful one makes and starts a new client without `messageReceived`, then runs the callback if there is one |
| WebsocketSpec.Bound | node.bittrex.api.js:232-238 | `bound` resets the registry and calls `onConnect` only when `onConnect` is a function |
| WebsocketSpec.Connected | node.bittrex.api.js:274-303 | `connected` calls `SubscribeToSummaryDeltas` when the flag is set, then `SubscribeToExchangeDeltas` for each registered market |
| WebsocketSpec.Disconnected | node.bittrex.api.js:242-261 | `disconnected` calls `onDisconnect` when it is a function, then restarts the client when auto-reconnect is on, else clears a live watchdog |
| WebsocketSpec.Tick | node.bittrex.api.js:181-203 | a watchdog tick does nothing without a client; with auto-reconnect on and more than 60000 ms since the last frame it calls `connectws` with the captured callback and `force` |
| WebsocketSpec.MessageReceived | node.bittrex.api.js:314-345 | once installed, a frame refreshes the timestamp; `M` elements fan out to every callback; a frame without `M` goes out as unhandled data; a decode failure or a non-array `M` stops the delivery |
| WebsocketSpec.ExchangeCalls | node.bittrex.api.js:288-300 | one `SubscribeToExchangeDeltas` per market, in list order |
| WebsocketSpec.MarketDeliveries | node.bittrex.api.js:324-327 | market callback `j` is called `j`-th with the payload |
| WebsocketProps.ConnectKeepsValid | node.bittrex.api.js:167-204 | `connectws` keeps the client, handler and watchdog state consistent |
| WebsocketProps.CompleteHandshakeKeepsValid | node.bittrex.api.js:206-308 | a successful bootstrap fetch installs the newest client and keeps the state consistent |
| WebsocketProps.HandlersKeepValid | node.bittrex.api.js:180-345 | the handlers, the tick and `messageReceived` keep the state consistent |
| WebsocketProps.RunCallbackRegistry | node.bittrex.api.js:356-369 | `subscribe` appends its markets in order without de-duplication and pushes one callback; `listen` sets the flag and replaces the global callback; neither touches the other's fields |
| WebsocketProps.BoundDecision | node.bittrex.api.js:232-238 | `bound` clears the registry and calls `onConnect` iff `onConnect` is a function, and otherwise changes nothing |
| WebsocketProps.ReplayCounts | node.bittrex.api.js:274-301 | `connected` subscribes each market as many times as it is registered, and the summary feed once iff the global flag is set |
| WebsocketProps.ExchangeCallsCount | node.bittrex.api.js:288-300 | the per-market call count equals the market's multiplicity in the registry |
| WebsocketProps.BoundWithOnConnectForgetsSubscriptions | node.bittrex.api.js:232-303 | with `onConnect` set, a `connected` after `bound` subscribes to nothing |
| WebsocketProps.ConnectEarlyReturn | node.bittrex.api.js:167-170 | a client, no `force` and a callback mean only the callback runs: no fetch, no new watchdog |
| WebsocketProps.ConnectStartsHandshake | node.bittrex.api.js:172-206 | otherwise one fetch is issued, the old client is ended when forced, and a watchdog is created only when none is live |
| WebsocketProps.TickDecision | node.bittrex.api.js:181-203 | a tick acts only with a client, auto-reconnect on and more than 60000 ms of silence, and then forces a reconnect with the captured callback |
| WebsocketProps.DisconnectedDecision | node.bittrex.api.js:242-261 | `disconnected` restarts the same client iff auto-reconnect is enabled, and otherwise clears the watchdog |
| WebsocketProps.ReconnectRerunsCapturedCallback | node.bittrex.api.js:180-308 | a forced reconnect ends the old client, fetches, starts a new client and re-runs the captured callback on it: none leaves the registry; `listen`'s sets the flag and global callback again; `subscribe`'s appends its markets and callback once more, so `connected` subscribes to them twice; a caller's function is called again with the new client |
| WebsocketProps.SubscribeBeforeConnect | node.bittrex.api.js:206-369 | `subscribe` before any connection leads to one fetch, one client start and one subscription for the market |
| WebsocketProps.ReceivedConcat | node.bittrex.api.js:320-339 | the payloads a callback receives from two runs of deliveries are those of the first run followed by those of the second |
| WebsocketProps.ReceivedMarketDeliveries | node.bittrex.api.js:324-327 | each of the first `n` market callbacks receives the payload exactly once |
| WebsocketProps.ReceivedDeliverOne | node.bittrex.api.js:321-328 | one element reaches the global callback iff it is set, and each market callback exactly once |
| WebsocketProps.FanOutReachesEverySlot | node.bittrex.api.js:319-329 | every callback receives every element of `M`, in order, with no market filtering |
| WebsocketProps.FanOutSize | node.bittrex.api.js:319-329 | a frame of `n` elements makes `n` × (number of callbacks) calls |
| WebsocketProps.MessageReceivedEffects | node.bittrex.api.js:314-345 | every frame refreshes the timestamp and leaves registry and connection alone; undecodable frames call nobody; a frame without `M` goes to the same callbacks as unhandled data |
| WebsocketSession.Session.constructor | node.bittrex.api.js:153-158 | the fields start as `Init(now)` |
| WebsocketSession.Session.ResetWs | node.bittrex.api.js:160-165 | performs `Reset`, writing only the four registry fields |
| WebsocketSession.Session.RunConnectCallback | node.bittrex.api.js:357-367 | performs the callback step of `listen`, `subscribe` or a caller's function |
| WebsocketSession.Session.Connect | node.bittrex.api.js:167-312 | performs the `Connect` step and returns `wsclient` as it was when the fetch was issued |
| WebsocketSession.Session.ClientCall | node.bittrex.api.js:353-355 | `websockets.client` is `connectws` with the caller's function, and returns `wsclient` as it was when the fetch was issued |
| WebsocketSession.Session.Listen | node.bittrex.api.js:356-362 | performs `Connect` with `listen`'s closure; with a client and no `force` it sets the flag and callback and keeps the markets |
| WebsocketSession.Session.Subscribe | node.bittrex.api.js:363-369 | performs `Connect` with `subscribe`'s closure; with a client and no `force` it appends the markets and one callback |
| WebsocketSession.Session.CompleteHandshake | node.bittrex.api.js:206-308 | performs the answer to a pending bootstrap fetch |
| WebsocketSession.Session.Bound | node.bittrex.api.js:232-238 | performs `Bound` |
| WebsocketSession.Session.Connected | node.bittrex.api.js:274-303 | appends the summary call when the flag is set, then the market calls |
| WebsocketSession.Session.ReplayMarkets | node.bittrex.api.js:288-300 | the `forEach` loop appends `ExchangeCalls(markets)` to the log |
| WebsocketSession.Session.Disconnected | node.bittrex.api.js:242-261 | performs `Disconnected` |
| WebsocketSession.Session.WatchdogTick | node.bittrex.api.js:181-203 | performs `Tick` |
| WebsocketSession.Session.MessageReceived | node.bittrex.api.js:314-345 | performs the `MessageReceived` step and returns `false` |
| WebsocketSession.Session.FanOutAll | node.bittrex.api.js:320-329 | the outer `forEach` loop appends `FanOut(M, …)` to the log |
| WebsocketSession.Session.FanOutOne | node.bittrex.api.js:321-328 | the global call, then the inner `forEach` loop over the market callbacks, appends `DeliverOne` |

## Left out

- **External code and the environment.** These become inputs or are not modelled:
  - The HTTP transport (`request`): its answer is the `Reply` record.
  - The cloudscraper bootstrap and the signalR client: handshake success or failure, the service-handler events and the watchdog's interval ticks are method calls, and hub calls go to the effect log. Their `.done` answers are only logged, so they are not modelled.
  - HMAC-SHA512: a function parameter.
  - `JSON.parse` and `jsonic`: the decoded value is the `Frame` datatype and an `Option`.
  - The wall clock: readings are parameters.
  - Logging and every `verbose` branch.
  - The cookie and User-Agent headers copied onto the client.
- **Regular-expression details not modelled.**
  - Keys are taken literally: regular-expression metacharacters in a key are not modelled.
  - `$` patterns inside a replacement value are not modelled.
  - Case folding under the `i` flag covers ASCII letters only.
- **Object behaviour not modelled.**
  - The options object's keys are a list in `Object.keys` order, so integer-like keys moving to the front is not modelled.
  - `assign({}, default_request_options)` shares its `headers` object, so the write to `headers.apisign` also lands in the defaults. The model returns the request fields as a value instead of mutating an object.
- **The REST endpoint catalogue and `extractOptions`.** These are one-line URL concatenations and option merging around the core.
- **Nonce.NonceWindow.GetNonce:** the source re-reads the clock without bound. The model scans a given sequence of readings and requires one of them to be outside the window; a clock that never leaves the window (the source looping forever) is not modelled. The same precondition carries over to Signing.ApiCredentials.
- **Dispatch.SendRequestOutcome:** an exception thrown by the caller's callback inside the `try` is swallowed by the source. The model assumes callbacks return normally.
- **WebsocketSession.Session.ClientCall:** on `connectws`'s early-return path the source returns whatever the caller's function returns; the model returns `None` there, as `WebsocketSession.Session.Connect` does, because a caller's function is only an identity here.
- **Signing.SetRequestUriGetParams:** `requestTimeoutInSeconds` is an integer number of seconds, so a fractional setting (1.5 giving 1500 ms in the source) is not modelled. The same holds for Signing.ApiCredentials.
- **Callbacks returning values.**
  - The `wsclient` argument that every callback also receives is not modelled.
- **Callbacks that throw.** A callback that throws in the middle of the fan-out stops the remaining calls in the source; callbacks are assumed not to throw.
- **`subscribe` with an undefined callback.** The source pushes `undefined` and later throws calling it; the model requires a callback.
- **Stale clients.** Events from an older client after a new one replaced it are not modelled: the handlers act on the current client.
- **The `connectFailed`, `onerror`, `bindingError`, `connectionLost` and `reconnecting` handlers.** They only log or return a constant.
