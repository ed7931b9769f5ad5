/**
 * The websocket side of the client: the subscription registry
 * (`websocketGlobalTickers`, `websocketGlobalTickerCallback`,
 * `websocketMarkets`, `websocketMarketsCallbacks`), the liveness timestamp
 * `websocketLastMessage`, the watchdog interval `websocketWatchDog` and the
 * client handle `wsclient`.  This module states every step as a function on a
 * snapshot of that state; module WebsocketSession holds the state in a class
 * and performs the steps in place.
 *
 * Transport events (the signalR service handlers, the bootstrap fetch's
 * answer, interval ticks) are steps taken from outside; the clock is a
 * parameter; what the client does to the outside world (hub calls, starting
 * and ending the client, callback invocations) is appended to `log`.
 */
module WebsocketSpec {
  import opened Options

  type Text = seq<char>
  type Market = Text
  /** The identity of a caller-supplied JavaScript function. */
  type CallbackId = nat
  /** The identity of one `signalR.client` object. */
  type ClientId = nat
  /** A decoded JSON value, kept as it is handed on. */
  type Json = Text

  /** The watchdog forces a reconnect once no frame arrived for more than this many milliseconds. */
  const StaleAfterMs: int := 60 * 1000
  const Hub: Text := "CoreHub"
  const SummaryDeltas: Text := "SubscribeToSummaryDeltas"
  const ExchangeDeltas: Text := "SubscribeToExchangeDeltas"

  /** `opts.websockets.autoReconnect`: `true`, `undefined`, or anything else. */
  datatype AutoReconnect = AutoReconnectTrue | AutoReconnectUndefined | AutoReconnectOther

  /** `opts.websockets`; `onConnect`/`onDisconnect` say whether the hook is a function. */
  datatype WsOptions = WsOptions(autoReconnect: AutoReconnect, onConnect: bool, onDisconnect: bool)

  /** `opts.websockets && (autoReconnect === true || typeof autoReconnect === 'undefined')` */
  predicate ReconnectEnabled(ws: Option<WsOptions>) {
    ws.Some? && (ws.value.autoReconnect == AutoReconnectTrue || ws.value.autoReconnect == AutoReconnectUndefined)
  }

  /** The closure handed to `connectws`, by the public operation that built it. */
  datatype ConnectCallback =
    | ListenCallback(globalCallback: Option<CallbackId>)
    | SubscribeCallback(markets: seq<Market>, marketCallback: CallbackId)
    | ClientCallback(userCallback: CallbackId)

  /** What `jsonic(message.utf8Data)` made of a frame. */
  datatype Frame =
    | DecodeFailed
      /** The value is truthy and its `M` is an array. */
    | Multiplexed(items: seq<Json>)
      /** `M` is truthy but not an array: `M.forEach` throws. */
    | MNotArray
      /** The value is falsy or has no truthy `M`. */
    | Plain(data: Json)

  datatype Target = GlobalFeed | MarketFeed(index: nat)
  datatype Payload = Item(msg: Json) | Unhandled(data: Json)

  datatype Effect =
    | HubCall(hub: Text, hubMethod: Text, market: Option<Market>)
    | Deliver(target: Target, callback: CallbackId, payload: Payload)
      /** `cloudscraper.get('https://bittrex.com/', ...)` issued. */
    | BootstrapFetch
    | ClientStart(client: ClientId)
    | ClientEnd(client: ClientId)
    | UserCallback(callback: CallbackId, client: ClientId)
    | OnConnectHook
    | OnDisconnectHook

  datatype State = State(
    globalTickers: bool,
    globalTickerCallback: Option<CallbackId>,
    markets: seq<Market>,
    marketCallbacks: seq<CallbackId>,
    lastMessage: int,
    /** `websocketWatchDog` holds a live interval. */
    watchdog: bool,
    /** The `callback` the interval's closure captured. */
    watchdogCallback: Option<ConnectCallback>,
    client: Option<ClientId>,
    clientsCreated: nat,
    /** `messageReceived` is installed on the current client's service handlers. */
    messageHandler: bool,
    /** Bootstrap fetches issued and not yet answered, with the callback each will run. */
    pending: seq<Option<ConnectCallback>>,
    log: seq<Effect>)

  ghost predicate ValidState(s: State) {
    && (s.client.Some? ==> s.client.value < s.clientsCreated)
    && (s.messageHandler ==> s.client.Some?)
    && (!s.watchdog ==> s.watchdogCallback.None?)
  }

  /** The state when the client object is made, at time `now`. */
  function Init(now: int): (s: State)
    ensures ValidState(s) && s.client.None? && !s.watchdog && s.lastMessage == now
    ensures !s.globalTickers && s.globalTickerCallback.None? && s.markets == [] && s.marketCallbacks == []
    ensures s.pending == [] && s.log == []
  {
    State(false, None, [], [], now, false, None, None, 0, false, [], [])
  }

  // ---------------------------------------------------------------------------
  // Registry
  // ---------------------------------------------------------------------------

  /** `resetWs` */
  function Reset(s: State): State {
    s.(globalTickers := false, globalTickerCallback := None, markets := [], marketCallbacks := [])
  }

  /**
   * Running the closure `connectws` was given, on the current client: the
   * bodies of `listen` and `subscribe` (which also install `messageReceived`)
   * or the caller's own function.
   */
  function RunCallback(s: State, cb: ConnectCallback): State
    requires s.client.Some?
  {
    match cb
    case ListenCallback(g) =>
      s.(globalTickers := true, globalTickerCallback := g, messageHandler := true)
    case SubscribeCallback(ms, c) =>
      s.(markets := s.markets + ms, marketCallbacks := s.marketCallbacks + [c], messageHandler := true)
    case ClientCallback(u) =>
      s.(log := s.log + [UserCallback(u, s.client.value)])
  }

  // ---------------------------------------------------------------------------
  // connectws and the bootstrap fetch
  // ---------------------------------------------------------------------------

  /** `connectws(callback, force)` up to the point where it waits for the bootstrap fetch. */
  function Connect(s: State, callback: Option<ConnectCallback>, force: bool): State {
    if s.client.Some? && !force && callback.Some? then RunCallback(s, callback.value)
    else
      // `wsclient.end()` on a null client throws; the error is only logged
      var s1 := if force && s.client.Some? then s.(log := s.log + [ClientEnd(s.client.value)]) else s;
      var s2 := if !s1.watchdog then s1.(watchdog := true, watchdogCallback := callback) else s1;
      s2.(pending := s2.pending + [callback], log := s2.log + [BootstrapFetch])
  }

  /**
   * The answer to the `k`-th pending bootstrap fetch: on error nothing but a
   * log line; on success a new client replaces `wsclient`, is started, gets
   * fresh service handlers (without `messageReceived`) and the callback runs.
   */
  function CompleteHandshake(s: State, k: nat, ok: bool): State
    requires k < |s.pending|
  {
    var cb := s.pending[k];
    var s1 := s.(pending := s.pending[..k] + s.pending[k + 1..]);
    if !ok then s1
    else
      var c := s1.clientsCreated;
      var s2 := s1.(client := Some(c), clientsCreated := c + 1, messageHandler := false,
                    log := s1.log + [ClientStart(c)]);
      if cb.Some? then RunCallback(s2, cb.value) else s2
  }

  // ---------------------------------------------------------------------------
  // Service handlers and the watchdog
  // ---------------------------------------------------------------------------

  /** The `bound` handler: reset the registry and call `onConnect` when it is a function. */
  function Bound(s: State, ws: Option<WsOptions>): State {
    if ws.Some? && ws.value.onConnect then Reset(s).(log := s.log + [OnConnectHook]) else s
  }

  /** `SubscribeToExchangeDeltas` for each market, in order. */
  function ExchangeCalls(ms: seq<Market>): (r: seq<Effect>)
    ensures |r| == |ms|
    ensures forall k :: 0 <= k < |ms| ==> r[k] == HubCall(Hub, ExchangeDeltas, Some(ms[k]))
  {
    if |ms| == 0 then [] else ExchangeCalls(ms[..|ms| - 1]) + [HubCall(Hub, ExchangeDeltas, Some(ms[|ms| - 1]))]
  }

  /** Concatenation of effect logs is associative. */
  lemma AppendAssoc(a: seq<Effect>, b: seq<Effect>, c: seq<Effect>)
    ensures a + b + c == a + (b + c)
  {
  }

  /** One more market, one more hub call at the end. */
  lemma ExchangeCallsStep(ms: seq<Market>, i: nat)
    requires i < |ms|
    ensures ExchangeCalls(ms[..i + 1]) == ExchangeCalls(ms[..i]) + [HubCall(Hub, ExchangeDeltas, Some(ms[i]))]
  {
    assert ms[..i + 1][..i] == ms[..i];
  }

  /** The hub calls the `connected` handler issues. */
  function Replay(globalTickers: bool, ms: seq<Market>): seq<Effect> {
    (if globalTickers then [HubCall(Hub, SummaryDeltas, None)] else []) + ExchangeCalls(ms)
  }

  /** The `connected` handler. */
  function Connected(s: State): State {
    s.(log := s.log + Replay(s.globalTickers, s.markets))
  }

  /** The `disconnected` handler. */
  function Disconnected(s: State, ws: Option<WsOptions>): State
    requires s.client.Some?
  {
    var s1 := if ws.Some? && ws.value.onDisconnect then s.(log := s.log + [OnDisconnectHook]) else s;
    if ReconnectEnabled(ws) then s1.(log := s1.log + [ClientStart(s.client.value)])
    else if s1.watchdog then s1.(watchdog := false, watchdogCallback := None)
    else s1
  }

  /** One tick of the watchdog interval at time `now`. */
  function Tick(s: State, ws: Option<WsOptions>, now: int): State {
    if s.client.None? then s
    else if ReconnectEnabled(ws) && now - s.lastMessage > StaleAfterMs then Connect(s, s.watchdogCallback, true)
    else s
  }

  // ---------------------------------------------------------------------------
  // messageReceived
  // ---------------------------------------------------------------------------

  /** The market callbacks `0 .. n-1` each receive `p`, in registration order. */
  function MarketDeliveries(p: Payload, cbs: seq<CallbackId>, n: nat): (r: seq<Effect>)
    requires n <= |cbs|
    ensures |r| == n
    ensures forall j :: 0 <= j < n ==> r[j] == Deliver(MarketFeed(j), cbs[j], p)
  {
    if n == 0 then [] else MarketDeliveries(p, cbs, n - 1) + [Deliver(MarketFeed(n - 1), cbs[n - 1], p)]
  }

  /** One payload to the global callback (if set), then to every market callback. */
  function DeliverOne(p: Payload, g: Option<CallbackId>, cbs: seq<CallbackId>): seq<Effect> {
    (if g.Some? then [Deliver(GlobalFeed, g.value, p)] else []) + MarketDeliveries(p, cbs, |cbs|)
  }

  /** Every element of `M`, in order, to the same callback set. */
  function FanOut(items: seq<Json>, g: Option<CallbackId>, cbs: seq<CallbackId>): seq<Effect> {
    if |items| == 0 then []
    else FanOut(items[..|items| - 1], g, cbs) + DeliverOne(Item(items[|items| - 1]), g, cbs)
  }

  /** One more element, one more round of deliveries at the end. */
  lemma FanOutStep(items: seq<Json>, i: nat, g: Option<CallbackId>, cbs: seq<CallbackId>)
    requires i < |items|
    ensures FanOut(items[..i + 1], g, cbs) == FanOut(items[..i], g, cbs) + DeliverOne(Item(items[i]), g, cbs)
  {
    assert items[..i + 1][..i] == items[..i];
  }

  /** The `messageReceived` handler for a frame arriving at `now`. */
  function MessageReceived(s: State, frame: Frame, now: int): State {
    if !s.messageHandler then s
    else
      var s1 := s.(lastMessage := now);
      match frame
      case DecodeFailed => s1
      case MNotArray => s1
      case Multiplexed(items) =>
        s1.(log := s1.log + FanOut(items, s.globalTickerCallback, s.marketCallbacks))
      case Plain(data) =>
        s1.(log := s1.log + DeliverOne(Unhandled(data), s.globalTickerCallback, s.marketCallbacks))
  }
}
