/**
 * The websocket state of one client as the source keeps it: module variables
 * updated in place by `resetWs`, `connectws`, the service handlers, the
 * watchdog interval and `messageReceived`.  Each method is proved to perform
 * the step WebsocketSpec defines for it.
 */
module WebsocketSession {
  import opened Options
  import opened WebsocketSpec

  class Session {
    /** `opts.websockets` */
    const ws: Option<WsOptions>

    var globalTickers: bool
    var globalTickerCallback: Option<CallbackId>
    var markets: seq<Market>
    var marketCallbacks: seq<CallbackId>
    var lastMessage: int
    var watchdog: bool
    var watchdogCallback: Option<ConnectCallback>
    var client: Option<ClientId>
    var clientsCreated: nat
    var messageHandler: bool
    var pending: seq<Option<ConnectCallback>>
    var log: seq<Effect>

    /** The state as a value. */
    function St(): State
      reads this
    {
      State(globalTickers, globalTickerCallback, markets, marketCallbacks, lastMessage, watchdog,
            watchdogCallback, client, clientsCreated, messageHandler, pending, log)
    }

    ghost predicate Valid()
      reads this
    {
      ValidState(St())
    }

    /** `NodeBittrexApi(...)`: empty registry, no client, no watchdog, `websocketLastMessage` set to `now`. */
    constructor (ws: Option<WsOptions>, now: int)
      ensures Valid() && this.ws == ws && St() == Init(now)
    {
      this.ws := ws;
      globalTickers := false;
      globalTickerCallback := None;
      markets := [];
      marketCallbacks := [];
      lastMessage := now;
      watchdog := false;
      watchdogCallback := None;
      client := None;
      clientsCreated := 0;
      messageHandler := false;
      pending := [];
      log := [];
    }

    /** `resetWs` */
    method ResetWs()
      modifies this`globalTickers, this`globalTickerCallback, this`markets, this`marketCallbacks
      ensures St() == Reset(old(St()))
    {
      globalTickers := false;
      globalTickerCallback := None;
      markets := [];
      marketCallbacks := [];
    }

    /** The closure given to `connectws`, called with the current client. */
    method RunConnectCallback(cb: ConnectCallback)
      requires client.Some?
      modifies this
      ensures St() == RunCallback(old(St()), cb)
    {
      match cb {
        case ListenCallback(g) =>
          globalTickers := true;
          globalTickerCallback := g;
          messageHandler := true;
        case SubscribeCallback(ms, c) =>
          markets := markets + ms;
          marketCallbacks := marketCallbacks + [c];
          messageHandler := true;
        case ClientCallback(u) =>
          log := log + [UserCallback(u, client.value)];
      }
    }

    /**
     * `connectws(callback, force)`.  Returns `wsclient` as it stands when the
     * bootstrap fetch is issued; on the early-return path, what the callback
     * returns, which is nothing for the closures of `listen` and `subscribe`.
     */
    method Connect(callback: Option<ConnectCallback>, force: bool) returns (current: Option<ClientId>)
      requires Valid()
      modifies this
      ensures Valid()
      ensures St() == WebsocketSpec.Connect(old(St()), callback, force)
      ensures current == if old(client).Some? && !force && callback.Some? then None else old(client)
    {
      if client.Some? && !force && callback.Some? {
        RunConnectCallback(callback.value);
        return None;
      }
      if force && client.Some? {
        log := log + [ClientEnd(client.value)];
      }
      if !watchdog {
        watchdog := true;
        watchdogCallback := callback;
      }
      pending := pending + [callback];
      log := log + [BootstrapFetch];
      current := client;
    }

    /** `websockets.client(callback, force)` */
    method ClientCall(callback: Option<CallbackId>, force: bool) returns (current: Option<ClientId>)
      requires Valid()
      modifies this
      ensures Valid()
      ensures St() == WebsocketSpec.Connect(old(St()), if callback.Some? then Some(ClientCallback(callback.value)) else None, force)
      ensures current == if old(client).Some? && !force && callback.Some? then None else old(client)
    {
      current := Connect(if callback.Some? then Some(ClientCallback(callback.value)) else None, force);
    }

    /** `websockets.listen(callback, force)`: once connected, set the global flag and replace the global callback. */
    method Listen(callback: Option<CallbackId>, force: bool)
      requires Valid()
      modifies this
      ensures Valid()
      ensures St() == WebsocketSpec.Connect(old(St()), Some(ListenCallback(callback)), force)
      ensures old(client).Some? && !force ==>
        globalTickers && globalTickerCallback == callback && messageHandler &&
        markets == old(markets) && marketCallbacks == old(marketCallbacks)
    {
      var _ := Connect(Some(ListenCallback(callback)), force);
    }

    /**
     * `websockets.subscribe(markets, callback, force)`: once connected, append
     * the markets in order, without removing duplicates, and push the callback once.
     */
    method Subscribe(newMarkets: seq<Market>, callback: CallbackId, force: bool)
      requires Valid()
      modifies this
      ensures Valid()
      ensures St() == WebsocketSpec.Connect(old(St()), Some(SubscribeCallback(newMarkets, callback)), force)
      ensures old(client).Some? && !force ==>
        markets == old(markets) + newMarkets && marketCallbacks == old(marketCallbacks) + [callback] &&
        globalTickers == old(globalTickers) && globalTickerCallback == old(globalTickerCallback)
    {
      var _ := Connect(Some(SubscribeCallback(newMarkets, callback)), force);
    }

    /** The answer to the `k`-th pending bootstrap fetch (`ok` when it carried no error). */
    method CompleteHandshake(k: nat, ok: bool)
      requires Valid() && k < |pending|
      modifies this
      ensures Valid()
      ensures St() == WebsocketSpec.CompleteHandshake(old(St()), k, ok)
    {
      var cb := pending[k];
      pending := pending[..k] + pending[k + 1..];
      if ok {
        var c := clientsCreated;
        client := Some(c);
        clientsCreated := c + 1;
        messageHandler := false;
        log := log + [ClientStart(c)];
        if cb.Some? {
          RunConnectCallback(cb.value);
        }
      }
    }

    /** The `bound` service handler. */
    method Bound()
      requires Valid()
      modifies this
      ensures Valid()
      ensures St() == WebsocketSpec.Bound(old(St()), ws)
    {
      if ws.Some? && ws.value.onConnect {
        ResetWs();
        log := log + [OnConnectHook];
      }
    }

    /**
     * The `connected` service handler: replay the registry as hub calls, the
     * global feed first, then every market in list order.
     */
    method Connected()
      requires Valid() && client.Some?
      modifies this`log
      ensures Valid()
      ensures St() == WebsocketSpec.Connected(old(St()))
    {
      ghost var before := log;
      if globalTickers {
        log := log + [HubCall(Hub, SummaryDeltas, None)];
      }
      ghost var summary := log[|before|..];
      assert log == before + summary;
      if |markets| > 0 {
        ReplayMarkets();
      }
      AppendAssoc(before, summary, ExchangeCalls(markets));
    }

    /** `websocketMarkets.forEach(...)`: one `SubscribeToExchangeDeltas` per registered market, in list order. */
    method ReplayMarkets()
      modifies this`log
      ensures log == old(log) + ExchangeCalls(markets)
    {
      var ms := markets;
      ghost var start := log;
      var i := 0;
      while i < |ms|
        invariant 0 <= i <= |ms|
        invariant log == start + ExchangeCalls(ms[..i])
      {
        ExchangeCallsStep(ms, i);
        AppendAssoc(start, ExchangeCalls(ms[..i]), [HubCall(Hub, ExchangeDeltas, Some(ms[i]))]);
        log := log + [HubCall(Hub, ExchangeDeltas, Some(ms[i]))];
        i := i + 1;
      }
      assert ms[..i] == ms;
    }

    /** The `disconnected` service handler. */
    method Disconnected()
      requires Valid() && client.Some?
      modifies this
      ensures Valid()
      ensures St() == WebsocketSpec.Disconnected(old(St()), ws)
    {
      if ws.Some? && ws.value.onDisconnect {
        log := log + [OnDisconnectHook];
      }
      if ReconnectEnabled(ws) {
        log := log + [ClientStart(client.value)];
      } else if watchdog {
        watchdog := false;
        watchdogCallback := None;
      }
    }

    /** One tick of the watchdog interval, at time `now`. */
    method WatchdogTick(now: int)
      requires Valid() && watchdog
      modifies this
      ensures Valid()
      ensures St() == Tick(old(St()), ws, now)
    {
      if client.None? {
        return;
      }
      if ReconnectEnabled(ws) {
        var diff := now - lastMessage;
        if diff > StaleAfterMs {
          var _ := Connect(watchdogCallback, true);
        }
      }
    }

    /**
     * The `messageReceived` handler for a frame arriving at `now`: refresh the
     * liveness timestamp, then hand every element of `M` (or the unhandled
     * value) to the global callback and to each market callback in turn.
     */
    method MessageReceived(frame: Frame, now: int) returns (handled: bool)
      requires Valid()
      modifies this`lastMessage, this`log
      ensures Valid()
      ensures St() == WebsocketSpec.MessageReceived(old(St()), frame, now)
      ensures !handled
    {
      handled := false;
      if !messageHandler {
        return;
      }
      lastMessage := now;
      match frame {
        case DecodeFailed =>
        case MNotArray =>
        case Multiplexed(items) =>
          FanOutAll(items);
        case Plain(data) =>
          FanOutOne(Unhandled(data));
      }
    }

    /** `data.M.forEach(...)`: every element, in order, to the whole callback set. */
    method FanOutAll(items: seq<Json>)
      modifies this`log
      ensures log == old(log) + FanOut(items, globalTickerCallback, marketCallbacks)
    {
      var g, cbs := globalTickerCallback, marketCallbacks;
      ghost var start := log;
      var i := 0;
      while i < |items|
        invariant 0 <= i <= |items|
        invariant log == start + FanOut(items[..i], g, cbs)
      {
        FanOutStep(items, i, g, cbs);
        FanOutOne(Item(items[i]));
        AppendAssoc(start, FanOut(items[..i], g, cbs), DeliverOne(Item(items[i]), g, cbs));
        i := i + 1;
      }
      assert items[..i] == items;
    }

    /** One payload to the global callback, if set, and then to every market callback in registration order. */
    method FanOutOne(p: Payload)
      modifies this`log
      ensures log == old(log) + DeliverOne(p, globalTickerCallback, marketCallbacks)
    {
      if globalTickerCallback.Some? {
        log := log + [Deliver(GlobalFeed, globalTickerCallback.value, p)];
      }
      ghost var afterGlobal := log;
      var j := 0;
      while j < |marketCallbacks|
        invariant 0 <= j <= |marketCallbacks|
        invariant log == afterGlobal + MarketDeliveries(p, marketCallbacks, j)
      {
        log := log + [Deliver(MarketFeed(j), marketCallbacks[j], p)];
        j := j + 1;
      }
    }
  }

  /** `subscribe` before any connection, as a client of the class sees it. */
  method SubscribeThenConnect(now: int)
  {
    var session := new Session(Some(WsOptions(AutoReconnectUndefined, false, false)), now);
    session.Subscribe(["BTC-ETH"], 1, false);
    assert session.pending == [Some(SubscribeCallback(["BTC-ETH"], 1))];
    session.CompleteHandshake(0, true);
    assert session.markets == ["BTC-ETH"] && session.client == Some(0);
    session.Connected();
    assert ExchangeCalls(["BTC-ETH"]) == ExchangeCalls(["BTC-ETH"][..0]) + [HubCall(Hub, ExchangeDeltas, Some("BTC-ETH"))];
    assert session.log == [BootstrapFetch, ClientStart(0), HubCall(Hub, ExchangeDeltas, Some("BTC-ETH"))];
  }
}
