/** What the websocket steps of WebsocketSpec guarantee. */
module WebsocketProps {
  import opened Options
  import opened WebsocketSpec

  // ---------------------------------------------------------------------------
  // The state invariant
  // ---------------------------------------------------------------------------

  /** `connectws` keeps the client handle, the message handler and the watchdog consistent. */
  lemma ConnectKeepsValid(s: State, cb: Option<ConnectCallback>, force: bool)
    requires ValidState(s)
    ensures ValidState(Connect(s, cb, force))
  {
  }

  /** So does the answer to a bootstrap fetch: the new client is the newest one created. */
  lemma CompleteHandshakeKeepsValid(s: State, k: nat, ok: bool)
    requires ValidState(s) && k < |s.pending|
    ensures ValidState(CompleteHandshake(s, k, ok))
    ensures ok ==> CompleteHandshake(s, k, ok).client == Some(s.clientsCreated)
  {
  }

  /** So do the service handlers, the watchdog tick and `messageReceived`. */
  lemma HandlersKeepValid(s: State, ws: Option<WsOptions>, frame: Frame, now: int)
    requires ValidState(s)
    ensures ValidState(Bound(s, ws))
    ensures ValidState(Connected(s))
    ensures s.client.Some? ==> ValidState(Disconnected(s, ws))
    ensures ValidState(Tick(s, ws, now))
    ensures ValidState(MessageReceived(s, frame, now))
  {
    if s.client.Some? && ReconnectEnabled(ws) && now - s.lastMessage > StaleAfterMs {
      ConnectKeepsValid(s, s.watchdogCallback, true);
    }
  }

  // ---------------------------------------------------------------------------
  // The registry
  // ---------------------------------------------------------------------------

  /**
   * `subscribe`'s closure appends its markets in order, duplicates kept, and
   * exactly one callback, leaving the global feed alone; `listen`'s closure
   * sets the global flag and replaces the one global callback, leaving the
   * markets alone.  Both install `messageReceived` and issue nothing.
   */
  lemma RunCallbackRegistry(s: State, cb: ConnectCallback)
    requires s.client.Some?
    ensures var r := RunCallback(s, cb);
      && (cb.SubscribeCallback? ==>
            && r.markets == s.markets + cb.markets
            && |r.marketCallbacks| == |s.marketCallbacks| + 1
            && r.marketCallbacks[..|s.marketCallbacks|] == s.marketCallbacks
            && r.marketCallbacks[|s.marketCallbacks|] == cb.marketCallback
            && r.globalTickers == s.globalTickers && r.globalTickerCallback == s.globalTickerCallback
            && r.messageHandler && r.log == s.log)
      && (cb.ListenCallback? ==>
            && r.globalTickers && r.globalTickerCallback == cb.globalCallback
            && r.markets == s.markets && r.marketCallbacks == s.marketCallbacks
            && r.messageHandler && r.log == s.log)
      && (cb.ClientCallback? ==>
            r == s.(log := s.log + [UserCallback(cb.userCallback, s.client.value)]))
  {
  }

  /** `bound` clears the four registry fields iff `onConnect` is a function, and touches nothing else. */
  lemma BoundDecision(s: State, ws: Option<WsOptions>)
    ensures ws.Some? && ws.value.onConnect ==>
      var r := Bound(s, ws);
      && !r.globalTickers && r.globalTickerCallback.None? && r.markets == [] && r.marketCallbacks == []
      && r.log == s.log + [OnConnectHook]
      && r.(globalTickers := s.globalTickers, globalTickerCallback := s.globalTickerCallback,
            markets := s.markets, marketCallbacks := s.marketCallbacks, log := s.log) == s
    ensures !(ws.Some? && ws.value.onConnect) ==> Bound(s, ws) == s
  {
  }

  // ---------------------------------------------------------------------------
  // Subscription replay on `connected`
  // ---------------------------------------------------------------------------

  /**
   * `connected` issues one `SubscribeToExchangeDeltas` per registry entry
   * (duplicates included) and one `SubscribeToSummaryDeltas` iff the global
   * flag is set.
   */
  lemma ReplayCounts(g: bool, ms: seq<Market>, m: Market)
    ensures multiset(Replay(g, ms))[HubCall(Hub, ExchangeDeltas, Some(m))] == multiset(ms)[m]
    ensures multiset(Replay(g, ms))[HubCall(Hub, SummaryDeltas, None)] == if g then 1 else 0
  {
    ExchangeCallsCount(ms, m);
    var summary := HubCall(Hub, SummaryDeltas, None);
    assert summary !in ExchangeCalls(ms);
  }

  lemma {:induction false} ExchangeCallsCount(ms: seq<Market>, m: Market)
    ensures multiset(ExchangeCalls(ms))[HubCall(Hub, ExchangeDeltas, Some(m))] == multiset(ms)[m]
  {
    if |ms| > 0 {
      var init := ms[..|ms| - 1];
      ExchangeCallsCount(init, m);
      CountOneMoreCall(ExchangeCalls(init), ms, m);
    }
  }

  /** Appending the call for the last market keeps calls and markets counted alike. */
  lemma CountOneMoreCall(calls: seq<Effect>, ms: seq<Market>, m: Market)
    requires |ms| > 0
    requires multiset(calls)[HubCall(Hub, ExchangeDeltas, Some(m))] == multiset(ms[..|ms| - 1])[m]
    ensures multiset(calls + [HubCall(Hub, ExchangeDeltas, Some(ms[|ms| - 1]))])[HubCall(Hub, ExchangeDeltas, Some(m))]
            == multiset(ms)[m]
  {
    var init, last := ms[..|ms| - 1], ms[|ms| - 1];
    assert ms == init + [last];
    assert multiset(ms) == multiset(init) + multiset{last};
    assert multiset(calls + [HubCall(Hub, ExchangeDeltas, Some(last))])
           == multiset(calls) + multiset{HubCall(Hub, ExchangeDeltas, Some(last))};
  }

  /** With `onConnect` set, `bound` empties the registry, so the following `connected` subscribes to nothing. */
  lemma BoundWithOnConnectForgetsSubscriptions(s: State, ws: Option<WsOptions>)
    requires ws.Some? && ws.value.onConnect
    ensures Connected(Bound(s, ws)).log == s.log + [OnConnectHook]
  {
    assert Replay(false, []) == [];
  }

  // ---------------------------------------------------------------------------
  // connectws, the watchdog and `disconnected`
  // ---------------------------------------------------------------------------

  /** With a client, no `force` and a callback, `connectws` only runs the callback: no fetch, no new watchdog. */
  lemma ConnectEarlyReturn(s: State, cb: ConnectCallback)
    requires ValidState(s) && s.client.Some?
    ensures var r := Connect(s, Some(cb), false);
      r == RunCallback(s, cb) && r.pending == s.pending && r.watchdog == s.watchdog
  {
  }

  /**
   * Otherwise `connectws` issues one bootstrap fetch, ends the current client
   * first when forced, and creates the watchdog only when none is live; a live
   * watchdog keeps the callback it captured.
   */
  lemma ConnectStartsHandshake(s: State, cb: Option<ConnectCallback>, force: bool)
    requires ValidState(s)
    requires !(s.client.Some? && !force && cb.Some?)
    ensures var r := Connect(s, cb, force);
      && r.pending == s.pending + [cb]
      && r.log == s.log + (if force && s.client.Some? then [ClientEnd(s.client.value)] else []) + [BootstrapFetch]
      && r.watchdog
      && r.watchdogCallback == (if s.watchdog then s.watchdogCallback else cb)
      && r.markets == s.markets && r.marketCallbacks == s.marketCallbacks
      && r.globalTickers == s.globalTickers && r.client == s.client
  {
  }

  /**
   * A tick does nothing without a client or with auto-reconnect disabled,
   * nothing while the last frame is at most 60000 ms old, and otherwise forces
   * a reconnect with the callback the watchdog captured.
   */
  lemma TickDecision(s: State, ws: Option<WsOptions>, now: int)
    requires ValidState(s) && s.watchdog
    ensures s.client.None? ==> Tick(s, ws, now) == s
    ensures !ReconnectEnabled(ws) ==> Tick(s, ws, now) == s
    ensures now - s.lastMessage <= StaleAfterMs ==> Tick(s, ws, now) == s
    ensures s.client.Some? && ReconnectEnabled(ws) && now - s.lastMessage > StaleAfterMs ==>
      var r := Tick(s, ws, now);
      && r.log == s.log + [ClientEnd(s.client.value), BootstrapFetch]
      && r.pending == s.pending + [s.watchdogCallback]
      && r.watchdog && r.watchdogCallback == s.watchdogCallback
  {
  }

  /**
   * `disconnected` restarts the same client when auto-reconnect is enabled;
   * otherwise it never restarts anything and the watchdog is cleared.
   */
  lemma DisconnectedDecision(s: State, ws: Option<WsOptions>)
    requires ValidState(s) && s.client.Some?
    ensures var r := Disconnected(s, ws);
      var hook := if ws.Some? && ws.value.onDisconnect then [OnDisconnectHook] else [];
      && (ReconnectEnabled(ws) ==>
            r.log == s.log + hook + [ClientStart(s.client.value)] && r.watchdog == s.watchdog)
      && (!ReconnectEnabled(ws) ==>
            r.log == s.log + hook && !r.watchdog && r.watchdogCallback.None?)
      && r.markets == s.markets && r.globalTickers == s.globalTickers && r.client == s.client
  {
  }

  /**
   * A forced reconnect whose handshake succeeds ends the old client, starts a
   * new one, keeps the registry and runs the watchdog's captured callback
   * again on the new client.  When that is `subscribe`'s closure its markets
   * and callback are appended once more, so the next `connected` subscribes to
   * them twice; `listen`'s closure sets the global feed again; the caller's
   * own `client` callback is called again with the new client.
   */
  lemma ReconnectRerunsCapturedCallback(s: State, ws: Option<WsOptions>, now: int)
    requires ValidState(s) && s.watchdog && s.client.Some?
    requires ReconnectEnabled(ws) && now - s.lastMessage > StaleAfterMs
    ensures var t := Tick(s, ws, now);
      var u := CompleteHandshake(t, |t.pending| - 1, true);
      var cb := s.watchdogCallback;
      var c := s.clientsCreated;
      var restart := s.log + [ClientEnd(s.client.value), BootstrapFetch, ClientStart(c)];
      && u.client == Some(c)
      && u.pending == s.pending
      && (cb.None? ==>
            u.markets == s.markets && u.marketCallbacks == s.marketCallbacks &&
            u.globalTickers == s.globalTickers && u.globalTickerCallback == s.globalTickerCallback &&
            !u.messageHandler && u.log == restart)
      && (cb.Some? && cb.value.ClientCallback? ==>
            u.markets == s.markets && u.marketCallbacks == s.marketCallbacks &&
            u.globalTickers == s.globalTickers && u.globalTickerCallback == s.globalTickerCallback &&
            !u.messageHandler && u.log == restart + [UserCallback(cb.value.userCallback, c)])
      && (cb.Some? && cb.value.ListenCallback? ==>
            u.markets == s.markets && u.marketCallbacks == s.marketCallbacks &&
            u.globalTickers && u.globalTickerCallback == cb.value.globalCallback &&
            u.messageHandler && u.log == restart)
      && (cb.Some? && cb.value.SubscribeCallback? ==>
            u.markets == s.markets + cb.value.markets &&
            u.marketCallbacks == s.marketCallbacks + [cb.value.marketCallback] &&
            u.globalTickers == s.globalTickers && u.globalTickerCallback == s.globalTickerCallback &&
            u.messageHandler && u.log == restart &&
            Connected(u).log == u.log + Replay(s.globalTickers, s.markets + cb.value.markets))
  {
    var t := Tick(s, ws, now);
    assert t.pending == s.pending + [s.watchdogCallback];
    var k := |t.pending| - 1;
    assert t.pending[..k] + t.pending[k + 1..] == s.pending;
  }

  /** `subscribe` before any connection: once the handshake succeeds and the client connects, the market is subscribed. */
  lemma SubscribeBeforeConnect(now: int, market: Market, cb: CallbackId)
    ensures var s0 := Init(now);
      var s1 := Connect(s0, Some(SubscribeCallback([market], cb)), false);
      var s2 := CompleteHandshake(s1, 0, true);
      var s3 := Connected(s2);
      s3.log == [BootstrapFetch, ClientStart(0), HubCall(Hub, ExchangeDeltas, Some(market))]
  {
    var s1 := Connect(Init(now), Some(SubscribeCallback([market], cb)), false);
    assert s1.log == [BootstrapFetch];
    assert s1.pending[..0] + s1.pending[1..] == [];
    var s2 := CompleteHandshake(s1, 0, true);
    assert s2.markets == [market] && !s2.globalTickers;
    assert s2.log == [BootstrapFetch, ClientStart(0)];
    assert Replay(false, [market]) == [HubCall(Hub, ExchangeDeltas, Some(market))];
  }

  // ---------------------------------------------------------------------------
  // messageReceived
  // ---------------------------------------------------------------------------

  /** The payloads, in order, that the callback in slot `t` is called with. */
  function Received(effects: seq<Effect>, t: Target): seq<Payload> {
    if |effects| == 0 then []
    else
      var e := effects[|effects| - 1];
      Received(effects[..|effects| - 1], t) + (if e.Deliver? && e.target == t then [e.payload] else [])
  }

  function ItemsOf(items: seq<Json>): (r: seq<Payload>)
    ensures |r| == |items| && forall k :: 0 <= k < |items| ==> r[k] == Item(items[k])
  {
    if |items| == 0 then [] else ItemsOf(items[..|items| - 1]) + [Item(items[|items| - 1])]
  }

  lemma {:induction false} ReceivedConcat(a: seq<Effect>, b: seq<Effect>, t: Target)
    ensures Received(a + b, t) == Received(a, t) + Received(b, t)
    decreases |b|
  {
    if |b| == 0 {
      assert a + b == a;
    } else {
      var b' := b[..|b| - 1];
      ReceivedConcat(a, b', t);
      assert (a + b)[..|a + b| - 1] == a + b';
      assert (a + b)[|a + b| - 1] == b[|b| - 1];
    }
  }

  lemma {:induction false} ReceivedMarketDeliveries(p: Payload, cbs: seq<CallbackId>, n: nat, t: Target)
    requires n <= |cbs|
    ensures Received(MarketDeliveries(p, cbs, n), t) == if t.MarketFeed? && t.index < n then [p] else []
  {
    if n > 0 {
      ReceivedMarketDeliveries(p, cbs, n - 1, t);
      var r := MarketDeliveries(p, cbs, n);
      assert r[..n - 1] == MarketDeliveries(p, cbs, n - 1);
    }
  }

  /** One payload reaches the global slot iff a global callback is set, and every market slot exactly once. */
  lemma ReceivedDeliverOne(p: Payload, g: Option<CallbackId>, cbs: seq<CallbackId>, t: Target)
    ensures Received(DeliverOne(p, g, cbs), t) ==
      if t == GlobalFeed then (if g.Some? then [p] else [])
      else if t.index < |cbs| then [p] else []
  {
    var head: seq<Effect> := if g.Some? then [Deliver(GlobalFeed, g.value, p)] else [];
    ReceivedGlobalCall(p, g, t);
    ReceivedConcat(head, MarketDeliveries(p, cbs, |cbs|), t);
    ReceivedMarketDeliveries(p, cbs, |cbs|, t);
  }

  lemma ReceivedGlobalCall(p: Payload, g: Option<CallbackId>, t: Target)
    ensures Received(if g.Some? then [Deliver(GlobalFeed, g.value, p)] else [], t) ==
      if t == GlobalFeed && g.Some? then [p] else []
  {
    if g.Some? {
      var head := [Deliver(GlobalFeed, g.value, p)];
      assert head[..0] == [];
    }
  }

  /**
   * Every registered market callback receives every element of `M`, in
   * order, whichever market it concerns; the global callback receives them
   * all iff it is set; no other slot receives anything.
   */
  lemma {:induction false} FanOutReachesEverySlot(items: seq<Json>, g: Option<CallbackId>, cbs: seq<CallbackId>, t: Target)
    ensures Received(FanOut(items, g, cbs), t) ==
      if t == GlobalFeed then (if g.Some? then ItemsOf(items) else [])
      else if t.index < |cbs| then ItemsOf(items) else []
  {
    if |items| > 0 {
      var init := items[..|items| - 1];
      FanOutReachesEverySlot(init, g, cbs, t);
      ReceivedConcat(FanOut(init, g, cbs), DeliverOne(Item(items[|items| - 1]), g, cbs), t);
      ReceivedDeliverOne(Item(items[|items| - 1]), g, cbs, t);
    }
  }

  /** A frame of `n` elements makes `n` times as many calls as there are callbacks. */
  lemma {:induction false} FanOutSize(items: seq<Json>, g: Option<CallbackId>, cbs: seq<CallbackId>)
    ensures |FanOut(items, g, cbs)| == |items| * ((if g.Some? then 1 else 0) + |cbs|)
  {
    if |items| > 0 {
      var c := (if g.Some? then 1 else 0) + |cbs|;
      FanOutSize(items[..|items| - 1], g, cbs);
      assert |DeliverOne(Item(items[|items| - 1]), g, cbs)| == c;
      assert (|items| - 1) * c + c == |items| * c;
    }
  }

  /**
   * With the handler installed, every frame, decodable or not, refreshes the
   * liveness timestamp and leaves the registry and the connection alone; a
   * frame without `M` goes to the same slots wrapped as unhandled data.
   */
  lemma MessageReceivedEffects(s: State, frame: Frame, now: int)
    requires s.messageHandler
    ensures var r := MessageReceived(s, frame, now);
      && r.lastMessage == now
      && r.(lastMessage := s.lastMessage, log := s.log) == s
      && (frame.DecodeFailed? || frame.MNotArray? ==> r.log == s.log)
      && (frame.Plain? ==>
            (forall t :: Received(r.log[|s.log|..], t) ==
               (if t == GlobalFeed then (if s.globalTickerCallback.Some? then [Unhandled(frame.data)] else [])
                else if t.index < |s.marketCallbacks| then [Unhandled(frame.data)] else [])))
  {
    if frame.Plain? {
      var r := MessageReceived(s, frame, now);
      assert r.log[|s.log|..] == DeliverOne(Unhandled(frame.data), s.globalTickerCallback, s.marketCallbacks);
      forall t {
        ReceivedDeliverOne(Unhandled(frame.data), s.globalTickerCallback, s.marketCallbacks, t);
      }
    }
  }
}
