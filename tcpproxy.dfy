/**
 * `StreamDeckTcpProxy`: keeps one `StreamDeckDeviceHandler` per TCP
 * connection and a cache of the feedback it was given, so that a device
 * that (re)connects is redrawn from the cache.
 *
 * Handlers are named by the number of handlers created before them. The
 * calls the proxy makes on them are recorded in a ghost log, so what a
 * handler then does is the business of `StreamDeckHandler`, not of this
 * module. The connection manager is reduced to the target it was asked to
 * connect to and whether it was told to disconnect.
 */
module TcpProxy {
  import opened Wrappers
  import opened Feedback

  /** A call the proxy makes on one of its handlers. */
  datatype Call =
    | HandlerInit(handler: nat)
    | HandlerSetFeedback(handler: nat, triggerId: string, feedback: Option<Feedback>)
    | HandlerClearFeedbackAll(handler: nat)
    | HandlerDestroy(handler: nat)

  /** A handler is live once it has been initialised and until it is destroyed. */
  ghost predicate Live(calls: seq<Call>, h: nat) {
    HandlerInit(h) in calls && HandlerDestroy(h) !in calls
  }

  /**
   * The proxy's bookkeeping: every call names one of the first `created`
   * handlers, and a live handler can only be the current one.
   */
  ghost predicate Tracks(calls: seq<Call>, current: Option<nat>, created: nat) {
    (forall c :: c in calls ==> c.handler < created) &&
    (current.Some? ==> current.value < created) &&
    (forall h: nat :: Live(calls, h) ==> current == Some(h))
  }

  /** A forwarded call to a created handler neither creates nor destroys one. */
  lemma ForwardKeepsTrack(calls: seq<Call>, current: Option<nat>, created: nat, c: Call)
    requires Tracks(calls, current, created)
    requires (c.HandlerSetFeedback? || c.HandlerClearFeedbackAll?) && c.handler < created
    ensures Tracks(calls + [c], current, created)
  {
    forall h: nat | Live(calls + [c], h) ensures current == Some(h) {
      assert HandlerInit(h) in calls;
    }
  }

  /** The replay after a handler's `init`: one `setFeedback` per cache entry, in the order of `keys`. */
  function ReplayCalls(h: nat, keys: seq<string>, cache: map<string, Option<Feedback>>): seq<Call>
    requires forall k :: k in keys ==> k in cache
  {
    if keys == [] then []
    else ReplayCalls(h, keys[..|keys| - 1], cache) +
         [HandlerSetFeedback(h, keys[|keys| - 1], cache[keys[|keys| - 1]])]
  }

  /** What a replay holds: calls to `h` only, each one an entry of the cache, in key order. */
  lemma {:induction false} ReplayCallsShape(h: nat, keys: seq<string>, cache: map<string, Option<Feedback>>)
    requires forall k :: k in keys ==> k in cache
    ensures var r := ReplayCalls(h, keys, cache);
            |r| == |keys| &&
            forall i :: 0 <= i < |keys| ==> r[i] == HandlerSetFeedback(h, keys[i], cache[keys[i]])
  {
    if keys != [] {
      ReplayCallsShape(h, keys[..|keys| - 1], cache);
    }
  }

  /** A sequence without repetitions has as many elements as the set of its elements. */
  lemma {:induction false} DistinctCardinality<T>(s: seq<T>)
    requires Distinct(s)
    ensures |set x | x in s| == |s|
  {
    if s != [] {
      var init := s[..|s| - 1];
      DistinctCardinality(init);
      assert (set x | x in s) == (set x | x in init) + {s[|s| - 1]};
      assert s[|s| - 1] !in init;
    }
  }

  /**
   * A replay over an enumeration of the cache delivers every entry to the
   * handler exactly once, and nothing else.
   */
  lemma ReplayDeliversEveryEntry(h: nat, keys: seq<string>, cache: map<string, Option<Feedback>>)
    requires Distinct(keys) && forall k :: k in keys <==> k in cache
    ensures var r := ReplayCalls(h, keys, cache);
            |r| == |cache| &&
            (forall k :: k in cache ==> HandlerSetFeedback(h, k, cache[k]) in r) &&
            (forall c :: c in r ==> c.HandlerSetFeedback? && c.handler == h &&
                                    c.triggerId in cache && c.feedback == cache[c.triggerId]) &&
            Distinct(r)
  {
    var r := ReplayCalls(h, keys, cache);
    ReplayCallsShape(h, keys, cache);
    DistinctCardinality(keys);
    assert (set x | x in keys) == cache.Keys;
    forall k | k in cache ensures HandlerSetFeedback(h, k, cache[k]) in r {
      var i :| 0 <= i < |keys| && keys[i] == k;
      assert r[i] == HandlerSetFeedback(h, k, cache[k]);
    }
  }

  class StreamDeckTcpProxy {
    /** The configured address; `""` is an unset (falsy) one. */
    const ip: string
    const port: Option<int>

    /** The current handler, if any. */
    var streamdeck: Option<nat>
    var feedbackCache: map<string, Option<Feedback>>
    /** How many handlers have been created: the name of the next one. */
    var nextHandler: nat
    /** Whether `init` has registered the connection listeners. */
    var listening: bool
    /** The target passed to `connectTo`, once it has been called. */
    var connectedTo: Option<(string, Option<int>)>
    /** Whether `disconnectFromAll` has been called. */
    var disconnectedAll: bool

    ghost var calls: seq<Call>

    /**
     * Every call names a handler that was created; at most one handler is
     * live, and it is the current one.
     */
    ghost predicate Valid()
      reads this
    {
      Tracks(calls, streamdeck, nextHandler)
    }

    constructor (ip: string, port: Option<int>)
      ensures Valid()
      ensures this.ip == ip && this.port == port
      ensures streamdeck.None? && feedbackCache == map[] && nextHandler == 0
      ensures !listening && connectedTo.None? && !disconnectedAll && calls == []
    {
      this.ip := ip;
      this.port := port;
      streamdeck := None;
      feedbackCache := map[];
      nextHandler := 0;
      listening := false;
      connectedTo := None;
      disconnectedAll := false;
      calls := [];
    }

    /** Never two live handlers. */
    lemma AtMostOneLive(h1: nat, h2: nat)
      requires Valid() && Live(calls, h1) && Live(calls, h2)
      ensures h1 == h2
    {
    }

    /**
     * `init`: register the listeners, then fail without an address, or
     * ask the connection manager to connect.
     */
    method Init() returns (r: Outcome)
      requires Valid()
      modifies this
      ensures Valid() && listening
      ensures ip == "" ==> r == Fail("Stream Deck: No IP address provided in config") && connectedTo == old(connectedTo)
      ensures ip != "" ==> r == Pass && connectedTo == Some((ip, port))
      ensures streamdeck == old(streamdeck) && feedbackCache == old(feedbackCache)
      ensures nextHandler == old(nextHandler) && calls == old(calls) && disconnectedAll == old(disconnectedAll)
    {
      listening := true;
      if ip == "" {
        return Fail("Stream Deck: No IP address provided in config");
      }
      connectedTo := Some((ip, port));
      r := Pass;
    }

    /**
     * The `connected` listener. A device without controls, or a second
     * device while a handler exists, is ignored; otherwise a new handler
     * becomes current and is initialised.
     */
    method OnConnected(controlCount: nat)
      requires Valid() && listening
      modifies this
      ensures Valid()
      ensures controlCount == 0 || old(streamdeck).Some? ==>
                streamdeck == old(streamdeck) && nextHandler == old(nextHandler) && calls == old(calls)
      ensures controlCount > 0 && old(streamdeck).None? ==>
                streamdeck == Some(old(nextHandler)) && nextHandler == old(nextHandler) + 1 &&
                calls == old(calls) + [HandlerInit(old(nextHandler))]
      ensures feedbackCache == old(feedbackCache) && listening
      ensures connectedTo == old(connectedTo) && disconnectedAll == old(disconnectedAll)
    {
      if controlCount == 0 {
        return;
      }
      if streamdeck.Some? {
        return;
      }
      var h := nextHandler;
      streamdeck := Some(h);
      nextHandler := nextHandler + 1;
      calls := calls + [HandlerInit(h)];
    }

    /**
     * What follows a successful `init` of handler `h`: the cache, as it is
     * then, is replayed to `h`, the handler the callback captured, whether
     * or not it is still the current one.
     */
    method OnHandlerInitSucceeded(h: nat) returns (keys: seq<string>)
      requires Valid() && h < nextHandler
      modifies this
      ensures Valid()
      ensures Distinct(keys) && forall k :: k in keys <==> k in feedbackCache
      ensures calls == old(calls) + ReplayCalls(h, keys, feedbackCache)
      ensures streamdeck == old(streamdeck) && feedbackCache == old(feedbackCache) && nextHandler == old(nextHandler)
      ensures listening == old(listening) && connectedTo == old(connectedTo) && disconnectedAll == old(disconnectedAll)
    {
      keys := Enumerate(feedbackCache.Keys);
      for i := 0 to |keys|
        invariant calls == old(calls) + ReplayCalls(h, keys[..i], feedbackCache)
        invariant Valid()
        invariant streamdeck == old(streamdeck) && feedbackCache == old(feedbackCache) && nextHandler == old(nextHandler)
        invariant listening == old(listening) && connectedTo == old(connectedTo) && disconnectedAll == old(disconnectedAll)
      {
        assert keys[..i + 1][..i] == keys[..i];
        ForwardKeepsTrack(calls, streamdeck, nextHandler, HandlerSetFeedback(h, keys[i], feedbackCache[keys[i]]));
        calls := calls + [HandlerSetFeedback(h, keys[i], feedbackCache[keys[i]])];
      }
      assert keys[..|keys|] == keys;
    }

    /** The `disconnected` listener: destroy the current handler, if any, and forget it. */
    method OnDisconnected()
      requires Valid() && listening
      modifies this
      ensures Valid()
      ensures streamdeck.None?
      ensures calls == old(calls) + (if old(streamdeck).Some? then [HandlerDestroy(old(streamdeck).value)] else [])
      ensures feedbackCache == old(feedbackCache) && nextHandler == old(nextHandler) && listening
      ensures connectedTo == old(connectedTo) && disconnectedAll == old(disconnectedAll)
    {
      if streamdeck.Some? {
        calls := calls + [HandlerDestroy(streamdeck.value)];
      }
      streamdeck := None;
    }

    /** `destroy`: disconnect from everything and destroy the current handler, which stays current. */
    method Destroy()
      requires Valid()
      modifies this
      ensures Valid() && disconnectedAll
      ensures calls == old(calls) + (if streamdeck.Some? then [HandlerDestroy(streamdeck.value)] else [])
      ensures streamdeck == old(streamdeck) && feedbackCache == old(feedbackCache) && nextHandler == old(nextHandler)
      ensures listening == old(listening) && connectedTo == old(connectedTo)
    {
      disconnectedAll := true;
      if streamdeck.Some? {
        calls := calls + [HandlerDestroy(streamdeck.value)];
      }
    }

    /** `setFeedback`: always cache the feedback; forward it only to a current handler. */
    method SetFeedback(triggerId: string, fb: Option<Feedback>)
      requires Valid()
      modifies this
      ensures Valid()
      ensures feedbackCache == old(feedbackCache)[triggerId := fb]
      ensures calls == old(calls) + (if streamdeck.Some? then [HandlerSetFeedback(streamdeck.value, triggerId, fb)] else [])
      ensures streamdeck == old(streamdeck) && nextHandler == old(nextHandler)
      ensures listening == old(listening) && connectedTo == old(connectedTo) && disconnectedAll == old(disconnectedAll)
    {
      feedbackCache := feedbackCache[triggerId := fb];
      if streamdeck.Some? {
        ForwardKeepsTrack(calls, streamdeck, nextHandler, HandlerSetFeedback(streamdeck.value, triggerId, fb));
        calls := calls + [HandlerSetFeedback(streamdeck.value, triggerId, fb)];
      }
    }

    /** `clearFeedbackAll`: always empty the cache; forward the call only to a current handler. */
    method ClearFeedbackAll()
      requires Valid()
      modifies this
      ensures Valid()
      ensures feedbackCache == map[]
      ensures calls == old(calls) + (if streamdeck.Some? then [HandlerClearFeedbackAll(streamdeck.value)] else [])
      ensures streamdeck == old(streamdeck) && nextHandler == old(nextHandler)
      ensures listening == old(listening) && connectedTo == old(connectedTo) && disconnectedAll == old(disconnectedAll)
    {
      feedbackCache := map[];
      if streamdeck.Some? {
        ForwardKeepsTrack(calls, streamdeck, nextHandler, HandlerClearFeedbackAll(streamdeck.value));
        calls := calls + [HandlerClearFeedbackAll(streamdeck.value)];
      }
    }
  }
}
