/**
 * The global loading indicator of inspection_front
 * (inspection_front/src/api/api.js): module-level flags, a list of subscriber
 * callbacks, and the request and response interceptors that set and reset
 * the flags, start and clear a cold-start timer, and notify every subscriber.
 * Callbacks are known by an identity; timers by a number.
 */
module LoadingBus {
  import opened Wrappers
  import opened Collections

  datatype LoadingState = LoadingState(isLoading: bool, isColdStarting: bool, loadingMessage: string)

  const ColdStartMessage: string := "서버 시작 중입니다. 잠시만 기다려 주세요... (예상 소요 시간: 약 10~30초)"

  /** A subscriber, known by its identity. */
  type Callback = nat

  /** One call `callback({ isLoading, isColdStarting, loadingMessage })`. */
  datatype Delivery = Delivery(callback: Callback, state: LoadingState)

  /** The calls one notification makes: each subscriber in order, all with the same state. */
  function Deliveries(callbacks: seq<Callback>, s: LoadingState): (ds: seq<Delivery>)
    ensures |ds| == |callbacks|
    ensures forall i :: 0 <= i < |callbacks| ==> ds[i] == Delivery(callbacks[i], s)
  {
    seq(|callbacks|, i requires 0 <= i < |callbacks| => Delivery(callbacks[i], s))
  }

  /** `` `Bearer ${token}` `` when a non-empty token is stored, no header otherwise. */
  function AuthorizationHeader(token: Option<string>): (h: Option<string>)
    ensures h.Some? <==> token.Some? && token.value != ""
    ensures h.Some? ==> h.value == "Bearer " + token.value && h.value[7..] == token.value
  {
    if token.Some? && token.value != "" then Some("Bearer " + token.value) else None
  }

  class Bus {
    var isLoading: bool
    var isColdStarting: bool
    var loadingMessage: string
    var callbacks: seq<Callback>
    /** `coldStartTimer`: the last timer started. */
    var coldStartTimer: Option<nat>
    /** The timers started and neither fired nor cleared. */
    var running: set<nat>
    var nextTimer: nat
    /** Every callback invocation so far, in order. */
    var delivered: seq<Delivery>

    function State(): LoadingState
      reads this
    {
      LoadingState(isLoading, isColdStarting, loadingMessage)
    }

    constructor()
      ensures State() == LoadingState(false, false, "")
      ensures callbacks == [] && coldStartTimer.None? && running == {} && delivered == []
    {
      isLoading := false;
      isColdStarting := false;
      loadingMessage := "";
      callbacks := [];
      coldStartTimer := None;
      running := {};
      nextTimer := 0;
      delivered := [];
    }

    /** `subscribeToLoading(callback)`: the callback goes last. */
    method Subscribe(callback: Callback)
      modifies this
      ensures callbacks == old(callbacks) + [callback]
      ensures State() == old(State()) && delivered == old(delivered)
      ensures coldStartTimer == old(coldStartTimer) && running == old(running) && nextTimer == old(nextTimer)
    {
      callbacks := callbacks + [callback];
    }

    /** The function `subscribeToLoading` returns: every entry of that callback goes, the others stay in order. */
    method Unsubscribe(callback: Callback)
      modifies this
      ensures callbacks == Filter(old(callbacks), c => c != callback)
      ensures forall c :: c in callbacks <==> c in old(callbacks) && c != callback
      ensures State() == old(State()) && delivered == old(delivered)
      ensures coldStartTimer == old(coldStartTimer) && running == old(running) && nextTimer == old(nextTimer)
    {
      forall c {
        FilterMembership(callbacks, x => x != callback, c);
      }
      callbacks := Filter(callbacks, c => c != callback);
    }

    /** `notifyLoadingChange()`: `forEach` over the subscribers. */
    method Notify()
      modifies this
      ensures delivered == old(delivered) + Deliveries(callbacks, State())
      ensures State() == old(State()) && callbacks == old(callbacks)
      ensures coldStartTimer == old(coldStartTimer) && running == old(running) && nextTimer == old(nextTimer)
    {
      var i := 0;
      while i < |callbacks|
        invariant 0 <= i <= |callbacks|
        invariant delivered == old(delivered) + Deliveries(callbacks[..i], State())
        invariant State() == old(State()) && callbacks == old(callbacks)
        invariant coldStartTimer == old(coldStartTimer) && running == old(running) && nextTimer == old(nextTimer)
      {
        assert Deliveries(callbacks[..i + 1], State()) == Deliveries(callbacks[..i], State()) + [Delivery(callbacks[i], State())];
        delivered := delivered + [Delivery(callbacks[i], State())];
        i := i + 1;
      }
      assert callbacks[..i] == callbacks;
    }

    /**
     * The request interceptor: loading on, message cleared, subscribers told,
     * a new cold-start timer started (the previous one is not cleared), and the
     * Authorization header set when a token is stored.
     */
    method OnRequest(token: Option<string>) returns (authorization: Option<string>)
      modifies this
      ensures State() == LoadingState(true, old(isColdStarting), "")
      ensures delivered == old(delivered) + Deliveries(callbacks, State()) && callbacks == old(callbacks)
      ensures coldStartTimer == Some(old(nextTimer)) && running == old(running) + {old(nextTimer)}
      ensures nextTimer == old(nextTimer) + 1
      ensures authorization == AuthorizationHeader(token)
    {
      isLoading := true;
      loadingMessage := "";
      Notify();
      coldStartTimer := Some(nextTimer);
      running := running + {nextTimer};
      nextTimer := nextTimer + 1;
      authorization := AuthorizationHeader(token);
    }

    /** A running cold-start timer fires: the cold-start flag and message are set and subscribers told. */
    method ColdStartFires(timer: nat)
      modifies this
      ensures timer !in old(running) ==> State() == old(State()) && delivered == old(delivered) && running == old(running)
      ensures timer in old(running) ==>
        State() == LoadingState(old(isLoading), true, ColdStartMessage)
        && delivered == old(delivered) + Deliveries(callbacks, State())
        && running == old(running) - {timer}
      ensures callbacks == old(callbacks) && coldStartTimer == old(coldStartTimer) && nextTimer == old(nextTimer)
    {
      if timer in running {
        running := running - {timer};
        isColdStarting := true;
        loadingMessage := ColdStartMessage;
        Notify();
      }
    }

    /**
     * The response interceptor, on success or error alike (the request-error
     * handler does the same): all three flags reset, the last timer cleared,
     * subscribers told.
     */
    method Settle()
      modifies this
      ensures State() == LoadingState(false, false, "")
      ensures delivered == old(delivered) + Deliveries(callbacks, State()) && callbacks == old(callbacks)
      ensures running == if old(coldStartTimer).Some? then old(running) - {old(coldStartTimer).value} else old(running)
      ensures coldStartTimer == old(coldStartTimer) && nextTimer == old(nextTimer)
    {
      isLoading := false;
      isColdStarting := false;
      loadingMessage := "";
      if coldStartTimer.Some? {
        running := running - {coldStartTimer.value};
      }
      Notify();
    }
  }
}
