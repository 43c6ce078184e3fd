/**
 * The in-process event loopback that stands in for the server
 * (services/mockSocketService.ts): a map from event name to the ordered list
 * of handlers registered for it.
 *
 * Handlers are JavaScript closures compared by reference; here they are
 * opaque ids. Calling a handler is modelled as a `Delivery` record: the
 * ordered list of deliveries is what `broadcast` hands to the handlers.
 */
module Socket {

  type HandlerId = nat

  type Listeners = map<string, seq<HandlerId>>

  /** One call `cb(data)` made by `broadcast`. */
  datatype Delivery<D> = Delivery(handler: HandlerId, data: D)

  /** The handlers registered for `event`; an event without an entry has none. */
  function HandlersOf(m: Listeners, event: string): seq<HandlerId>
  {
    if event in m then m[event] else []
  }

  /** `callbacks.filter(cb => cb !== callback)`: every occurrence of `cb` goes, the rest keep their order. */
  function Without(hs: seq<HandlerId>, cb: HandlerId): (r: seq<HandlerId>)
    ensures cb !in r
    ensures |r| <= |hs|
    ensures forall x :: x in r ==> x in hs
    ensures forall x :: x != cb ==> multiset(r)[x] == multiset(hs)[x]
  {
    if hs == [] then []
    else
      assert hs == [hs[0]] + hs[1..];
      if hs[0] == cb then Without(hs[1..], cb) else [hs[0]] + Without(hs[1..], cb)
  }

  /** The listener map after `on(event, cb)`. */
  function Subscribe(m: Listeners, event: string, cb: HandlerId): (r: Listeners)
    ensures r.Keys == m.Keys + {event}
    ensures HandlersOf(r, event) == HandlersOf(m, event) + [cb]
    ensures forall e :: e != event ==> HandlersOf(r, e) == HandlersOf(m, e)
  {
    m[event := HandlersOf(m, event) + [cb]]
  }

  /** The listener map after `off(event, cb)`; an event without an entry is left alone. */
  function Unsubscribe(m: Listeners, event: string, cb: HandlerId): (r: Listeners)
    ensures r.Keys == m.Keys
    ensures cb !in HandlersOf(r, event)
    ensures HandlersOf(r, event) == Without(HandlersOf(m, event), cb)
    ensures forall e :: e != event ==> e in m ==> r[e] == m[e]
    ensures event !in m ==> r == m
  {
    if event in m then m[event := Without(m[event], cb)] else m
  }

  /** Filtering a handler that is not registered changes nothing. */
  lemma {:induction false} WithoutAbsent(hs: seq<HandlerId>, cb: HandlerId)
    requires cb !in hs
    ensures Without(hs, cb) == hs
  {
    if hs != [] {
      WithoutAbsent(hs[1..], cb);
    }
  }

  /** Filtering is done element by element, so it keeps the relative order of what remains. */
  lemma {:induction false} WithoutAppend(a: seq<HandlerId>, b: seq<HandlerId>, cb: HandlerId)
    ensures Without(a + b, cb) == Without(a, cb) + Without(b, cb)
  {
    if a == [] {
      assert a + b == b;
    } else {
      assert (a + b)[1..] == a[1..] + b;
      WithoutAppend(a[1..], b, cb);
    }
  }

  /** Removing a handler twice is the same as removing it once. */
  lemma WithoutIdempotent(hs: seq<HandlerId>, cb: HandlerId)
    ensures Without(Without(hs, cb), cb) == Without(hs, cb)
  {
    WithoutAbsent(Without(hs, cb), cb);
  }

  /** `on` does not deduplicate: registering `cb` twice adds two occurrences. */
  lemma SubscribeTwiceCountsTwice(m: Listeners, event: string, cb: HandlerId)
    ensures multiset(HandlersOf(Subscribe(Subscribe(m, event, cb), event, cb), event))[cb]
            == multiset(HandlersOf(m, event))[cb] + 2
  {
  }

  /**
   * `on` then `off` with a handler that was not registered restores the
   * handler list of `event`; a missing entry becomes an empty list.
   */
  lemma SubscribeUnsubscribeRestores(m: Listeners, event: string, cb: HandlerId)
    requires cb !in HandlersOf(m, event)
    ensures HandlersOf(Unsubscribe(Subscribe(m, event, cb), event, cb), event) == HandlersOf(m, event)
    ensures Unsubscribe(Subscribe(m, event, cb), event, cb) == m[event := HandlersOf(m, event)]
  {
    var hs := HandlersOf(m, event);
    WithoutAppend(hs, [cb], cb);
    WithoutAbsent(hs, cb);
    assert Without([cb], cb) == [];
  }

  /** The loopback socket, with its private listener map. */
  class MockSocketService<D> {
    var listeners: Listeners

    constructor ()
      ensures listeners == map[]
    {
      listeners := map[];
    }

    /** Registers `cb` at the end of the handler list of `event`, creating the list if needed. */
    method On(event: string, cb: HandlerId)
      modifies this
      ensures listeners == Subscribe(old(listeners), event, cb)
    {
      if event !in listeners {
        listeners := listeners[event := []];
      }
      listeners := listeners[event := listeners[event] + [cb]];
    }

    /** Removes every registration of `cb` for `event`, if `event` has an entry. */
    method Off(event: string, cb: HandlerId)
      modifies this
      ensures listeners == Unsubscribe(old(listeners), event, cb)
    {
      if event in listeners {
        var callbacks := listeners[event];
        listeners := listeners[event := Without(callbacks, cb)];
      }
    }

    /** Calls every handler of `event` with `data`, once per registration, in registration order. */
    method Broadcast(event: string, data: D) returns (calls: seq<Delivery<D>>)
      ensures |calls| == |HandlersOf(listeners, event)|
      ensures forall i :: 0 <= i < |calls| ==> calls[i] == Delivery(HandlersOf(listeners, event)[i], data)
    {
      calls := [];
      if event in listeners {
        var callbacks := listeners[event];
        var i := 0;
        while i < |callbacks|
          invariant 0 <= i <= |callbacks|
          invariant |calls| == i
          invariant forall k :: 0 <= k < i ==> calls[k] == Delivery(callbacks[k], data)
        {
          calls := calls + [Delivery(callbacks[i], data)];
          i := i + 1;
        }
      }
    }

    /**
     * Hands `event` and `data` to `Broadcast` unchanged: no validation, no
     * transformation, and the sender's own handlers are called too. The
     * 50 ms delay of the source is not modelled.
     */
    method Emit(event: string, data: D) returns (calls: seq<Delivery<D>>)
      ensures |calls| == |HandlersOf(listeners, event)|
      ensures forall i :: 0 <= i < |calls| ==> calls[i].handler == HandlersOf(listeners, event)[i]
      ensures forall i :: 0 <= i < |calls| ==> calls[i].data == data
    {
      calls := Broadcast(event, data);
    }
  }
}
