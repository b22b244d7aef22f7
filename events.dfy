/**
 * The in-process event bus: fire-and-forget events with any number of
 * listeners, and request/response channels with at most one handler each.
 *
 * Callbacks are identified by opaque ids (a JavaScript callback's identity is
 * its reference). Invoking a callback is recorded as a `Delivery` or an
 * `Invocation` value instead of being run; the closures that `on` and `handle`
 * return are the values `Subscription` and `Registration`, which the methods
 * `Unsubscribe` and `Unregister` apply.
 */
module Events {
  import opened Wrappers
  import opened OrderedSets

  type EventName = string

  /** Identity of a listener callback passed to `on`. */
  type ListenerId = nat

  /** Identity of a request handler passed to `handle`. */
  type HandlerId = nat

  /** One call `listener(payload)` made by `emit`. */
  datatype Delivery<P> = Delivery(listener: ListenerId, payload: P)

  /** The one call `handler(payload)` made by `request`; its result is the request's result. */
  datatype Invocation<P> = Invocation(handler: HandlerId, payload: P)

  /** The unsubscribe closure returned by `on`: it captures the event and the listener. */
  datatype Subscription = Subscription(event: EventName, listener: ListenerId)

  /** The unregister closure returned by `handle`: it captures the event name only. */
  datatype Registration = Registration(event: EventName)

  datatype BusError =
    | HandlerNotFound(event: EventName)   // "No handler registered for: <event>"
    | HandlerConflict(event: EventName)   // "Handler already registered for: <event>"

  /** The calls that delivering `p` to the listeners `subs` makes, in order. */
  function Deliveries<P>(subs: seq<ListenerId>, p: P): (trace: seq<Delivery<P>>)
    ensures |trace| == |subs|
    ensures forall i :: 0 <= i < |subs| ==> trace[i] == Delivery(subs[i], p)
  {
    if subs == [] then [] else [Delivery(subs[0], p)] + Deliveries(subs[1..], p)
  }

  /** Delivering to a duplicate-free listener set calls each listener exactly once. */
  lemma DeliveriesOnce<P>(subs: seq<ListenerId>, p: P)
    requires NoDup(subs)
    ensures forall i, j :: 0 <= i < j < |subs| ==> Deliveries(subs, p)[i].listener != Deliveries(subs, p)[j].listener
  {
    NoDupDistinct(subs);
  }

  class EventBus {
    /** Event name to its listener set, in subscription order. */
    var listeners: map<EventName, seq<ListenerId>>
    /** Event name to its single request handler. */
    var handlers: map<EventName, HandlerId>

    /** Each listener set holds a callback at most once. */
    ghost predicate Valid()
      reads this
    {
      forall e :: e in listeners ==> NoDup(listeners[e])
    }

    /** The listeners of `e`; an event never subscribed to has none. */
    function Subscribers(e: EventName): seq<ListenerId>
      reads this
    {
      if e in listeners then listeners[e] else []
    }

    constructor ()
      ensures Valid()
      ensures listeners == map[] && handlers == map[]
    {
      listeners := map[];
      handlers := map[];
    }

    /**
     * `emit`: calls every listener currently subscribed to `e`, once each, in
     * subscription order, all with the same payload. With no listener it does
     * nothing. It changes neither map (it has no `modifies` clause).
     */
    method Emit<P>(e: EventName, p: P) returns (trace: seq<Delivery<P>>)
      requires Valid()
      ensures trace == Deliveries(Subscribers(e), p)
      ensures e !in listeners ==> trace == []
    {
      trace := [];
      if e in listeners {
        var subs := listeners[e];
        var i := 0;
        while i < |subs|
          invariant i <= |subs|
          invariant trace == Deliveries(subs[..i], p)
        {
          trace := trace + [Delivery(subs[i], p)];
          i := i + 1;
        }
        assert subs[..i] == subs;
      }
    }

    /**
     * `on`: adds `h` to the listener set of `e`, creating the set when `e` has
     * none. Adding a listener already present changes nothing. Returns the
     * unsubscribe closure.
     */
    method On(e: EventName, h: ListenerId) returns (sub: Subscription)
      requires Valid()
      modifies this
      ensures Valid()
      ensures listeners == old(listeners)[e := Insert(old(Subscribers(e)), h)]
      ensures handlers == old(handlers)
      ensures sub == Subscription(e, h)
    {
      if e !in listeners {
        listeners := listeners[e := []];
      }
      InsertNoDup(listeners[e], h);
      listeners := listeners[e := Insert(listeners[e], h)];
      sub := Subscription(e, h);
    }

    /**
     * The closure returned by `on(e, h)`: deletes `h` from the set of `e` if
     * that set exists. Every other listener of `e`, and every other event's
     * listeners, are unchanged; calling it again is a no-op.
     */
    method Unsubscribe(sub: Subscription)
      requires Valid()
      modifies this
      ensures Valid()
      ensures sub.event in old(listeners) ==>
        listeners == old(listeners)[sub.event := Delete(old(listeners)[sub.event], sub.listener)]
      ensures sub.event !in old(listeners) ==> listeners == old(listeners)
      ensures sub.listener !in Subscribers(sub.event)
      ensures handlers == old(handlers)
    {
      if sub.event in listeners {
        DeleteNoDup(listeners[sub.event], sub.listener);
        listeners := listeners[sub.event := Delete(listeners[sub.event], sub.listener)];
      }
    }

    /**
     * `request`: fails with HandlerNotFound when `e` has no handler; otherwise
     * calls exactly that handler, once, with the payload. Listeners are not
     * involved and neither map changes.
     */
    method Request<P>(e: EventName, p: P) returns (r: Result<Invocation<P>, BusError>)
      ensures r.Err? <==> e !in handlers
      ensures r.Err? ==> r.error == HandlerNotFound(e)
      ensures r.Ok? ==> r.value.handler == handlers[e] && r.value.payload == p
    {
      if e !in handlers {
        return Err(HandlerNotFound(e));
      }
      r := Ok(Invocation(handlers[e], p));
    }

    /**
     * `handle`: fails with HandlerConflict, changing nothing, when `e` already
     * has a handler; otherwise makes `h` the handler of `e` and returns the
     * unregister closure.
     */
    method Handle(e: EventName, h: HandlerId) returns (r: Result<Registration, BusError>)
      requires Valid()
      modifies this
      ensures Valid()
      ensures r.Err? <==> e in old(handlers)
      ensures r.Err? ==> r.error == HandlerConflict(e) && handlers == old(handlers)
      ensures r.Ok? ==> r.value == Registration(e) && handlers == old(handlers)[e := h]
      ensures listeners == old(listeners)
    {
      if e in handlers {
        return Err(HandlerConflict(e));
      }
      handlers := handlers[e := h];
      r := Ok(Registration(e));
    }

    /**
     * The closure returned by `handle(e, h)`: deletes the handler entry of `e`
     * by name, whichever handler it holds now, so `e` can be handled again.
     */
    method Unregister(reg: Registration)
      requires Valid()
      modifies this
      ensures Valid()
      ensures handlers == old(handlers) - {reg.event}
      ensures listeners == old(listeners)
    {
      handlers := handlers - {reg.event};
    }
  }
}
