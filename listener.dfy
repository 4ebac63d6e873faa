/**
 * The event channel: a mutable list of listeners, a subscribe operation that
 * appends and hands back an unsubscribe handle, and a publish operation that
 * calls every listener in order. Listeners are opaque tokens compared by
 * equality; calling a listener is recorded as a `Delivery` in the trace that
 * `Publish` returns.
 */
module Listener {
  import opened Wrappers
  import opened Entities

  /** One call of `listener` with `event`. */
  datatype Delivery<L, E> = Delivery(listener: L, event: E)

  /** Payload published before a record is written. */
  datatype BeforeSet<P> = BeforeSet(existingValue: Option<Stored<P>>, newValue: Indexable<P>)

  /** Payload published after a record is written; `createdAt` is the write time. */
  datatype AfterSet<P> = AfterSet(existingValue: Option<Stored<P>>, newValue: Indexable<P>, createdAt: int)

  /** Declared payload of a delete hook; no store publishes it. */
  datatype BeforeDelete<P> = BeforeDelete(existingValue: Option<Stored<P>>)

  /** Declared payload of a delete hook; no store publishes it. */
  datatype AfterDelete<P> = AfterDelete(existingValue: Stored<P>, deletedAt: int)

  /** The listener list with every entry equal to `x` filtered out. */
  function Without<L(==)>(ls: seq<L>, x: L): (r: seq<L>)
    ensures |r| <= |ls|
    ensures forall y :: y in r ==> y in ls && y != x
    ensures forall y :: y in ls && y != x ==> y in r
  {
    if ls == [] then []
    else if ls[0] == x then Without(ls[1..], x)
    else [ls[0]] + Without(ls[1..], x)
  }

  /** The trace of calling each of `ls`, in order, with `event`. */
  function Deliveries<L, E>(ls: seq<L>, event: E): seq<Delivery<L, E>>
  {
    seq(|ls|, i requires 0 <= i < |ls| => Delivery(ls[i], event))
  }

  class Channel<L(==), E> {
    /** The subscribed listeners, in subscription order; a listener may occur more than once. */
    var listeners: seq<L>

    /** A fresh channel has no listeners. */
    constructor ()
      ensures listeners == []
    {
      listeners := [];
    }

    /** Appends `l` and returns the handle that unsubscribes it. */
    method Subscribe(l: L) returns (u: Unsubscriber<L, E>)
      modifies this
      ensures listeners == old(listeners) + [l]
      ensures u.channel == this && u.listener == l
    {
      listeners := listeners + [l];
      u := Unsubscriber(this, l);
    }

    /** Calls every listener once, in subscription order, with `event`; the list is not changed. */
    method Publish(event: E) returns (trace: seq<Delivery<L, E>>)
      ensures |trace| == |listeners|
      ensures forall i :: 0 <= i < |trace| ==> trace[i] == Delivery(listeners[i], event)
      ensures trace == Deliveries(listeners, event)
    {
      trace := [];
      var i := 0;
      while i < |listeners|
        invariant 0 <= i <= |listeners|
        invariant |trace| == i
        invariant forall k :: 0 <= k < i ==> trace[k] == Delivery(listeners[k], event)
      {
        trace := trace + [Delivery(listeners[i], event)];
        i := i + 1;
      }
    }
  }

  /** The closure `subscribe` returns: it captures the channel and the subscribed listener. */
  datatype Unsubscriber<L(==), E> = Unsubscriber(channel: Channel<L, E>, listener: L)

  /** Calling the handle: the channel's list is reassigned to the list without that listener. */
  method Unsubscribe<L(==), E>(u: Unsubscriber<L, E>)
    modifies u.channel
    ensures u.channel.listeners == Without(old(u.channel.listeners), u.listener)
  {
    u.channel.listeners := Without(u.channel.listeners, u.listener);
  }

  /** Filtering distributes over concatenation, so the other entries keep their relative order. */
  lemma {:induction false} WithoutAppend<L>(a: seq<L>, b: seq<L>, x: L)
    ensures Without(a + b, x) == Without(a, x) + Without(b, x)
  {
    if a == [] {
      assert a + b == b;
    } else {
      assert (a + b)[1..] == a[1..] + b;
      WithoutAppend(a[1..], b, x);
    }
  }

  /** Filtering out a listener that is not subscribed leaves the list as it is. */
  lemma {:induction false} WithoutAbsent<L>(ls: seq<L>, x: L)
    requires x !in ls
    ensures Without(ls, x) == ls
  {
    if ls != [] {
      WithoutAbsent(ls[1..], x);
    }
  }

  /** Every entry other than `x` keeps its number of occurrences; `x` has none left. */
  lemma {:induction false} WithoutCounts<L>(ls: seq<L>, x: L, y: L)
    ensures multiset(Without(ls, x))[y] == if y == x then 0 else multiset(ls)[y]
  {
    if ls != [] {
      WithoutCounts(ls[1..], x, y);
      assert ls == [ls[0]] + ls[1..];
      assert multiset(ls) == multiset([ls[0]]) + multiset(ls[1..]);
    }
  }

  /** Calling an unsubscribe handle a second time changes nothing. */
  lemma WithoutIdempotent<L>(ls: seq<L>, x: L)
    ensures Without(Without(ls, x), x) == Without(ls, x)
  {
    WithoutAbsent(Without(ls, x), x);
  }

  /** Subscribing after an unsubscription: the new entry goes to the end of the filtered list. */
  lemma SubscribeAfterUnsubscribe<L>(ls: seq<L>, x: L, y: L)
    ensures y != x ==> Without(ls + [y], x) == Without(ls, x) + [y]
    ensures Without(ls + [x], x) == Without(ls, x)
  {
    WithoutAppend(ls, [y], x);
    WithoutAppend(ls, [x], x);
    assert Without([y], x) == if y == x then [] else [y];
    assert Without([x], x) == [];
  }

  /**
   * After `x` is unsubscribed a publish never reaches it, while every other
   * subscribed listener still receives the event, as often as before.
   */
  lemma UnsubscribedNotReached<L, E>(ls: seq<L>, x: L, y: L, event: E)
    ensures Delivery(x, event) !in Deliveries(Without(ls, x), event)
    ensures y != x ==> (Delivery(y, event) in Deliveries(Without(ls, x), event) <==> y in ls)
    ensures y != x ==> multiset(Without(ls, x))[y] == multiset(ls)[y]
  {
    var r := Without(ls, x);
    var ds := Deliveries(r, event);
    forall z: L
      ensures Delivery(z, event) in ds <==> z in r
    {
      if z in r {
        var k :| 0 <= k < |r| && r[k] == z;
        assert ds[k] == Delivery(z, event);
      }
    }
    WithoutCounts(ls, x, y);
  }

  /** Runner-style use: two listeners, the first unsubscribed twice, then one publish. */
  method UnsubscribeScenario<L(==), E>(a: L, b: L, event: E) returns (silent: seq<Delivery<L, E>>, trace: seq<Delivery<L, E>>)
    requires a != b
    ensures silent == []
    ensures trace == [Delivery(b, event)]
  {
    var channel := new Channel<L, E>();
    silent := channel.Publish(event);
    var ua := channel.Subscribe(a);
    var ub := channel.Subscribe(b);
    Unsubscribe(ua);
    Unsubscribe(ua);
    assert channel.listeners == [b];
    trace := channel.Publish(event);
  }
}
