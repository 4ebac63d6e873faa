/**
 * The observable singleton store: a Map-backed store with two event
 * channels, one published before and one after every write. A ghost log
 * records each publication: the event, the listener calls it made, and the
 * contents of the store while those listeners ran.
 */
module Observer {
  import opened Wrappers
  import opened Entities
  import opened Listener

  /** One publication on one of the two channels. */
  datatype Notification<L, P> =
    | BeforeSetPublished(before: BeforeSet<P>, beforeCalls: seq<Delivery<L, BeforeSet<P>>>, storageThen: map<string, Stored<P>>)
    | AfterSetPublished(after: AfterSet<P>, afterCalls: seq<Delivery<L, AfterSet<P>>>, storageThen: map<string, Stored<P>>)

  /**
   * The two publications of one `set` of `value` at `now` on a store holding
   * `m`, with `beforeLs` and `afterLs` subscribed: first the BeforeSet, seen
   * while the store still holds the old record, then the AfterSet, seen once
   * the stamped record is in place.
   */
  function SetNotifications<L, P>(m: map<string, Stored<P>>, value: Indexable<P>, now: int, beforeLs: seq<L>, afterLs: seq<L>)
    : seq<Notification<L, P>>
  {
    var existing := Lookup(m, value.id);
    var before := BeforeSet(existing, value);
    var after := AfterSet(existing, value, now);
    [BeforeSetPublished(before, Deliveries(beforeLs, before), m),
     AfterSetPublished(after, Deliveries(afterLs, after), m[value.id := Stamp(value, now)])]
  }

  /**
   * What one `set` publishes: first the BeforeSet, seen while the store still
   * holds the old record and carrying it as the existing value, then the
   * AfterSet with the same existing value and the write time, seen once the
   * stamped record is in place and every other id is untouched; each
   * publication calls every listener of its channel in order.
   */
  lemma SetNotificationsMeaning<L, P>(m: map<string, Stored<P>>, value: Indexable<P>, now: int, beforeLs: seq<L>, afterLs: seq<L>)
    ensures var ns := SetNotifications(m, value, now, beforeLs, afterLs);
      && |ns| == 2 && ns[0].BeforeSetPublished? && ns[1].AfterSetPublished?
      && ns[0].storageThen == m
      && ns[0].before.existingValue == Lookup(ns[0].storageThen, value.id)
      && ns[1].after.existingValue == ns[0].before.existingValue
      && ns[0].before.newValue == value && ns[1].after.newValue == value
      && ns[1].after.createdAt == now
      && Lookup(ns[1].storageThen, value.id) == Some(Stamp(value, ns[1].after.createdAt))
      && (forall id :: id != value.id ==> Lookup(ns[1].storageThen, id) == Lookup(m, id))
      && ns[0].beforeCalls == Deliveries(beforeLs, ns[0].before)
      && ns[1].afterCalls == Deliveries(afterLs, ns[1].after)
  {
  }

  /** The AfterSet events a listener token `l` was called with, in the order of the log. */
  ghost function AfterSetEventsTo<L, P>(log: seq<Notification<L, P>>, l: L): seq<AfterSet<P>>
  {
    if log == [] then []
    else (if log[0].AfterSetPublished? then EventsTo(log[0].afterCalls, l) else []) + AfterSetEventsTo(log[1..], l)
  }

  /** The events of the calls in `ds` that went to `l`. */
  ghost function EventsTo<L, E>(ds: seq<Delivery<L, E>>, l: L): seq<E>
  {
    if ds == [] then []
    else (if ds[0].listener == l then [ds[0].event] else []) + EventsTo(ds[1..], l)
  }

  /** Reading the events a listener received splits along the log. */
  lemma {:induction false} AfterSetEventsToAppend<L, P>(a: seq<Notification<L, P>>, b: seq<Notification<L, P>>, l: L)
    ensures AfterSetEventsTo(a + b, l) == AfterSetEventsTo(a, l) + AfterSetEventsTo(b, l)
  {
    if a == [] {
      assert a + b == b;
    } else {
      assert (a + b)[0] == a[0];
      assert (a + b)[1..] == a[1..] + b;
      AfterSetEventsToAppend(a[1..], b, l);
    }
  }

  /**
   * In one `set`, a listener subscribed to the after channel receives the
   * AfterSet event once for each time it is subscribed there, and one not
   * subscribed there receives nothing from it; a listener not subscribed to
   * the before channel receives nothing from the before channel.
   */
  lemma SetReachesAfterListeners<L, P>(m: map<string, Stored<P>>, value: Indexable<P>, now: int, beforeLs: seq<L>, afterLs: seq<L>, l: L)
    ensures |AfterSetEventsTo(SetNotifications(m, value, now, beforeLs, afterLs), l)| == multiset(afterLs)[l]
    ensures forall e :: e in AfterSetEventsTo(SetNotifications(m, value, now, beforeLs, afterLs), l) ==>
      e == AfterSet(Lookup(m, value.id), value, now)
    ensures l !in beforeLs ==> EventsTo(SetNotifications(m, value, now, beforeLs, afterLs)[0].beforeCalls, l) == []
  {
    var ns := SetNotifications(m, value, now, beforeLs, afterLs);
    EventsToDeliveries(beforeLs, ns[0].before, l);
    assert l !in beforeLs ==> multiset(beforeLs)[l] == 0;
    assert ns[1..][0] == ns[1] && ns[1..][1..] == [];
    assert AfterSetEventsTo(ns[1..], l) == EventsTo(ns[1].afterCalls, l) + AfterSetEventsTo([], l);
    assert AfterSetEventsTo(ns, l) == [] + AfterSetEventsTo(ns[1..], l);
    EventsToDeliveries(afterLs, ns[1].after, l);
  }

  /** Calling each of `ls` with `e`, the calls that reach `l` are as many as its occurrences in `ls`. */
  lemma {:induction false} EventsToDeliveries<L, E>(ls: seq<L>, e: E, l: L)
    ensures EventsTo(Deliveries(ls, e), l) == seq(multiset(ls)[l], _ => e)
  {
    if ls != [] {
      EventsToDeliveries(ls[1..], e, l);
      assert Deliveries(ls, e)[1..] == Deliveries(ls[1..], e);
      assert ls == [ls[0]] + ls[1..];
      assert multiset(ls) == multiset([ls[0]]) + multiset(ls[1..]);
    }
  }

  class RedisObservableDatabase<L(==), P> {
    /** The backing Map: id to stamped record. */
    var storage: map<string, Stored<P>>
    /** The channel published before every write. */
    const beforeAddListeners: Channel<L, BeforeSet<P>>
    /** The channel published after every write. */
    const afterAddListeners: Channel<L, AfterSet<P>>
    /** Every publication so far, in order. */
    ghost var log: seq<Notification<L, P>>

    /** The private constructor: an empty store with two empty channels. */
    constructor ()
      ensures storage == map[] && log == []
      ensures fresh(beforeAddListeners) && fresh(afterAddListeners)
      ensures beforeAddListeners.listeners == [] && afterAddListeners.listeners == []
    {
      storage := map[];
      log := [];
      beforeAddListeners := new Channel<L, BeforeSet<P>>();
      afterAddListeners := new Channel<L, AfterSet<P>>();
    }

    /**
     * Stamps `value` with `now`, reads the existing record, publishes
     * BeforeSet, writes the stamped record, publishes AfterSet and returns
     * the stamped record. The listener lists are not changed.
     */
    method Set(value: Indexable<P>, now: int) returns (r: Stored<P>)
      modifies this
      ensures r == Stamp(value, now)
      ensures storage == old(storage)[value.id := r]
      ensures log == old(log) + SetNotifications(old(storage), value, now, beforeAddListeners.listeners, afterAddListeners.listeners)
    {
      var storable := Stamp(value, now);
      var beforeValue := Get(value.id);
      var beforeEvent := BeforeSet(beforeValue, value);
      var beforeCalls := beforeAddListeners.Publish(beforeEvent);
      log := log + [BeforeSetPublished(beforeEvent, beforeCalls, storage)];
      storage := storage[value.id := storable];
      var afterEvent := AfterSet(beforeValue, value, now);
      var afterCalls := afterAddListeners.Publish(afterEvent);
      log := log + [AfterSetPublished(afterEvent, afterCalls, storage)];
      r := storable;
    }

    /** The record under `id`, or absence; publishes nothing and changes nothing. */
    method Get(id: string) returns (r: Option<Stored<P>>)
      ensures r.Some? <==> id in storage
      ensures r.Some? ==> r.value == storage[id]
    {
      r := if id in storage then Some(storage[id]) else None;
    }

    /** Subscribes `l` to the before channel only. */
    method OnBeforeSet(l: L) returns (u: Unsubscriber<L, BeforeSet<P>>)
      modifies beforeAddListeners
      ensures beforeAddListeners.listeners == old(beforeAddListeners.listeners) + [l]
      ensures afterAddListeners.listeners == old(afterAddListeners.listeners)
      ensures u.channel == beforeAddListeners && u.listener == l
    {
      u := beforeAddListeners.Subscribe(l);
    }

    /** Subscribes `l` to the after channel only. */
    method OnAfterSet(l: L) returns (u: Unsubscriber<L, AfterSet<P>>)
      modifies afterAddListeners
      ensures afterAddListeners.listeners == old(afterAddListeners.listeners) + [l]
      ensures beforeAddListeners.listeners == old(beforeAddListeners.listeners)
      ensures u.channel == afterAddListeners && u.listener == l
    {
      u := afterAddListeners.Subscribe(l);
    }
  }

  /** The class object a factory call returns; `instance` is its static field. */
  class SingletonObservableDatabaseClass<L(==), P> {
    const instance: RedisObservableDatabase<L, P>

    /** Defining the class builds its one instance, empty and with no listeners. */
    constructor ()
      ensures fresh(instance) && fresh(instance.beforeAddListeners) && fresh(instance.afterAddListeners)
      ensures instance.storage == map[] && instance.log == []
      ensures instance.beforeAddListeners.listeners == [] && instance.afterAddListeners.listeners == []
    {
      instance := new RedisObservableDatabase<L, P>();
    }
  }

  /** `createSingletonObservableDatabase`: a new class with its own, empty instance. */
  method CreateSingletonObservableDatabase<L(==), P>() returns (cls: SingletonObservableDatabaseClass<L, P>)
    ensures fresh(cls) && fresh(cls.instance) && fresh(cls.instance.beforeAddListeners) && fresh(cls.instance.afterAddListeners)
    ensures cls.instance.storage == map[] && cls.instance.log == []
    ensures cls.instance.beforeAddListeners.listeners == [] && cls.instance.afterAddListeners.listeners == []
  {
    cls := new SingletonObservableDatabaseClass<L, P>();
  }

  /**
   * What the demo's listener receives from three sets of one id, subscribed
   * to the after channel for the first two only.
   */
  lemma ThreeSetsReachListener<L, P>(l: L, v1: Indexable<P>, v2: Indexable<P>, v3: Indexable<P>, t1: int, t2: int, t3: int)
    requires v1.id == v2.id == v3.id
    ensures var n1 := SetNotifications(map[], v1, t1, [], [l]);
      var n2 := SetNotifications(map[v1.id := Stamp(v1, t1)], v2, t2, [], [l]);
      var n3 := SetNotifications(map[v1.id := Stamp(v2, t2)], v3, t3, [], []);
      AfterSetEventsTo(n1 + n2 + n3, l) == [AfterSet(None, v1, t1), AfterSet(Some(Stamp(v1, t1)), v2, t2)]
  {
    var m1 := map[v1.id := Stamp(v1, t1)];
    var m2 := map[v1.id := Stamp(v2, t2)];
    var n1 := SetNotifications(map[], v1, t1, [], [l]);
    var n2 := SetNotifications(m1, v2, t2, [], [l]);
    var n3 := SetNotifications(m2, v3, t3, [], []);
    SetReachesAfterListeners(map[], v1, t1, [], [l], l);
    SetReachesAfterListeners(m1, v2, t2, [], [l], l);
    SetReachesAfterListeners(m2, v3, t3, [], [], l);
    assert multiset([l])[l] == 1;
    AfterSetEventsToAppend(n1 + n2, n3, l);
    AfterSetEventsToAppend(n1, n2, l);
  }

  /**
   * The demo's AfterSet listener: subscribed, two sets of one id, the handle
   * called, a third set. The listener sees the first two sets (the second
   * with the first record as existing value) and not the third.
   */
  method AfterSetUnsubscribeScenario<L(==), P>(l: L, v1: Indexable<P>, v2: Indexable<P>, v3: Indexable<P>, t1: int, t2: int, t3: int)
    returns (db: RedisObservableDatabase<L, P>, latest: Option<Stored<P>>)
    requires v1.id == v2.id == v3.id
    ensures AfterSetEventsTo(db.log, l) == [AfterSet(None, v1, t1), AfterSet(Some(Stamp(v1, t1)), v2, t2)]
    ensures latest == Some(Stamp(v3, t3))
  {
    var cls := CreateSingletonObservableDatabase<L, P>();
    db := cls.instance;
    var unsubscribe := db.OnAfterSet(l);
    assert db.afterAddListeners.listeners == [l] && db.beforeAddListeners.listeners == [];
    var r1 := db.Set(v1, t1);
    ghost var n1 := SetNotifications(map[], v1, t1, [], [l]);
    assert db.log == n1 && db.storage == map[v1.id := r1];
    var r2 := db.Set(v2, t2);
    ghost var n2 := SetNotifications(map[v1.id := r1], v2, t2, [], [l]);
    assert db.storage == map[v1.id := r2];
    assert db.log == n1 + n2;
    Unsubscribe(unsubscribe);
    assert db.afterAddListeners.listeners == [];
    var r3 := db.Set(v3, t3);
    ghost var n3 := SetNotifications(map[v1.id := r2], v3, t3, [], []);
    assert db.log == n1 + n2 + n3;
    latest := db.Get(v3.id);
    ThreeSetsReachListener(l, v1, v2, v3, t1, t2, t3);
  }
}
