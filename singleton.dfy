/**
 * The singleton factory: each call defines a new Map-backed store class
 * whose static `instance` is built once, when the class is defined, behind a
 * private constructor. The class object is modelled as `SingletonDatabaseClass`,
 * whose constant `instance` field is that one store.
 */
module Singleton {
  import opened Wrappers
  import opened Entities

  class RedisLiteDatabase<P> {
    /** The backing Map: id to stamped record. */
    var storage: map<string, Stored<P>>

    /** The private constructor; only `SingletonDatabaseClass` calls it. */
    constructor ()
      ensures storage == map[]
    {
      storage := map[];
    }

    /** Stamps `value` with `now`, writes it under its id, returns it; no other id changes. */
    method Set(value: Indexable<P>, now: int) returns (r: Stored<P>)
      modifies this
      ensures r == Stamp(value, now)
      ensures storage == old(storage)[value.id := r]
    {
      r := Stamp(value, now);
      storage := storage[value.id := r];
    }

    /** The record under `id`, or absence; nothing changes. */
    method Get(id: string) returns (r: Option<Stored<P>>)
      ensures r.Some? <==> id in storage
      ensures r.Some? ==> r.value == storage[id]
    {
      r := if id in storage then Some(storage[id]) else None;
    }
  }

  /** The class object a factory call returns; `instance` is its static field. */
  class SingletonDatabaseClass<P> {
    const instance: RedisLiteDatabase<P>

    /** Defining the class builds its one, empty instance. */
    constructor ()
      ensures fresh(instance) && instance.storage == map[]
    {
      instance := new RedisLiteDatabase<P>();
    }
  }

  /** `createSingletonDatabase`: a new class with its own, empty instance. */
  method CreateSingletonDatabase<P>() returns (cls: SingletonDatabaseClass<P>)
    ensures fresh(cls) && fresh(cls.instance) && cls.instance.storage == map[]
  {
    cls := new SingletonDatabaseClass<P>();
  }

  /**
   * A set through one read of `instance` is seen by a get through another
   * read; the instance of a second factory call does not see it.
   */
  method SharedInstanceScenario<P>(value: Indexable<P>, now: int)
    returns (seen: Option<Stored<P>>, other: Option<Stored<P>>)
    ensures seen == Some(Stamp(value, now))
    ensures other == None
  {
    var cls := CreateSingletonDatabase<P>();
    var second := CreateSingletonDatabase<P>();
    var writer := cls.instance;
    var written := writer.Set(value, now);
    var reader := cls.instance;
    seen := reader.Get(value.id);
    other := second.instance.Get(value.id);
  }
}
