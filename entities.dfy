/**
 * The entity shapes every store works with: the caller's value with its
 * identifier, and the stored record, which adds the two timestamps.
 * Wall-clock time is an integer supplied by the caller.
 */
module Entities {
  import opened Wrappers

  /** A caller's value: the identifier and every other field, opaque to the stores. */
  datatype Indexable<P> = Indexable(id: string, fields: P)

  /** A record as the stores keep it: the value's fields plus `createdAt` and `updatedAt`. */
  datatype Stored<P> = Stored(id: string, fields: P, createdAt: int, updatedAt: int)

  /** The domain entity the rank-selection strategy is used with. */
  datatype Engineer = Engineer(
    name: string,
    description: string,
    project: Option<string>,
    role: string,
    level: int,
    pay: Option<int>)

  /** The record every `set` builds: the value spread out, both timestamps equal to `now`. */
  function Stamp<P>(value: Indexable<P>, now: int): (r: Stored<P>)
    ensures r.id == value.id && r.fields == value.fields
    ensures r.createdAt == now && r.updatedAt == now
  {
    Stored(value.id, value.fields, now, now)
  }

  /** The caller's value a stored record was built from. */
  function Unstamp<P>(r: Stored<P>): (v: Indexable<P>)
    ensures v.id == r.id && v.fields == r.fields
  {
    Indexable(r.id, r.fields)
  }

  /** Stamping loses nothing but the previous timestamps, and every record a `set` builds is a stamp. */
  lemma StampRoundTrip<P>(value: Indexable<P>, now: int, r: Stored<P>)
    ensures Unstamp(Stamp(value, now)) == value
    ensures r.createdAt == r.updatedAt ==> Stamp(Unstamp(r), r.createdAt) == r
    ensures Stamp(Unstamp(r), now) == r <==> r.createdAt == now && r.updatedAt == now
  {
  }

  /** A read of a store's backing map: the record under `id`, or absence (`?? null`). */
  function Lookup<P>(m: map<string, Stored<P>>, id: string): (r: Option<Stored<P>>)
    ensures r.Some? <==> id in m
    ensures r.Some? ==> r.value == m[id]
  {
    if id in m then Some(m[id]) else None
  }
}
