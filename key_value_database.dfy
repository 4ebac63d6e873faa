/**
 * The plain key-value store: an object keyed by id whose `set` stamps the
 * value with the current time and whose `get` reads it back. The backing
 * object is a map plus the ids in the order they were first set, which is
 * the order in which the object's values are enumerated.
 */
module KeyValueDatabase {
  import opened Wrappers
  import opened Entities

  /** No id occurs twice. */
  ghost predicate Distinct(ids: seq<string>)
  {
    forall i, j :: 0 <= i < j < |ids| ==> ids[i] != ids[j]
  }

  /** The records of `m` under `ids`, in the order of `ids`. */
  function Project<P>(ids: seq<string>, m: map<string, Stored<P>>): (vs: seq<Stored<P>>)
    requires forall id :: id in ids ==> id in m
    ensures |vs| == |ids|
    ensures forall i :: 0 <= i < |ids| ==> vs[i] == m[ids[i]]
  {
    if ids == [] then [] else [m[ids[0]]] + Project(ids[1..], m)
  }

  /** A list without repetitions has as many elements as the set of its elements. */
  lemma {:induction false} DistinctCardinality(ids: seq<string>)
    requires Distinct(ids)
    ensures |set id | id in ids| == |ids|
  {
    if ids != [] {
      DistinctCardinality(ids[1..]);
      assert (set id | id in ids) == {ids[0]} + (set id | id in ids[1..]);
      assert ids[0] !in (set id | id in ids[1..]);
    }
  }

  /**
   * Setting an id already present does not move it: the enumeration has the
   * new record at that id's position and is otherwise the same.
   */
  lemma ProjectOverwrite<P>(ids: seq<string>, m: map<string, Stored<P>>, id: string, r: Stored<P>)
    requires forall k :: k in ids ==> k in m
    requires id in ids
    ensures var vs := Project(ids, m[id := r]);
      |vs| == |ids| &&
      forall i :: 0 <= i < |ids| ==> vs[i] == if ids[i] == id then r else Project(ids, m)[i]
  {
  }

  /** Setting a new id appends its record to the end of the enumeration. */
  lemma ProjectAppend<P>(ids: seq<string>, m: map<string, Stored<P>>, id: string, r: Stored<P>)
    requires forall k :: k in ids ==> k in m
    requires id !in ids
    ensures Project(ids + [id], m[id := r]) == Project(ids, m) + [r]
  {
    var left := Project(ids + [id], m[id := r]);
    var right := Project(ids, m) + [r];
    assert |left| == |right|;
    forall i | 0 <= i < |left|
      ensures left[i] == right[i]
    {
      if i < |ids| {
        assert (ids + [id])[i] == ids[i];
        assert ids[i] != id;
      }
    }
  }

  class KeyValuePairDatabase<P> {
    /** The backing object: id to stamped record. */
    var storage: map<string, Stored<P>>
    /** The ids of `storage`, in the order they were first set. */
    var order: seq<string>

    ghost predicate Valid()
      reads this
    {
      && Distinct(order)
      && (forall id :: id in storage <==> id in order)
      && (forall id :: id in storage ==> storage[id].id == id)
    }

    /** A new store is empty. */
    constructor ()
      ensures Valid() && storage == map[] && order == []
    {
      storage := map[];
      order := [];
    }

    /**
     * Stamps `value` with `now` as both timestamps, writes it under its id
     * (replacing any earlier record, `createdAt` included) and returns it.
     * A new id goes to the end of the enumeration order; a known id keeps its place.
     */
    method Set(value: Indexable<P>, now: int) returns (r: Stored<P>)
      requires Valid()
      modifies this
      ensures Valid()
      ensures r == Stamp(value, now)
      ensures storage == old(storage)[value.id := r]
      ensures order == if value.id in old(storage) then old(order) else old(order) + [value.id]
    {
      r := Stamp(value, now);
      if value.id !in storage {
        order := order + [value.id];
      }
      storage := storage[value.id := r];
    }

    /** The record stored under `id`, or absence; nothing changes. */
    method Get(id: string) returns (r: Option<Stored<P>>)
      ensures r.Some? <==> id in storage
      ensures r.Some? ==> r.value == storage[id]
    {
      r := if id in storage then Some(storage[id]) else None;
    }

    /** The stored records in enumeration order (`Object.values` of the backing object). */
    function Values(): seq<Stored<P>>
      reads this
      requires Valid()
    {
      Project(order, storage)
    }
  }

  /** Projecting through a repetition-free list of exactly the ids of `m` gives one entry per stored record. */
  lemma ProjectCount<P>(ids: seq<string>, m: map<string, Stored<P>>)
    requires Distinct(ids)
    requires forall id :: id in m <==> id in ids
    ensures |Project(ids, m)| == |m|
  {
    DistinctCardinality(ids);
    assert m.Keys == set id | id in ids;
  }

  /** Projecting a store whose records carry their own ids gives records stored under their ids, and distinct ids give distinct ids. */
  lemma ProjectStored<P>(ids: seq<string>, m: map<string, Stored<P>>)
    requires Distinct(ids)
    requires forall id :: id in ids ==> id in m
    requires forall id :: id in m ==> m[id].id == id
    ensures forall i :: 0 <= i < |ids| ==> Project(ids, m)[i].id in m && m[Project(ids, m)[i].id] == Project(ids, m)[i]
    ensures forall i, j :: 0 <= i < j < |ids| ==> Project(ids, m)[i].id != Project(ids, m)[j].id
  {
  }

  /** Projecting through a list holding every id of `m` lists every stored record. */
  lemma ProjectCovers<P>(ids: seq<string>, m: map<string, Stored<P>>)
    requires forall id :: id in m <==> id in ids
    ensures forall id :: id in m ==> m[id] in Project(ids, m)
  {
    var vs := Project(ids, m);
    forall id | id in m
      ensures m[id] in vs
    {
      var k :| 0 <= k < |ids| && ids[k] == id;
      assert vs[k] == m[id];
    }
  }

  /** The enumeration lists every stored record exactly once, and nothing else. */
  lemma ValuesEnumerateStorage<P>(db: KeyValuePairDatabase<P>)
    requires db.Valid()
    ensures |db.Values()| == |db.storage|
    ensures forall i :: 0 <= i < |db.Values()| ==> db.Values()[i].id in db.storage && db.storage[db.Values()[i].id] == db.Values()[i]
    ensures forall id :: id in db.storage ==> db.storage[id] in db.Values()
    ensures forall i, j :: 0 <= i < j < |db.Values()| ==> db.Values()[i].id != db.Values()[j].id
  {
    ProjectCount(db.order, db.storage);
    ProjectCovers(db.order, db.storage);
    ProjectStored(db.order, db.storage);
  }

  /** With two ids in the enumeration order, the enumeration is their two records. */
  lemma ValuesOfTwo<P>(db: KeyValuePairDatabase<P>)
    requires db.Valid() && |db.order| == 2
    ensures db.Values() == [db.storage[db.order[0]], db.storage[db.order[1]]]
  {
  }

  /** With three ids in the enumeration order, the enumeration is their three records. */
  lemma ValuesOfThree<P>(db: KeyValuePairDatabase<P>)
    requires db.Valid() && |db.order| == 3
    ensures db.Values() == [db.storage[db.order[0]], db.storage[db.order[1]], db.storage[db.order[2]]]
  {
  }

  /**
   * Two sets of the same id and a get: the last write wins, `createdAt`
   * included; an id never set reads as absent.
   */
  method LastWriteWinsScenario<P>(v1: Indexable<P>, v2: Indexable<P>, t1: int, t2: int, other: string)
    returns (returned: Stored<P>, got: Option<Stored<P>>, missing: Option<Stored<P>>)
    requires v1.id == v2.id && other != v1.id
    ensures returned == Stamp(v2, t2)
    ensures got == Some(returned) && got.value.createdAt == t2 && got.value.fields == v2.fields
    ensures missing == None
  {
    var db := new KeyValuePairDatabase<P>();
    var first := db.Set(v1, t1);
    returned := db.Set(v2, t2);
    got := db.Get(v2.id);
    missing := db.Get(other);
  }
}
