/**
 * Traversal over the key-value store: the visitor is called once per value
 * of the backing object, in enumeration order. Calling the visitor is
 * recorded as the sequence of records it was called with.
 */
module Visitor {
  import opened Entities
  import opened KeyValueDatabase

  /**
   * Takes the enumeration of the stored records, then calls the visitor on
   * each in turn; returns the arguments of those calls. The store is not changed.
   */
  method Visit<P>(db: KeyValuePairDatabase<P>) returns (calls: seq<Stored<P>>)
    requires db.Valid()
    ensures calls == db.Values()
    ensures |calls| == |db.storage|
    ensures forall id :: id in db.storage ==> db.storage[id] in calls
    ensures forall i :: 0 <= i < |calls| ==> calls[i].id in db.storage && db.storage[calls[i].id] == calls[i]
  {
    var snapshot := db.Values();
    calls := [];
    var i := 0;
    while i < |snapshot|
      invariant 0 <= i <= |snapshot|
      invariant calls == snapshot[..i]
    {
      calls := calls + [snapshot[i]];
      i := i + 1;
    }
    assert snapshot[..i] == snapshot;
    ValuesEnumerateStorage(db);
  }

  /**
   * Set a, set b, set a again, then visit: the visit sees the latest records,
   * with a still first because re-setting an id does not move it; an empty
   * store is visited zero times.
   */
  method VisitScenario<P>(a: Indexable<P>, b: Indexable<P>, a2: Indexable<P>, t1: int, t2: int, t3: int)
    returns (empty: seq<Stored<P>>, calls: seq<Stored<P>>)
    requires a.id != b.id && a2.id == a.id
    ensures empty == []
    ensures calls == [Stamp(a2, t3), Stamp(b, t2)]
  {
    var db := new KeyValuePairDatabase<P>();
    empty := Visit(db);
    var ra := db.Set(a, t1);
    var rb := db.Set(b, t2);
    assert db.order == [a.id, b.id];
    var ra2 := db.Set(a2, t3);
    assert db.order == [a.id, b.id];
    assert db.storage[a.id] == Stamp(a2, t3) && db.storage[b.id] == Stamp(b, t2);
    ValuesOfTwo(db);
    calls := Visit(db);
  }
}
