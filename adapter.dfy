/**
 * The record adapter: a builder with a name and an optional observable
 * database, whose `addRecord` writes one record through the database's
 * `set` and fails when no database is attached; and the loop that hands
 * each already-parsed record to `addRecord` in array order. Each `set`
 * reads the clock once; `clock[i]` is the time read by the i-th record's set.
 */
module Adapter {
  import opened Wrappers
  import opened Entities
  import opened Listener
  import opened Observer

  /** The error `addRecord` throws when the database was never set. */
  datatype AdapterError = DatabaseNotConfigured

  /** The store after setting `records` in order, the i-th at `clock[i]`. */
  function StoreAll<P>(m: map<string, Stored<P>>, records: seq<Indexable<P>>, clock: seq<int>): map<string, Stored<P>>
    requires |clock| == |records|
    decreases |records|
  {
    if records == [] then m
    else StoreAll(m[records[0].id := Stamp(records[0], clock[0])], records[1..], clock[1..])
  }

  /** The publications of setting `records` in order on a store holding `m`. */
  function LoadNotifications<L, P>(m: map<string, Stored<P>>, records: seq<Indexable<P>>, clock: seq<int>, beforeLs: seq<L>, afterLs: seq<L>)
    : seq<Notification<L, P>>
    requires |clock| == |records|
    decreases |records|
  {
    if records == [] then []
    else
      SetNotifications(m, records[0], clock[0], beforeLs, afterLs) +
      LoadNotifications(m[records[0].id := Stamp(records[0], clock[0])], records[1..], clock[1..], beforeLs, afterLs)
  }

  /**
   * Loading sets every record exactly once, in array order: the i-th pair of
   * publications is the BeforeSet and then the AfterSet of `records[i]`,
   * stamped `clock[i]`; both carry as existing value the record the store
   * held under that id after the first i records, and each calls every
   * listener of its channel in order.
   */
  lemma {:induction false} LoadNotificationsInOrder<L, P>(m: map<string, Stored<P>>, records: seq<Indexable<P>>, clock: seq<int>, beforeLs: seq<L>, afterLs: seq<L>)
    requires |clock| == |records|
    ensures var ns := LoadNotifications(m, records, clock, beforeLs, afterLs);
      |ns| == 2 * |records| &&
      forall i :: 0 <= i < |records| ==>
        && ns[2 * i].BeforeSetPublished? && ns[2 * i].before.newValue == records[i]
        && ns[2 * i + 1].AfterSetPublished? && ns[2 * i + 1].after.newValue == records[i]
        && ns[2 * i + 1].after.createdAt == clock[i]
        && ns[2 * i].before.existingValue == Lookup(StoreAll(m, records[..i], clock[..i]), records[i].id)
        && ns[2 * i + 1].after.existingValue == ns[2 * i].before.existingValue
        && ns[2 * i].beforeCalls == Deliveries(beforeLs, ns[2 * i].before)
        && ns[2 * i + 1].afterCalls == Deliveries(afterLs, ns[2 * i + 1].after)
    decreases |records|
  {
    if records != [] {
      var m' := m[records[0].id := Stamp(records[0], clock[0])];
      var first := SetNotifications(m, records[0], clock[0], beforeLs, afterLs);
      var rest := LoadNotifications(m', records[1..], clock[1..], beforeLs, afterLs);
      LoadNotificationsInOrder(m', records[1..], clock[1..], beforeLs, afterLs);
      var ns := first + rest;
      forall i | 0 <= i < |records|
        ensures ns[2 * i].BeforeSetPublished? && ns[2 * i].before.newValue == records[i]
        ensures ns[2 * i + 1].AfterSetPublished? && ns[2 * i + 1].after.newValue == records[i]
        ensures ns[2 * i + 1].after.createdAt == clock[i]
        ensures ns[2 * i].before.existingValue == Lookup(StoreAll(m, records[..i], clock[..i]), records[i].id)
        ensures ns[2 * i + 1].after.existingValue == ns[2 * i].before.existingValue
        ensures ns[2 * i].beforeCalls == Deliveries(beforeLs, ns[2 * i].before)
        ensures ns[2 * i + 1].afterCalls == Deliveries(afterLs, ns[2 * i + 1].after)
      {
        if i > 0 {
          assert ns[2 * i] == rest[2 * (i - 1)];
          assert ns[2 * i + 1] == rest[2 * (i - 1) + 1];
          assert records[i] == records[1..][i - 1] && clock[i] == clock[1..][i - 1];
          StoreAllPrefix(m, records, clock, i);
        } else {
          assert records[..0] == [] && clock[..0] == [];
        }
      }
    }
  }

  /** Storing the first `i` records is storing the first, then the next `i - 1`. */
  lemma StoreAllPrefix<P>(m: map<string, Stored<P>>, records: seq<Indexable<P>>, clock: seq<int>, i: int)
    requires |clock| == |records| && 0 < i <= |records|
    ensures StoreAll(m, records[..i], clock[..i]) ==
      StoreAll(m[records[0].id := Stamp(records[0], clock[0])], records[1..][..i - 1], clock[1..][..i - 1])
  {
    assert records[..i][0] == records[0] && clock[..i][0] == clock[0];
    assert records[..i][1..] == records[1..][..i - 1];
    assert clock[..i][1..] == clock[1..][..i - 1];
  }

  /**
   * After loading, an id holds the stamp of the last record carrying it,
   * and an id no record carries keeps its earlier record.
   */
  lemma {:induction false} StoreAllLastWins<P>(m: map<string, Stored<P>>, records: seq<Indexable<P>>, clock: seq<int>, id: string)
    requires |clock| == |records|
    ensures forall i :: 0 <= i < |records| && records[i].id == id && (forall j :: i < j < |records| ==> records[j].id != id) ==>
      id in StoreAll(m, records, clock) && StoreAll(m, records, clock)[id] == Stamp(records[i], clock[i])
    ensures (forall i :: 0 <= i < |records| ==> records[i].id != id) ==>
      Lookup(StoreAll(m, records, clock), id) == Lookup(m, id)
    decreases |records|
  {
    if records != [] {
      var m' := m[records[0].id := Stamp(records[0], clock[0])];
      StoreAllLastWins(m', records[1..], clock[1..], id);
      forall i | 0 <= i < |records| && records[i].id == id && (forall j :: i < j < |records| ==> records[j].id != id)
        ensures id in StoreAll(m, records, clock) && StoreAll(m, records, clock)[id] == Stamp(records[i], clock[i])
      {
        if i > 0 {
          assert records[i] == records[1..][i - 1] && clock[i] == clock[1..][i - 1];
          forall j | i - 1 < j < |records| - 1
            ensures records[1..][j].id != id
          {
            assert records[1..][j] == records[j + 1];
          }
        } else {
          forall k | 0 <= k < |records| - 1
            ensures records[1..][k].id != id
          {
            assert records[1..][k] == records[k + 1];
          }
          assert Lookup(m', id) == Some(Stamp(records[0], clock[0]));
        }
      }
      if forall i :: 0 <= i < |records| ==> records[i].id != id {
        forall k | 0 <= k < |records| - 1
          ensures records[1..][k].id != id
        {
          assert records[1..][k] == records[k + 1];
        }
      }
    }
  }

  /**
   * Loading from position `i` is setting `records[i]` and then loading from
   * `i + 1`: what remains to be stored and published after the i-th set is
   * what remained before it, less that set.
   */
  lemma LoadStep<L, P>(m0: map<string, Stored<P>>, log0: seq<Notification<L, P>>, records: seq<Indexable<P>>, clock: seq<int>, i: nat,
                       m: map<string, Stored<P>>, log: seq<Notification<L, P>>, beforeLs: seq<L>, afterLs: seq<L>)
    requires |clock| == |records| && i < |records|
    requires StoreAll(m, records[i..], clock[i..]) == StoreAll(m0, records, clock)
    requires log0 + LoadNotifications(m0, records, clock, beforeLs, afterLs) == log + LoadNotifications(m, records[i..], clock[i..], beforeLs, afterLs)
    ensures var m' := m[records[i].id := Stamp(records[i], clock[i])];
      var log' := log + SetNotifications(m, records[i], clock[i], beforeLs, afterLs);
      && StoreAll(m', records[i + 1..], clock[i + 1..]) == StoreAll(m0, records, clock)
      && log0 + LoadNotifications(m0, records, clock, beforeLs, afterLs) == log' + LoadNotifications(m', records[i + 1..], clock[i + 1..], beforeLs, afterLs)
  {
    assert records[i..][1..] == records[i + 1..] && clock[i..][1..] == clock[i + 1..];
    var m' := m[records[i].id := Stamp(records[i], clock[i])];
    var step := SetNotifications(m, records[i], clock[i], beforeLs, afterLs);
    var rest := LoadNotifications(m', records[i + 1..], clock[i + 1..], beforeLs, afterLs);
    assert LoadNotifications(m, records[i..], clock[i..], beforeLs, afterLs) == step + rest;
    assert log + (step + rest) == (log + step) + rest;
  }

  class RecordAdapter<L(==), P> {
    /** `_name`, undefined until set. */
    var name: Option<string>
    /** `_database`, undefined until set. */
    var database: Option<RedisObservableDatabase<L, P>>

    /** A new adapter has neither a name nor a database. */
    constructor ()
      ensures name == None && database == None
    {
      name := None;
      database := None;
    }

    /** The objects `addRecord` may change: the attached database, if any. */
    ghost function Target(): set<object>
      reads this
    {
      if database.Some? then {database.value} else {}
    }

    /** Sets the name and returns this adapter; the database is unchanged. */
    method Name(n: string) returns (self: RecordAdapter<L, P>)
      modifies this
      ensures self == this
      ensures name == Some(n) && database == old(database)
    {
      name := Some(n);
      self := this;
    }

    /** Attaches `db` and returns this adapter; the name is unchanged. */
    method Database(db: RedisObservableDatabase<L, P>) returns (self: RecordAdapter<L, P>)
      modifies this
      ensures self == this
      ensures database == Some(db) && name == old(name)
    {
      database := Some(db);
      self := this;
    }

    /**
     * Without a database: fails and writes nothing. With one: calls its
     * `set` once with `item` unchanged, at time `now`.
     */
    method AddRecord(item: Indexable<P>, now: int) returns (o: Outcome<AdapterError>)
      modifies Target()
      ensures database.None? ==> o == Fail(DatabaseNotConfigured)
      ensures database.Some? ==> o == Pass
      ensures database.Some? ==>
        var db := database.value;
        && db.storage == old(db.storage)[item.id := Stamp(item, now)]
        && db.log == old(db.log) + SetNotifications(old(db.storage), item, now, db.beforeAddListeners.listeners, db.afterAddListeners.listeners)
    {
      if database.None? {
        return Fail(DatabaseNotConfigured);
      }
      var stored := database.value.Set(item, now);
      o := Pass;
    }
  }

  /**
   * The loop of `loadRecords` over already-parsed records. Without a
   * database the first record fails and loading stops there; with one,
   * every record is set once, in array order.
   */
  method LoadRecords<L(==), P>(records: seq<Indexable<P>>, clock: seq<int>, handler: RecordAdapter<L, P>)
    returns (o: Outcome<AdapterError>)
    requires |clock| == |records|
    modifies handler.Target()
    ensures handler.database.None? ==> (o == Pass <==> records == [])
    ensures o != Pass ==> o == Fail(DatabaseNotConfigured) && handler.database.None?
    ensures handler.database.Some? ==>
      var db := handler.database.value;
      && db.storage == StoreAll(old(db.storage), records, clock)
      && db.log == old(db.log) + LoadNotifications(old(db.storage), records, clock, db.beforeAddListeners.listeners, db.afterAddListeners.listeners)
  {
    ghost var db: RedisObservableDatabase?<L, P> := if handler.database.Some? then handler.database.value else null;
    ghost var m0 := if db != null then db.storage else map[];
    ghost var log0 := if db != null then db.log else [];
    ghost var bl := if db != null then db.beforeAddListeners.listeners else [];
    ghost var al := if db != null then db.afterAddListeners.listeners else [];
    o := Pass;
    var i := 0;
    while i < |records|
      invariant 0 <= i <= |records|
      invariant handler.database.None? ==> i == 0
      invariant o == Pass
      invariant db != null ==> handler.database == Some(db)
      invariant db != null ==> db.beforeAddListeners.listeners == bl && db.afterAddListeners.listeners == al
      invariant db != null ==> StoreAll(db.storage, records[i..], clock[i..]) == StoreAll(m0, records, clock)
      invariant db != null ==>
        log0 + LoadNotifications(m0, records, clock, bl, al) == db.log + LoadNotifications(db.storage, records[i..], clock[i..], bl, al)
    {
      ghost var before := if db != null then db.storage else map[];
      ghost var logBefore := if db != null then db.log else [];
      o := handler.AddRecord(records[i], clock[i]);
      if o.Fail? {
        return;
      }
      LoadStep(m0, log0, records, clock, i, before, logBefore, bl, al);
      i := i + 1;
    }
    assert records[i..] == [] && clock[i..] == [];
  }

  /**
   * An adapter never given a database fails on the first record; one built
   * with a name and a database loads the records into that database.
   */
  method LoadScenario<L(==), P>(v: Indexable<P>, w: Indexable<P>, t1: int, t2: int)
    returns (failed: Outcome<AdapterError>, loaded: Outcome<AdapterError>, gotV: Option<Stored<P>>, gotW: Option<Stored<P>>)
    requires v.id != w.id
    ensures failed == Fail(DatabaseNotConfigured)
    ensures loaded == Pass
    ensures gotV == Some(Stamp(v, t1)) && gotW == Some(Stamp(w, t2))
  {
    var bare := new RecordAdapter<L, P>();
    failed := LoadRecords([v, w], [t1, t2], bare);
    var cls := CreateSingletonObservableDatabase<L, P>();
    var targetDb := cls.instance;
    var adapter := new RecordAdapter<L, P>();
    var named := adapter.Name("DB-Backup");
    var configured := named.Database(targetDb);
    loaded := LoadRecords([v, w], [t1, t2], configured);
    assert [v, w][1..] == [w] && [t1, t2][1..] == [t2];
    assert StoreAll(map[v.id := Stamp(v, t1)], [w], [t2]) == map[v.id := Stamp(v, t1), w.id := Stamp(w, t2)];
    assert targetDb.storage == map[v.id := Stamp(v, t1), w.id := Stamp(w, t2)];
    gotV := targetDb.Get(v.id);
    gotW := targetDb.Get(w.id);
  }
}
