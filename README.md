# In-memory keyed stores with observers, traversal and rank selection

This project models the in-memory stores of the TypeScript design-pattern
repository `typescript-design-patterns` and proves properties of the model.

Every store keeps records keyed by `id`. Its `set` stamps the caller's value
with `createdAt = updatedAt = now` and stores the result, and its `get` reads
the record back or returns `null`. On top of that sit:

- the event channel `createObserver`, with subscribe, an unsubscribe closure, and publish;
- the plain `KeyValuePairDatabase`;
- a traversal (`visit`) and a rank selection (`selectHighestRank`) over the plain store;
- a singleton factory whose store is built eagerly as a static `instance`;
- an observable singleton store that publishes `BeforeSet` and `AfterSet` around each write;
- a record adapter that writes already-parsed records into an observable store.

Modelling choices:

- **Listeners** are opaque tokens compared by equality. Publishing returns the delivery trace: one `Delivery(listener, event)` per listener called, in call order.
- **Unsubscribe closure** is modelled as an `Unsubscriber` value. It holds the channel and the listener, and the method `Listener.Unsubscribe` runs it.
- **Time** is an integer parameter `now`. `loadRecords` takes one instant per record (`clock[i]`).
- **Backing object** of the plain store is a map plus the ids in first-insertion order, which is the order in which `Object.values` lists the records.
- **Observable store log**: the observable store keeps a ghost log of its publications. Each entry holds the event, the listener calls it made, and the store contents while those listeners ran. `Observer.SetNotifications` is the specification of one `set`'s pair of publications.
- **Subclasses**: the traversal and the rank selection are subclasses of the plain store in the source. Here they are methods that take the store.
- **Duplicate sources modelled once**:
  - the store in `src/database/engine.ts` is modelled by `KeyValueDatabase.KeyValuePairDatabase`, the same class as `src/database/engine/key-value-pair-database.ts`;
  - the channel copied into `src/gang-of-four/observer.ts:26-55` is modelled by `Listener.Channel`.

Behaviour of the code worth noting:

- **`createdAt`** is overwritten on every `set`; it is not kept from the first write.
- **Ids** are not validated: any string is stored as given.
- **Delete**: no store has a delete operation, so there are no delete events.
- **Singleton**: the static `instance` is built eagerly, once per factory call, so two calls give two separate stores.
- **Rank selection** returns the last record ranked above -1, which is not in general the highest-ranked record. See "## Findings".

## Model

| member | source | states |
|---|---|---|
| Entities.Stamp | src/database/engine/key-value-pair-database.ts:8-15 | the stored record keeps the value's id and fields and has createdAt = updatedAt = now |
| Entities.Unstamp | src/database/models/index.ts:1-8 | the value a stored record came from has the record's id and fields |
| Entities.StampRoundTrip | src/database/engine/key-value-pair-database.ts:11-15 | unstamping a stamp gives the value back; a record with equal timestamps is the stamp of its own value; re-stamping yields the same record exactly when both timestamps equal `now` |
| Entities.Lookup | src/database/engine/key-value-pair-database.ts:20-22 | a read returns a record exactly when the id is stored, and then it is the stored record; otherwise it returns null |
| Listener.Channel.constructor | src/database/engine/listener.ts:41 | a new channel has no listeners |
| Listener.Channel.Subscribe | src/database/engine/listener.ts:44-49 | the listener is appended at the end and earlier entries are untouched; the handle refers to this channel and this listener |
| Listener.Deliveries | src/database/engine/listener.ts:58 | the `forEach` call sequence: the i-th call goes to the i-th listener with the event; `Listener.UnsubscribedNotReached` and `Observer.EventsToDeliveries` state which listeners it reaches and how often |
| Listener.Channel.Publish | src/database/engine/listener.ts:55-58 | each list entry is called exactly once, in registration order, with the same event; the list does not change; no listeners means no calls |
| Listener.Unsubscribe | src/database/engine/listener.ts:49-53 | the channel's list becomes the old list with every entry equal to that listener filtered out |
| Listener.Without | src/database/engine/listener.ts:50-52 | the filtered list is no longer than the original; it holds only entries other than the listener, and it holds every such entry |
| Listener.WithoutAppend | src/database/engine/listener.ts:50-52 | filtering distributes over concatenation, so the other entries keep their relative order |
| Listener.WithoutAbsent | src/database/engine/listener.ts:50-52 | filtering out a listener that is not subscribed leaves the list unchanged |
| Listener.WithoutCounts | src/database/engine/listener.ts:50-52 | after filtering, the listener occurs zero times and every other entry occurs as often as before |
| Listener.WithoutIdempotent | src/database/engine/listener.ts:49-53 | calling the unsubscribe handle a second time leaves the list unchanged |
| Listener.SubscribeAfterUnsubscribe | src/database/engine/listener.ts:44-53 | a later subscription of another listener lands after the filtered entries; a later subscription of the removed listener is removed by the same filter |
| Listener.UnsubscribedNotReached | src/database/engine/listener.ts:49-58 | after unsubscribing, a publish never reaches that listener; every other listener is reached exactly when it was subscribed, as often as before |
| Listener.UnsubscribeScenario | src/database/engine/listener.ts:41-58 | publishing on an empty channel calls no one; with two subscribers, after the first is unsubscribed twice only the second receives the event |
| KeyValueDatabase.Project | src/gang-of-four/visitor.ts:12 | enumerating the backing object gives one entry per id in order, and the i-th entry is the record stored under the i-th id |
| KeyValueDatabase.ProjectOverwrite | src/database/engine/key-value-pair-database.ts:16 | setting an id already present puts the new record at that id's position and moves nothing |
| KeyValueDatabase.ProjectAppend | src/database/engine/key-value-pair-database.ts:16 | setting a new id appends its record to the end of the enumeration |
| KeyValueDatabase.KeyValuePairDatabase.constructor | src/database/engine/key-value-pair-database.ts:5 | a new store is empty and satisfies the store invariant |
| KeyValueDatabase.KeyValuePairDatabase.Set | src/database/engine/key-value-pair-database.ts:7-18 | returns the stamped record, which is exactly the record stored under `value.id`, replacing any earlier one (createdAt included); every other id is unchanged; a new id goes to the end of the enumeration order and a known id keeps its place; the invariant is kept |
| KeyValueDatabase.KeyValuePairDatabase.Get | src/database/engine/key-value-pair-database.ts:20-22 | returns the stored record exactly when the id is present, null otherwise, and changes nothing |
| KeyValueDatabase.KeyValuePairDatabase.Values | src/gang-of-four/visitor.ts:12 | `Object.values(this.dataStorage)`: the stored records under the ids in first-insertion order; `KeyValueDatabase.ValuesEnumerateStorage` states that this lists every stored record exactly once |
| KeyValueDatabase.ProjectCount | src/gang-of-four/visitor.ts:12 | the enumeration has exactly as many entries as the store has records |
| KeyValueDatabase.ProjectStored | src/gang-of-four/visitor.ts:12 | every enumerated entry is the record stored under its own id, and no id is enumerated twice |
| KeyValueDatabase.ProjectCovers | src/gang-of-four/visitor.ts:12 | every stored record appears in the enumeration |
| KeyValueDatabase.ValuesEnumerateStorage | src/gang-of-four/visitor.ts:12 | `Object.values` of the store lists every stored record exactly once and nothing else |
| KeyValueDatabase.LastWriteWinsScenario | src/database/engine.ts:11-26 | two sets of one id followed by a get return the second stamped record, with the second write's createdAt; an id never set reads as null |
| Visitor.Visit | src/gang-of-four/visitor.ts:11-13 | the visitor is called once per stored record, with exactly the records `get` returns, on a snapshot taken before the first call, in enumeration order; the store is not changed |
| Visitor.VisitScenario | src/gang-of-four/visitor.ts:12 | an empty store gives zero visits; after set a, set b and set a again, the visits see a's latest record first and then b's record |
| Strategy.LastRankedAbove | src/gang-of-four/strategy.ts:17-25 | what the reduce leaves in `selected`: the last record ranked above the fixed accumulator rank -1, or null; `Strategy.LastRankedAboveSpec` states its meaning |
| Strategy.LastRankedAboveSpec | src/gang-of-four/strategy.ts:17-25 | the reduction selects nothing exactly when no record ranks above -1 (in particular on an empty store); otherwise it selects the record at the last position ranking above -1 |
| Strategy.SelectedRanksAboveInitial | src/gang-of-four/strategy.ts:19-25 | a selected record is one of the enumerated records and ranks strictly above -1 |
| Strategy.SelectHighestRank | src/gang-of-four/strategy.ts:7-26 | the ranker is called once per stored record, in enumeration order; every comparison is against the unchanged accumulator rank -1; the result is the last record ranked above -1, or null; a non-null result is a stored record ranked above -1; the store is not changed |
| Strategy.LevelRank | src/runner.ts:266 | the ranker `(item) => item.level` |
| Strategy.PayOrMinusOne | src/runner.ts:274 | the ranker `(item) => item.pay ?? -1`: the pay, or -1 for an engineer without one |
| Strategy.UnpaidNeverSelected | src/runner.ts:273-275 | ranking by `pay ?? -1` never selects an engineer without a pay |
| Strategy.DemoRankings | src/runner.ts:236-276 | on the demo's three engineers, ranking by level selects the last engineer and ranking by pay selects the second |
| Strategy.RunnerRankingScenario | src/runner.ts:236-276 | after the demo's three sets, ranking by level returns einstein's record and ranking by pay returns elon-musk's |
| Strategy.BestSelection | src/gang-of-four/strategy.ts:17-23 | the reduce with the step returning the updated accumulator: the best rank so far and its record, a record replacing the selection only when ranked strictly higher; `Strategy.BestSelectionSpec` states its meaning |
| Strategy.BestSelectionSpec | src/gang-of-four/strategy.ts:17-23 | the intended reduction selects nothing exactly when no record ranks above -1; otherwise it selects the first record of highest rank, with that rank |
| Strategy.SelectHighestRankIntended | src/gang-of-four/strategy.ts:7-26 | with the step returning the updated accumulator, the result is null exactly when no stored record ranks above -1, and otherwise the first record of highest rank |
| Strategy.RunnerRankingIntendedScenario | src/runner.ts:236-276 | the intended reduction returns the same records on the demo data |
| Strategy.DemoRankingsIntended | src/runner.ts:236-276 | on the demo's three engineers, the intended reduction selects the last engineer by level and the second by pay |
| Strategy.AsWrittenIsNotHighest | src/gang-of-four/strategy.ts:17-23 | for ranks 5 then 3, the code as written selects the rank-3 record, while the intended reduction selects the rank-5 record |
| Strategy.TieBreakExample | src/gang-of-four/strategy.ts:17-23 | for ranks 5, 5, 3 for A, B, C, the intended reduction keeps A on the tie, while the code as written selects C |
| Strategy.AgreeWhenHighestIsLast | src/gang-of-four/strategy.ts:17-23 | when the last record ranks strictly above every other record and above -1, both reductions select it |
| Singleton.RedisLiteDatabase.constructor | src/gang-of-four/singleton.ts:9-14 | the private constructor builds an empty Map |
| Singleton.RedisLiteDatabase.Set | src/gang-of-four/singleton.ts:18-29 | returns the stamped record, which is exactly the record written under `value.id`; no other id changes |
| Singleton.RedisLiteDatabase.Get | src/gang-of-four/singleton.ts:31-33 | returns the stored record, or null for an unknown id; nothing changes |
| Singleton.SingletonDatabaseClass.constructor | src/gang-of-four/singleton.ts:14-16 | defining the class builds its one instance, new and empty |
| Singleton.CreateSingletonDatabase | src/gang-of-four/singleton.ts:7-40 | each call yields a new class whose instance is new and empty |
| Singleton.SharedInstanceScenario | src/runner.ts:87-110 | a set through one read of `instance` is seen by a get through another read; the instance of a second factory call does not see it |
| Observer.SetNotifications | src/gang-of-four/observer.ts:88-100 | the two publications of one `set`, each with its event, its listener calls and the store contents while they ran; `Observer.SetNotificationsMeaning` states their order and payloads |
| Observer.SetNotificationsMeaning | src/gang-of-four/observer.ts:77-102 | one set publishes exactly one BeforeSet and then one AfterSet. Both carry the pre-write record as existing value (null if absent) and the raw input as new value. BeforeSet listeners run before the write; AfterSet listeners run after it, with the stamped record already readable and every other id unchanged. AfterSet's createdAt is the record's stamp. Each publication calls its channel's listeners in order |
| Observer.AfterSetEventsToAppend | src/gang-of-four/observer.ts:89-100 | the events a listener received from a sequence of publications split along that sequence |
| Observer.SetReachesAfterListeners | src/gang-of-four/observer.ts:110-118 | in one set, a listener receives the AfterSet event once per subscription to the after channel, and always that event; a listener not subscribed to the before channel gets nothing from it |
| Observer.EventsToDeliveries | src/gang-of-four/observer.ts:49-53 | a publish reaches a listener once per occurrence of it in the list, each time with the published event |
| Observer.RedisObservableDatabase.constructor | src/gang-of-four/observer.ts:68-111 | the private constructor builds an empty Map, an empty log and two new channels with no listeners |
| Observer.RedisObservableDatabase.Set | src/gang-of-four/observer.ts:77-103 | returns the stamped record and stores it under `value.id`, leaving the rest of the Map alone; the log grows by exactly the two publications `SetNotifications` specifies; the listener lists are not changed |
| Observer.RedisObservableDatabase.Get | src/gang-of-four/observer.ts:105-107 | returns the stored record or null; it publishes nothing and changes nothing |
| Observer.RedisObservableDatabase.OnBeforeSet | src/gang-of-four/observer.ts:113-115 | subscribes the listener to the before channel only; the after channel is unchanged |
| Observer.RedisObservableDatabase.OnAfterSet | src/gang-of-four/observer.ts:116-118 | subscribes the listener to the after channel only; the before channel is unchanged |
| Observer.SingletonObservableDatabaseClass.constructor | src/gang-of-four/observer.ts:73-75 | defining the class builds its one instance: new, empty, with a new channel of each kind |
| Observer.CreateSingletonObservableDatabase | src/gang-of-four/observer.ts:66-125 | each call yields a new class whose instance is new and empty, with no listeners |
| Observer.ThreeSetsReachListener | src/runner.ts:124-168 | of three sets of one id, a listener subscribed to the after channel for the first two receives exactly those two AfterSet events; the second carries the first record as existing value |
| Observer.AfterSetUnsubscribeScenario | src/runner.ts:124-168 | the demo listener sees the V1 and V2 sets, is unsubscribed, and does not see V3; the store ends with V3's record |
| Adapter.StoreAll | src/gang-of-four/adapter.ts:14-16 | the store after setting the records one after another in array order, the i-th at the i-th instant; `Adapter.StoreAllLastWins` states its meaning |
| Adapter.LoadNotifications | src/gang-of-four/adapter.ts:14-16 | the publications of setting the records one after another in array order; `Adapter.LoadNotificationsInOrder` states their order, new values, existing values, write times and listener calls |
| Adapter.LoadNotificationsInOrder | src/gang-of-four/adapter.ts:14-16 | loading sets every record exactly once, in array order: the i-th pair of publications is the BeforeSet and AfterSet of the i-th record, stamped with the i-th instant; both carry as existing value what the store held under that id after the first i records, and each calls every listener of its channel in order |
| Adapter.StoreAllPrefix | src/gang-of-four/adapter.ts:14-16 | setting the first i records is setting the first record and then the next i - 1 |
| Adapter.StoreAllLastWins | src/gang-of-four/adapter.ts:14-16 | after loading, an id holds the stamp of the last record with that id; an id no record carries keeps its earlier record |
| Adapter.RecordAdapter.constructor | src/gang-of-four/adapter.ts:20-21 | a new adapter has neither a name nor a database |
| Adapter.RecordAdapter.Name | src/gang-of-four/adapter.ts:23-26 | sets the name, leaves the database alone and returns the same adapter |
| Adapter.RecordAdapter.Database | src/gang-of-four/adapter.ts:28-31 | attaches the database, leaves the name alone and returns the same adapter |
| Adapter.RecordAdapter.AddRecord | src/gang-of-four/adapter.ts:33-38 | without a database it fails and changes nothing; with one it succeeds after calling that database's `set` exactly once with the item unchanged |
| Adapter.LoadRecords | src/gang-of-four/adapter.ts:14-16 | without a database, a non-empty load fails on the first record and changes nothing, and an empty load succeeds; with one, the records are set one at a time in array order, leaving the store and log that the specification functions give |
| Adapter.LoadScenario | src/runner.ts:284-294 | an adapter never given a database fails; a builder-configured adapter loads two records, which can then be read back |

## Left out

- Reading and parsing the input file in `loadRecords` (`fs.readFileSync`, `JSON.parse`) is I/O. The model's loop takes the already-parsed records.
- The real clock, `Date` objects and `toDateString` are replaced by integer time supplied by the caller.
- Scores are integers. The source's `number` scores, with NaN and floating-point comparison, are not modelled.
- Listener bodies are not run. A listener that calls back into the store during a publish, or that throws, is outside the model; the source has no try/catch around its publishes.
- Visitor.Visit: the visitor's own side effects are not modelled; the method returns the arguments of the calls.
- JavaScript's property ordering (integer-like keys enumerate first) and the prototype members of a `{}`-backed store (ids such as `"toString"`) are not modelled. Ids are assumed to be plain keys that collide with nothing.
- The private constructors' access control is not modelled. Only the class objects' constructors build instances, and no one else constructs a store directly.
- `as unknown as T` casts and TypeScript generics are not modelled. The caller's fields are an opaque payload `P`.
- `BeforeDelete` and `AfterDelete` are kept only as the declared payload shapes (`Listener.BeforeDelete`, `Listener.AfterDelete`). No store implements or publishes deletion, so no member uses them.
- The factories that only call `new KeyValuePairDatabase` are left out (`src/gang-of-four/factory.ts`, `src/database/factory.ts`), and so are the type-only files beyond the entity datatypes.
- The console output of the demo scripts `src/runner.ts` and `src/database/index.ts` is left out. Their scenarios appear only as proved methods.
- Parts of `src/runner.ts` the model omits:
  - it imports a `RedisObservableDatabase` that is never exported;
  - it calls `new` on a private constructor;
  - it calls `delete` and `onAfterDelete`, which no store defines;
  - it imports and builds a `PersonRecordAdapter` (lines 8 and 290) that the adapter module never exports.
  Its scenarios therefore use the factory's `instance`, and `Adapter.LoadScenario` builds a `RecordAdapter`.
- The static `instance` fields are writable in the source, but nothing there reassigns them. The model makes `instance` a `const` of the class object (`Singleton.SingletonDatabaseClass`, `Observer.SingletonObservableDatabaseClass`), so reassignment is not modelled.
- The `ObservableDatabase` interface is modelled by its one implementation, `Observer.RedisObservableDatabase`.
- Records are values in the model. In the source, `set` returns the very object it stores (`src/database/engine/key-value-pair-database.ts:16-17`, `src/gang-of-four/singleton.ts:27-28`, `src/gang-of-four/observer.ts:94,102`), and `get`, the `existingValue` of an event, the visitor and the ranker all receive stored objects. A caller that mutates such an object changes the store without a `set`, a new timestamp or an event. The model's frames do not capture that aliasing: only `Set` changes `storage`.
- Strategy.SelectHighestRank: the ranker is a pure function from a record to an integer. In the source `rankerStrategy` is an arbitrary callback, and its side effects (on the record, the store or anything else) are not modelled.
- Adapter.RecordAdapter.AddRecord: on a missing database it returns `Fail(DatabaseNotConfigured)`. The source throws an `Error` instead, and the message text is not modelled.

## Findings

| source | as written | input that shows it | evidently intended | confidence | as-written member | corrected member |
|---|---|---|---|---|---|---|
| src/gang-of-four/strategy.ts:17-23 | the `reduce` callback assigns `selected` but returns the unchanged `acc`, so every record is compared with rank -1 and the last record ranked above -1 is returned | two records ranked 5 then 3: the record ranked 3 is returned (Strategy.AsWrittenIsNotHighest) | the callback returns the updated selection, so the highest-ranked record (the first one on ties) is returned | not executed | Strategy.SelectHighestRank | Strategy.SelectHighestRankIntended |
