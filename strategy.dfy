/**
 * Rank selection over the key-value store. The accumulator of the reduction
 * starts at rank -1 with no record and is returned unchanged by every step,
 * while a separate variable is overwritten whenever a record's rank exceeds
 * the accumulator's. Every comparison is therefore against -1, and the result
 * is the LAST record in enumeration order whose rank is above -1.
 */
module Strategy {
  import opened Wrappers
  import opened Entities
  import opened KeyValueDatabase

  /** The rank of the initial accumulator. */
  const InitialRank: int := -1

  /** The accumulator object: a rank and the record holding it. */
  datatype Selection<P> = Selection(rank: int, employee: Option<Stored<P>>)

  /** What the reduction leaves in `selected`: the last record ranked above -1, if any. */
  function LastRankedAbove<P>(vs: seq<Stored<P>>, ranker: Stored<P> -> int): Option<Stored<P>>
  {
    if vs == [] then None
    else if ranker(vs[|vs| - 1]) > InitialRank then Some(vs[|vs| - 1])
    else LastRankedAbove(vs[..|vs| - 1], ranker)
  }

  /** The last record ranked above -1 is found at some position with nothing ranked above -1 after it. */
  ghost predicate IsLastRankedAbove<P>(vs: seq<Stored<P>>, ranker: Stored<P> -> int, k: int)
  {
    && 0 <= k < |vs|
    && ranker(vs[k]) > InitialRank
    && forall j :: k < j < |vs| ==> ranker(vs[j]) <= InitialRank
  }

  /**
   * The result is absent exactly when no record ranks above -1; otherwise
   * it is the record at the last position ranking above -1.
   */
  lemma {:induction false} LastRankedAboveSpec<P>(vs: seq<Stored<P>>, ranker: Stored<P> -> int)
    ensures LastRankedAbove(vs, ranker) == None <==> forall i :: 0 <= i < |vs| ==> ranker(vs[i]) <= InitialRank
    ensures LastRankedAbove(vs, ranker) != None ==>
      exists k :: IsLastRankedAbove(vs, ranker, k) && vs[k] == LastRankedAbove(vs, ranker).value
  {
    if vs != [] {
      var n := |vs| - 1;
      if ranker(vs[n]) <= InitialRank {
        var front := vs[..n];
        LastRankedAboveSpec(front, ranker);
        assert forall i :: 0 <= i < n ==> vs[i] == front[i];
        if LastRankedAbove(front, ranker) != None {
          var k :| IsLastRankedAbove(front, ranker, k) && front[k] == LastRankedAbove(front, ranker).value;
          assert IsLastRankedAbove(vs, ranker, k);
        }
      } else {
        assert IsLastRankedAbove(vs, ranker, n);
      }
    }
  }

  /** Extending the prefix by one record: that record is selected if it ranks above -1, else the selection stays. */
  lemma LastRankedAboveStep<P>(vs: seq<Stored<P>>, i: nat, ranker: Stored<P> -> int)
    requires i < |vs|
    ensures LastRankedAbove(vs[..i + 1], ranker) ==
      if ranker(vs[i]) > InitialRank then Some(vs[i]) else LastRankedAbove(vs[..i], ranker)
  {
    assert vs[..i + 1][..i] == vs[..i];
  }

  /** A prefix one longer is the prefix with the next record appended. */
  lemma PrefixStep<T>(vs: seq<T>, i: nat)
    requires i < |vs|
    ensures vs[..i + 1] == vs[..i] + [vs[i]]
  {
  }

  /** The selected record, if any, ranks above -1; so one ranked -1 or lower is never selected. */
  lemma SelectedRanksAboveInitial<P>(vs: seq<Stored<P>>, ranker: Stored<P> -> int)
    ensures LastRankedAbove(vs, ranker) != None ==>
      LastRankedAbove(vs, ranker).value in vs && ranker(LastRankedAbove(vs, ranker).value) > InitialRank
  {
    LastRankedAboveSpec(vs, ranker);
  }

  /**
   * `selectHighestRank` as written: one ranker call per stored record in
   * enumeration order, each compared with the unchanged accumulator rank -1;
   * `ranked` lists the ranker's arguments and `comparedWith[i]` the
   * accumulator rank the i-th of them was compared with.
   */
  method SelectHighestRank<P>(db: KeyValuePairDatabase<P>, ranker: Stored<P> -> int)
    returns (r: Option<Stored<P>>, ghost ranked: seq<Stored<P>>, ghost comparedWith: seq<int>)
    requires db.Valid()
    ensures r == LastRankedAbove(db.Values(), ranker)
    ensures ranked == db.Values()
    ensures |comparedWith| == |db.Values()|
    ensures forall i :: 0 <= i < |comparedWith| ==> comparedWith[i] == InitialRank
    ensures r.Some? ==> r.value in db.Values() && ranker(r.value) > InitialRank
  {
    var values := db.Values();
    var selected := Selection(InitialRank, None);
    var acc := selected;
    ranked, comparedWith := [], [];
    var i := 0;
    while i < |values|
      invariant 0 <= i <= |values|
      invariant ranked == values[..i]
      invariant acc == Selection(InitialRank, None)
      invariant selected.employee == LastRankedAbove(values[..i], ranker)
      invariant |comparedWith| == i
      invariant forall k :: 0 <= k < i ==> comparedWith[k] == InitialRank
    {
      var current := values[i];
      var currentRank := ranker(current);
      ranked := ranked + [current];
      comparedWith := comparedWith + [acc.rank];
      if currentRank > acc.rank {
        selected := Selection(currentRank, Some(current));
      }
      LastRankedAboveStep(values, i, ranker);
      PrefixStep(values, i);
      i := i + 1;
    }
    assert values[..i] == values;
    r := selected.employee;
    SelectedRanksAboveInitial(values, ranker);
  }

  /** The ranker `(item) => item.level` of the demo. */
  function LevelRank(r: Stored<Engineer>): int
  {
    r.fields.level
  }

  /** The ranker `(item) => item.pay ?? -1` of the demo: an unpaid engineer ranks -1. */
  function PayOrMinusOne(r: Stored<Engineer>): int
  {
    if r.fields.pay.Some? then r.fields.pay.value else -1
  }

  /** Ranking by pay with the -1 fallback never selects an engineer without a pay. */
  lemma UnpaidNeverSelected(vs: seq<Stored<Engineer>>)
    ensures LastRankedAbove(vs, PayOrMinusOne) != None ==>
      LastRankedAbove(vs, PayOrMinusOne).value.fields.pay.Some? &&
      LastRankedAbove(vs, PayOrMinusOne).value.fields.pay.value > InitialRank
  {
    SelectedRanksAboveInitial(vs, PayOrMinusOne);
  }

  /** The demo's engineers in the order they are set: by level the last is selected, by pay the unpaid last is skipped. */
  lemma DemoRankings(vs: seq<Stored<Engineer>>)
    requires |vs| == 3
    requires vs[0].fields.level == 46 && vs[0].fields.pay == Some(500000)
    requires vs[1].fields.level == 420 && vs[1].fields.pay == Some(900000)
    requires vs[2].fields.level == 999 && vs[2].fields.pay == None
    ensures LastRankedAbove(vs, LevelRank) == Some(vs[2])
    ensures LastRankedAbove(vs, PayOrMinusOne) == Some(vs[1])
  {
    assert PayOrMinusOne(vs[2]) == -1;
    assert vs[..2][..1] == vs[..1];
  }

  /** The demo's engineers. */
  const Karpathy := Indexable("engineer::karpathy", Engineer("Andrei Karpathy.V2", "ML/AI Engineer.V2", None, "director of FSD.V2", 46, Some(500000)))
  const Musk := Indexable("elon-musk", Engineer("Elon Musk", "Tesla & Space X Founder", None, "Innovator", 420, Some(900000)))
  const Einstein := Indexable("einstein", Engineer("Albert Einsten", "Physics and Astrophysics Extraordinaire", None, "Genius", 999, None))

  /**
   * The demo's three engineers, set in this order and then ranked by level
   * and by pay. In this data the selected records happen to be the highest
   * ranked, so the intended reduction selects the same ones.
   */
  method RunnerRankingScenario(t1: int, t2: int, t3: int)
    returns (byLevel: Option<Stored<Engineer>>, byPay: Option<Stored<Engineer>>)
    ensures byLevel == Some(Stamp(Einstein, t3))
    ensures byPay == Some(Stamp(Musk, t2))
  {
    var db := new KeyValuePairDatabase<Engineer>();
    var r1 := db.Set(Karpathy, t1);
    var r2 := db.Set(Musk, t2);
    var r3 := db.Set(Einstein, t3);
    ValuesOfThree(db);
    DemoRankings(db.Values());
    ghost var ranked, compared;
    byLevel, ranked, compared := SelectHighestRank(db, LevelRank);
    byPay, ranked, compared := SelectHighestRank(db, PayOrMinusOne);
  }

  /*
   * The evidently intended reduction: the step returns the new selection, so
   * each record is compared with the best rank so far. The first record with
   * the highest rank above -1 wins.
   */

  /** The accumulator after the intended reduction over `vs`. */
  function BestSelection<P>(vs: seq<Stored<P>>, ranker: Stored<P> -> int): Selection<P>
  {
    if vs == [] then Selection(InitialRank, None)
    else
      var s := BestSelection(vs[..|vs| - 1], ranker);
      if ranker(vs[|vs| - 1]) > s.rank then Selection(ranker(vs[|vs| - 1]), Some(vs[|vs| - 1])) else s
  }

  /** Position `k` holds the first record with the highest rank, and that rank is above -1. */
  ghost predicate IsFirstHighest<P>(vs: seq<Stored<P>>, ranker: Stored<P> -> int, k: int)
  {
    && 0 <= k < |vs|
    && ranker(vs[k]) > InitialRank
    && (forall j :: 0 <= j < |vs| ==> ranker(vs[j]) <= ranker(vs[k]))
    && (forall j :: 0 <= j < k ==> ranker(vs[j]) < ranker(vs[k]))
  }

  /**
   * The intended reduction selects nothing exactly when no record ranks
   * above -1, and otherwise the first record of highest rank.
   */
  lemma {:induction false} BestSelectionSpec<P>(vs: seq<Stored<P>>, ranker: Stored<P> -> int)
    ensures BestSelection(vs, ranker).employee == None <==> forall i :: 0 <= i < |vs| ==> ranker(vs[i]) <= InitialRank
    ensures BestSelection(vs, ranker).employee == None ==> BestSelection(vs, ranker).rank == InitialRank
    ensures BestSelection(vs, ranker).employee != None ==>
      exists k :: IsFirstHighest(vs, ranker, k) && vs[k] == BestSelection(vs, ranker).employee.value &&
        BestSelection(vs, ranker).rank == ranker(vs[k])
  {
    if vs != [] {
      var n := |vs| - 1;
      var front := vs[..n];
      var s := BestSelection(front, ranker);
      BestSelectionSpec(front, ranker);
      assert forall i :: 0 <= i < n ==> vs[i] == front[i];
      if s.employee != None {
        var k :| IsFirstHighest(front, ranker, k) && front[k] == s.employee.value && s.rank == ranker(front[k]);
        if ranker(vs[n]) > s.rank {
          assert IsFirstHighest(vs, ranker, n);
        } else {
          assert IsFirstHighest(vs, ranker, k);
        }
      } else if ranker(vs[n]) > s.rank {
        assert IsFirstHighest(vs, ranker, n);
      }
    }
  }

  /** The intended `selectHighestRank`: the reduction step returns the updated accumulator. */
  method SelectHighestRankIntended<P>(db: KeyValuePairDatabase<P>, ranker: Stored<P> -> int)
    returns (r: Option<Stored<P>>)
    requires db.Valid()
    ensures r == BestSelection(db.Values(), ranker).employee
    ensures r == None <==> forall v :: v in db.Values() ==> ranker(v) <= InitialRank
    ensures r != None ==> exists k :: IsFirstHighest(db.Values(), ranker, k) && db.Values()[k] == r.value
  {
    var values := db.Values();
    var acc := Selection(InitialRank, None);
    var i := 0;
    while i < |values|
      invariant 0 <= i <= |values|
      invariant acc == BestSelection(values[..i], ranker)
    {
      var current := values[i];
      var currentRank := ranker(current);
      if currentRank > acc.rank {
        acc := Selection(currentRank, Some(current));
      }
      assert values[..i + 1][..i] == values[..i];
      i := i + 1;
    }
    assert values[..i] == values;
    r := acc.employee;
    BestSelectionSpec(values, ranker);
  }

  /**
   * The demo's engineers ranked with the intended reduction: the same
   * selections as written, because in this data the highest rank comes last.
   */
  method RunnerRankingIntendedScenario(t1: int, t2: int, t3: int)
    returns (byLevel: Option<Stored<Engineer>>, byPay: Option<Stored<Engineer>>)
    ensures byLevel == Some(Stamp(Einstein, t3))
    ensures byPay == Some(Stamp(Musk, t2))
  {
    var db := new KeyValuePairDatabase<Engineer>();
    var r1 := db.Set(Karpathy, t1);
    var r2 := db.Set(Musk, t2);
    var r3 := db.Set(Einstein, t3);
    ValuesOfThree(db);
    DemoRankingsIntended(db.Values());
    byLevel := SelectHighestRankIntended(db, LevelRank);
    byPay := SelectHighestRankIntended(db, PayOrMinusOne);
  }

  /** The demo data under the intended reduction: einstein by level, elon-musk by pay. */
  lemma DemoRankingsIntended(vs: seq<Stored<Engineer>>)
    requires |vs| == 3
    requires vs[0].fields.level == 46 && vs[0].fields.pay == Some(500000)
    requires vs[1].fields.level == 420 && vs[1].fields.pay == Some(900000)
    requires vs[2].fields.level == 999 && vs[2].fields.pay == None
    ensures BestSelection(vs, LevelRank).employee == Some(vs[2])
    ensures BestSelection(vs, PayOrMinusOne).employee == Some(vs[1])
  {
    assert vs[..2][..1] == vs[..1];
    assert vs[..1][..0] == [];
    assert vs[..3] == vs;
    AgreeWhenHighestIsLast(vs, LevelRank);
    assert PayOrMinusOne(vs[2]) == -1;
    assert BestSelection(vs[..1], PayOrMinusOne) == Selection(500000, Some(vs[0]));
    assert BestSelection(vs[..2], PayOrMinusOne) == Selection(900000, Some(vs[1]));
  }

  /** Ranks a record by an integer payload. */
  function FieldRank(r: Stored<int>): int
  {
    r.fields
  }

  /** Ranks 5 then 3: as written the later record is selected, though the earlier ranks higher. */
  lemma AsWrittenIsNotHighest()
    ensures var a, b := Stored("a", 5, 0, 0), Stored("b", 3, 0, 0);
      LastRankedAbove([a, b], FieldRank) == Some(b) && BestSelection([a, b], FieldRank).employee == Some(a)
  {
    var a, b := Stored("a", 5, 0, 0), Stored("b", 3, 0, 0);
    assert [a, b][..1] == [a];
    assert [a][..0] == [];
    assert BestSelection([a], FieldRank) == Selection(5, Some(a));
  }

  /** Ranks 5, 5, 3 for A, B, C: the intended reduction keeps A on the tie; as written C is selected. */
  lemma TieBreakExample()
    ensures var a, b, c := Stored("A", 5, 0, 0), Stored("B", 5, 0, 0), Stored("C", 3, 0, 0);
      BestSelection([a, b, c], FieldRank).employee == Some(a) && LastRankedAbove([a, b, c], FieldRank) == Some(c)
  {
    var a, b, c := Stored("A", 5, 0, 0), Stored("B", 5, 0, 0), Stored("C", 3, 0, 0);
    assert [a, b, c][..2] == [a, b];
    assert [a, b][..1] == [a];
    assert [a][..0] == [];
    assert BestSelection([a], FieldRank) == Selection(5, Some(a));
    assert BestSelection([a, b], FieldRank) == Selection(5, Some(a));
  }

  /**
   * When the last record ranks strictly above every other and above -1, as
   * in the demo data, the two reductions select the same record.
   */
  lemma AgreeWhenHighestIsLast<P>(vs: seq<Stored<P>>, ranker: Stored<P> -> int)
    requires |vs| > 0 && ranker(vs[|vs| - 1]) > InitialRank
    requires forall j :: 0 <= j < |vs| - 1 ==> ranker(vs[j]) < ranker(vs[|vs| - 1])
    ensures LastRankedAbove(vs, ranker) == BestSelection(vs, ranker).employee == Some(vs[|vs| - 1])
  {
    var front := vs[..|vs| - 1];
    BestSelectionSpec(front, ranker);
    assert forall i :: 0 <= i < |front| ==> vs[i] == front[i];
  }
}
