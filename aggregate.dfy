/** The aggregation of crimes and environmental points onto the hex grid.
    The spatial join ("which cell is this point within") is a parameter:
    `locate` answers the cell id of a point, or nothing for a point outside
    every cell. A cell id is used as the row of that cell:
    `aggregate_features` adds to rows by `cell_id` label (`loc`, `reindex`),
    and labels and rows agree because the grid builder numbers its rows
    0..N-1 (`BuildGrid.RelabelDense`) and the grid file keeps that order. */
module Aggregate {
  import opened Wrappers
  import opened Text
  import opened GroupBy
  import opened LoadData
  import opened Timestamps

  /** The counter every crime adds to. */
  const TotalColumn: string := "crime_count_total"

  /** The crime types tracked when the caller passes none. */
  const DefaultCrimeTypes: seq<string> := ["BURGLARY", "ROBBERY", "ASSAULT"]

  /** The columns the empty monthly table is created with. */
  const MonthlyColumns: seq<string> := ["cell_id", "month", "hour", "dow", "primary_type", "crime_count"]

  /** The keys of the monthly group-by. */
  const MonthlyKeys: seq<string> := ["cell_id", "month", "hour", "dow", "primary_type"]

  /** A streetlight or bus-stop position. */
  datatype Location = Location(x: real, y: real)

  /** The counter column of one crime type: `f"crime_{ctype.lower()}"`. */
  function TypeColumn(t: string): string
  {
    "crime_" + Lower(t)
  }

  /** The crime types to track: the given list, or the defaults for None
      (an empty list stays empty). */
  function TrackedTypes(primaryTypes: Option<seq<string>>): seq<string>
  {
    if primaryTypes.None? then DefaultCrimeTypes else primaryTypes.value
  }

  // ---------------------------------------------------------------------------
  // Counter columns
  // ---------------------------------------------------------------------------

  /** The names in order of first appearance, each once: assigning a column
      that already exists resets it rather than adding another. */
  function Dedup(names: seq<string>): (r: seq<string>)
    ensures forall n :: n in r <==> n in names
    ensures forall i, j :: 0 <= i < j < |r| ==> r[i] != r[j]
    ensures names != [] ==> r != [] && r[0] == names[0]
  {
    if names == [] then []
    else
      var d := Dedup(names[..|names| - 1]);
      if names[|names| - 1] in d then d else d + [names[|names| - 1]]
  }

  /** The counter columns, in the order the grid gains them: the total, then
      one per tracked type. */
  function CounterColumns(tracked: seq<string>): (r: seq<string>)
    ensures r != [] && r[0] == TotalColumn
    ensures forall i, j :: 0 <= i < j < |r| ==> r[i] != r[j]
    ensures forall t :: t in tracked ==> TypeColumn(t) in r
    ensures forall n :: n in r ==> n == TotalColumn || exists t :: t in tracked && n == TypeColumn(t)
  {
    var names := [TotalColumn] + seq(|tracked|, i requires 0 <= i < |tracked| => TypeColumn(tracked[i]));
    assert forall t :: t in tracked ==> TypeColumn(t) in names by {
      forall t | t in tracked ensures TypeColumn(t) in names {
        var i :| 0 <= i < |tracked| && tracked[i] == t;
        assert names[i + 1] == TypeColumn(t);
      }
    }
    assert forall n :: n in names ==> n == TotalColumn || exists t :: t in tracked && n == TypeColumn(t) by {
      forall n | n in names ensures n == TotalColumn || exists t :: t in tracked && n == TypeColumn(t) {
        var i :| 0 <= i < |names| && names[i] == n;
        if i > 0 {
          assert tracked[i - 1] in tracked;
        }
      }
    }
    Dedup(names)
  }

  // ---------------------------------------------------------------------------
  // The spatial join and per-cell counts
  // ---------------------------------------------------------------------------

  /** Every answer of `locate` is a cell of the grid. */
  ghost predicate LocatesInto<E(!new)>(locate: E -> Option<nat>, cells: nat)
  {
    forall e :: locate(e).Some? ==> locate(e).value < cells
  }

  /** Cell ids in their numeric order. */
  predicate CellLess(a: nat, b: nat)
  {
    a < b
  }

  lemma CellLessOrder()
    ensures StrictTotalOrder(CellLess)
  {
  }

  /** The inner spatial join, reduced to what the group-bys read: one row
      `(cell_id, 1)` per item inside some cell, in input order. */
  function Joined<E>(items: seq<E>, locate: E -> Option<nat>): (r: seq<(nat, nat)>)
    ensures |r| <= |items|
  {
    if items == [] then []
    else (match locate(items[0]) case Some(c) => [(c, 1)] case None => []) + Joined(items[1..], locate)
  }

  /** Number of items within cell `c`. */
  function CountIn<E>(items: seq<E>, locate: E -> Option<nat>, c: nat): nat
  {
    if items == [] then 0
    else (if locate(items[0]) == Some(c) then 1 else 0) + CountIn(items[1..], locate, c)
  }

  /** Number of items within some cell below `n`. */
  function CountBelow<E>(items: seq<E>, locate: E -> Option<nat>, n: nat): nat
  {
    if items == [] then 0
    else (if locate(items[0]).Some? && locate(items[0]).value < n then 1 else 0) + CountBelow(items[1..], locate, n)
  }

  /** The join of a concatenation is the concatenation of the joins. */
  lemma {:induction false} JoinedConcat<E>(a: seq<E>, b: seq<E>, locate: E -> Option<nat>)
    ensures Joined(a + b, locate) == Joined(a, locate) + Joined(b, locate)
    ensures forall c :: CountIn(a + b, locate, c) == CountIn(a, locate, c) + CountIn(b, locate, c)
  {
    if a == [] {
      assert a + b == b;
    } else {
      assert (a + b)[1..] == a[1..] + b;
      JoinedConcat(a[1..], b, locate);
    }
  }

  /** In the join, cell `c` occurs exactly when some item is within it, and
      its rows weigh as many as there are such items. */
  lemma {:induction false} JoinedWeights<E>(items: seq<E>, locate: E -> Option<nat>, c: nat)
    ensures Weight(Joined(items, locate), c) == CountIn(items, locate, c)
    ensures Occurs(Joined(items, locate), c) <==> CountIn(items, locate, c) > 0
  {
    if items != [] {
      JoinedWeights(items[1..], locate, c);
      var head := match locate(items[0]) case Some(d) => [(d, 1)] case None => [];
      ConcatWeights(head, Joined(items[1..], locate), c);
    }
  }

  /** Every cell id in the join is a cell of the grid. */
  lemma {:induction false} JoinedBounded<E(!new)>(items: seq<E>, locate: E -> Option<nat>, cells: nat, k: nat)
    requires LocatesInto(locate, cells)
    requires Occurs(Joined(items, locate), k)
    ensures k < cells
  {
    var head := match locate(items[0]) case Some(d) => [(d, 1)] case None => [];
    ConcatWeights(head, Joined(items[1..], locate), k);
    if !Occurs(head, k) {
      JoinedBounded(items[1..], locate, cells, k);
    }
  }

  /** `groupby("cell_id").size()` over the join: one row per occupied cell. */
  function CellSizes<E>(items: seq<E>, locate: E -> Option<nat>): seq<Group<nat>>
  {
    Tally(Joined(items, locate), CellLess)
  }

  /** The group-by has a row for exactly the occupied cells, holding their
      item counts, in ascending cell order and within the grid. */
  lemma CellSizesSpec<E(!new)>(items: seq<E>, locate: E -> Option<nat>, cells: nat)
    requires LocatesInto(locate, cells)
    ensures StrictlySorted(CellSizes(items, locate), CellLess)
    ensures forall c :: Lookup(CellSizes(items, locate), c) ==
              if CountIn(items, locate, c) > 0 then Some(CountIn(items, locate, c)) else None
    ensures forall i :: 0 <= i < |CellSizes(items, locate)| ==> CellSizes(items, locate)[i].key < cells
  {
    var gs := CellSizes(items, locate);
    CellLessOrder();
    TallySorted(Joined(items, locate), CellLess);
    forall c ensures Lookup(gs, c) == if CountIn(items, locate, c) > 0 then Some(CountIn(items, locate, c)) else None {
      TallyLookup(Joined(items, locate), CellLess, c);
      JoinedWeights(items, locate, c);
    }
    forall i | 0 <= i < |gs| ensures gs[i].key < cells {
      LookupAt(gs, CellLess, i);
      TallyLookup(Joined(items, locate), CellLess, gs[i].key);
      JoinedBounded(items, locate, cells, gs[i].key);
    }
  }

  /** Sum of the sizes of the rows for cell `c`. */
  function SizeOf(gs: seq<Group<nat>>, c: nat): nat
  {
    if gs == [] then 0 else (if gs[0].key == c then gs[0].size else 0) + SizeOf(gs[1..], c)
  }

  lemma {:induction false} SizeOfConcat(a: seq<Group<nat>>, b: seq<Group<nat>>, c: nat)
    ensures SizeOf(a + b, c) == SizeOf(a, c) + SizeOf(b, c)
  {
    if a == [] {
      assert a + b == b;
    } else {
      assert (a + b)[1..] == a[1..] + b;
      SizeOfConcat(a[1..], b, c);
    }
  }

  /** In a group-by result the rows for `c` are its one row, if any. */
  lemma {:induction false} SizeOfSorted(gs: seq<Group<nat>>, c: nat)
    requires StrictlySorted(gs, CellLess)
    ensures SizeOf(gs, c) == match Lookup(gs, c) case Some(n) => n case None => 0
  {
    if gs != [] {
      SizeOfSorted(gs[1..], c);
      if gs[0].key == c && |gs| > 1 {
        CellLessOrder();
        assert CellLess(gs[0].key, gs[1..][0].key);
        AbsentBelowHead(gs[1..], c, CellLess);
      }
    }
  }

  /** The group-by's row for a cell holds that cell's item count. */
  lemma SizeOfCellSizes<E(!new)>(items: seq<E>, locate: E -> Option<nat>, cells: nat, c: nat)
    requires LocatesInto(locate, cells)
    ensures SizeOf(CellSizes(items, locate), c) == CountIn(items, locate, c)
  {
    CellSizesSpec(items, locate, cells);
    SizeOfSorted(CellSizes(items, locate), c);
  }

  /** `count_points(points, grid).reindex(grid["cell_id"]).fillna(0)`: the
      group-by's count for each cell of the grid, 0 where it has no row. */
  function CountPoints(points: seq<Location>, locate: Location -> Option<nat>, cells: nat): (r: seq<nat>)
    ensures |r| == cells
  {
    var sizes := CellSizes(points, locate);
    seq(cells, c requires 0 <= c < cells => match Lookup(sizes, c) case Some(n) => n case None => 0)
  }

  /** Sum of a column. */
  function Sum(s: seq<nat>): nat
  {
    if s == [] then 0 else Sum(s[..|s| - 1]) + s[|s| - 1]
  }

  /** Counting below `n + 1` adds the items of cell `n`. */
  lemma {:induction false} CountBelowStep<E>(items: seq<E>, locate: E -> Option<nat>, n: nat)
    ensures CountBelow(items, locate, n + 1) == CountBelow(items, locate, n) + CountIn(items, locate, n)
  {
    if items != [] {
      CountBelowStep(items[1..], locate, n);
    }
  }

  /** Below the number of cells, every joined item is counted. */
  lemma {:induction false} CountBelowAll<E(!new)>(items: seq<E>, locate: E -> Option<nat>, cells: nat)
    requires LocatesInto(locate, cells)
    ensures CountBelow(items, locate, cells) == |Joined(items, locate)|
  {
    if items != [] {
      CountBelowAll(items[1..], locate, cells);
    }
  }

  /** Summing a per-cell count over the first `n` cells counts the items in
      those cells. */
  lemma {:induction false} SumOfCounts<E>(counts: seq<nat>, items: seq<E>, locate: E -> Option<nat>, n: nat)
    requires n <= |counts|
    requires forall c :: 0 <= c < |counts| ==> counts[c] == CountIn(items, locate, c)
    ensures Sum(counts[..n]) == CountBelow(items, locate, n)
  {
    if n == 0 {
      CountBelowZero(items, locate);
    } else {
      SumOfCounts(counts, items, locate, n - 1);
      assert counts[..n][..n - 1] == counts[..n - 1];
      CountBelowStep(items, locate, n - 1);
    }
  }

  lemma {:induction false} CountBelowZero<E>(items: seq<E>, locate: E -> Option<nat>)
    ensures CountBelow(items, locate, 0) == 0
  {
    if items != [] {
      CountBelowZero(items[1..], locate);
    }
  }

  /** Each cell gets the number of points within it, 0 for none, and the
      counts add up to the points inside the grid: a point outside every cell
      is counted nowhere. */
  lemma CountPointsSpec(points: seq<Location>, locate: Location -> Option<nat>, cells: nat)
    requires LocatesInto(locate, cells)
    ensures forall c :: 0 <= c < cells ==> CountPoints(points, locate, cells)[c] == CountIn(points, locate, c)
    ensures Sum(CountPoints(points, locate, cells)) == |Joined(points, locate)|
  {
    var r := CountPoints(points, locate, cells);
    CellSizesSpec(points, locate, cells);
    SumOfCounts(r, points, locate, cells);
    assert r[..cells] == r;
    CountBelowAll(points, locate, cells);
  }

  /** A cell's total-crime count, summed over the grid, is the number of
      crimes the join placed: the same total the monthly table holds. */
  lemma CellTotalsSum(events: seq<Crime>, classify: Crime -> Option<nat>, cells: nat, totals: seq<nat>)
    requires LocatesInto(classify, cells) && |totals| == cells
    requires forall c :: 0 <= c < cells ==> totals[c] == CountIn(events, classify, c)
    ensures Sum(totals) == |Joined(events, classify)|
  {
    SumOfCounts(totals, events, classify, cells);
    assert totals[..cells] == totals;
    CountBelowAll(events, classify, cells);
  }

  // ---------------------------------------------------------------------------
  // Crime-type counters
  // ---------------------------------------------------------------------------

  /** `joined[joined["primary_type"] == t]`: a null type equals nothing. */
  function OfType(events: seq<Crime>, t: string): (r: seq<Crime>)
    ensures |r| <= |events|
  {
    if events == [] then []
    else (if events[0].primaryType == Some(t) then [events[0]] else []) + OfType(events[1..], t)
  }

  lemma {:induction false} OfTypeConcat(a: seq<Crime>, b: seq<Crime>, t: string)
    ensures OfType(a + b, t) == OfType(a, t) + OfType(b, t)
  {
    if a == [] {
      assert a + b == b;
    } else {
      var ab := a + b;
      assert ab[0] == a[0];
      assert ab[1..] == a[1..] + b;
      OfTypeConcat(a[1..], b, t);
      var head := if a[0].primaryType == Some(t) then [a[0]] else [];
      assert OfType(ab, t) == head + OfType(a[1..] + b, t);
      assert OfType(a, t) == head + OfType(a[1..], t);
    }
  }

  /** The first crime counts towards its own type only. */
  lemma OfTypeCountCons(events: seq<Crime>, classify: Crime -> Option<nat>, t: string, c: nat)
    requires events != []
    ensures CountIn(OfType(events, t), classify, c)
         == (if events[0].primaryType == Some(t) && classify(events[0]) == Some(c) then 1 else 0)
            + CountIn(OfType(events[1..], t), classify, c)
  {
    var head := if events[0].primaryType == Some(t) then [events[0]] else [];
    JoinedConcat(head, OfType(events[1..], t), classify);
  }

  /** What the tracked types in `ts` add to the column `name` of cell `c`:
      each type whose column is `name` adds its crimes in the cell. */
  function TypeSum(events: seq<Crime>, classify: Crime -> Option<nat>, ts: seq<string>, name: string, c: nat): nat
  {
    if ts == [] then 0
    else
      TypeSum(events, classify, ts[..|ts| - 1], name, c)
        + (if TypeColumn(ts[|ts| - 1]) == name then CountIn(OfType(events, ts[|ts| - 1]), classify, c) else 0)
  }

  /** The value the counter column `name` of cell `c` holds after the crimes
      `events` were aggregated from zero. */
  function ColumnValue(events: seq<Crime>, classify: Crime -> Option<nat>, tracked: seq<string>, name: string, c: nat): nat
  {
    (if name == TotalColumn then CountIn(events, classify, c) else 0) + TypeSum(events, classify, tracked, name, c)
  }

  lemma {:induction false} TypeSumConcat(a: seq<Crime>, b: seq<Crime>, classify: Crime -> Option<nat>, ts: seq<string>, name: string, c: nat)
    ensures TypeSum(a + b, classify, ts, name, c) == TypeSum(a, classify, ts, name, c) + TypeSum(b, classify, ts, name, c)
  {
    if ts != [] {
      TypeSumConcat(a, b, classify, ts[..|ts| - 1], name, c);
      var t := ts[|ts| - 1];
      OfTypeConcat(a, b, t);
      JoinedConcat(OfType(a, t), OfType(b, t), classify);
    }
  }

  /** Counters only add: the counts after two batches of crimes are the sums
      of their counts, so the chunk boundaries do not matter. */
  lemma ColumnValueConcat(a: seq<Crime>, b: seq<Crime>, classify: Crime -> Option<nat>, tracked: seq<string>, name: string, c: nat)
    ensures ColumnValue(a + b, classify, tracked, name, c)
         == ColumnValue(a, classify, tracked, name, c) + ColumnValue(b, classify, tracked, name, c)
  {
    JoinedConcat(a, b, classify);
    TypeSumConcat(a, b, classify, tracked, name, c);
  }

  /** Nothing in the join, nothing counted. */
  lemma {:induction false} NoJoinNoCount(events: seq<Crime>, classify: Crime -> Option<nat>, c: nat)
    requires Joined(events, classify) == []
    ensures CountIn(events, classify, c) == 0
    ensures forall t :: CountIn(OfType(events, t), classify, c) == 0
  {
    JoinedWeights(events, classify, c);
    forall t ensures CountIn(OfType(events, t), classify, c) == 0 {
      OfTypeCount(events, classify, t, c);
    }
  }

  /** A type's crimes in a cell are some of the cell's crimes. */
  lemma {:induction false} OfTypeCount(events: seq<Crime>, classify: Crime -> Option<nat>, t: string, c: nat)
    ensures CountIn(OfType(events, t), classify, c) <= CountIn(events, classify, c)
  {
    if events != [] {
      OfTypeCount(events[1..], classify, t, c);
      OfTypeCountCons(events, classify, t, c);
    }
  }

  lemma {:induction false} TypeSumZero(events: seq<Crime>, classify: Crime -> Option<nat>, ts: seq<string>, name: string, c: nat)
    requires Joined(events, classify) == []
    ensures TypeSum(events, classify, ts, name, c) == 0
  {
    if ts != [] {
      TypeSumZero(events, classify, ts[..|ts| - 1], name, c);
      NoJoinNoCount(events, classify, c);
    }
  }

  /** A batch of crimes the join places nowhere changes no counter. */
  lemma ColumnValueNoJoin(events: seq<Crime>, classify: Crime -> Option<nat>, tracked: seq<string>, name: string, c: nat)
    requires Joined(events, classify) == []
    ensures ColumnValue(events, classify, tracked, name, c) == 0
  {
    NoJoinNoCount(events, classify, c);
    TypeSumZero(events, classify, tracked, name, c);
  }

  /** Before any crime, every counter is 0. */
  lemma ColumnValueEmpty(classify: Crime -> Option<nat>, tracked: seq<string>, name: string, c: nat)
    ensures ColumnValue([], classify, tracked, name, c) == 0
  {
    ColumnValueNoJoin([], classify, tracked, name, c);
  }

  /** Different tracked types name different columns, none of them the
      total: no two types share a counter. */
  predicate SeparateColumns(tracked: seq<string>)
  {
    forall i, j :: 0 <= i < |tracked| && 0 <= j < |tracked| && i != j ==> TypeColumn(tracked[i]) != TypeColumn(tracked[j])
  }

  predicate NoTotalAlias(tracked: seq<string>)
  {
    forall i :: 0 <= i < |tracked| ==> TypeColumn(tracked[i]) != TotalColumn
  }

  /** Taking one more tracked type adds its crimes to its own column only. */
  lemma TypeSumStep(events: seq<Crime>, classify: Crime -> Option<nat>, ts: seq<string>, k: nat, name: string, c: nat)
    requires k < |ts|
    ensures TypeSum(events, classify, ts[..k + 1], name, c)
         == TypeSum(events, classify, ts[..k], name, c)
            + (if TypeColumn(ts[k]) == name then CountIn(OfType(events, ts[k]), classify, c) else 0)
  {
    assert ts[..k + 1][..k] == ts[..k];
  }

  lemma {:induction false} TypeSumOther(events: seq<Crime>, classify: Crime -> Option<nat>, ts: seq<string>, name: string, c: nat)
    requires forall i :: 0 <= i < |ts| ==> TypeColumn(ts[i]) != name
    ensures TypeSum(events, classify, ts, name, c) == 0
  {
    if ts != [] {
      TypeSumOther(events, classify, ts[..|ts| - 1], name, c);
    }
  }

  lemma {:induction false} TypeSumOwn(events: seq<Crime>, classify: Crime -> Option<nat>, ts: seq<string>, k: nat, c: nat)
    requires k < |ts| && SeparateColumns(ts)
    ensures TypeSum(events, classify, ts, TypeColumn(ts[k]), c) == CountIn(OfType(events, ts[k]), classify, c)
  {
    var init := ts[..|ts| - 1];
    if k == |ts| - 1 {
      TypeSumOther(events, classify, init, TypeColumn(ts[k]), c);
    } else {
      assert init[k] == ts[k];
      TypeSumOwn(events, classify, init, k, c);
    }
  }

  /** With one column per tracked type, that column counts exactly the
      cell's crimes whose type is that name, compared case-sensitively, and
      the total column counts all of the cell's crimes. */
  lemma TypeColumnCounts(events: seq<Crime>, classify: Crime -> Option<nat>, tracked: seq<string>, k: nat, c: nat)
    requires k < |tracked| && SeparateColumns(tracked) && NoTotalAlias(tracked)
    ensures ColumnValue(events, classify, tracked, TypeColumn(tracked[k]), c) == CountIn(OfType(events, tracked[k]), classify, c)
    ensures ColumnValue(events, classify, tracked, TotalColumn, c) == CountIn(events, classify, c)
  {
    TypeSumOwn(events, classify, tracked, k, c);
    TypeSumOther(events, classify, tracked, TotalColumn, c);
  }

  /** Crimes in cell `c` whose type is one of `ts`. */
  function CountInTypes(events: seq<Crime>, classify: Crime -> Option<nat>, ts: seq<string>, c: nat): nat
  {
    if events == [] then 0
    else
      (if classify(events[0]) == Some(c) && events[0].primaryType.Some? && events[0].primaryType.value in ts then 1 else 0)
        + CountInTypes(events[1..], classify, ts, c)
  }

  lemma {:induction false} CountInTypesWithin(events: seq<Crime>, classify: Crime -> Option<nat>, ts: seq<string>, c: nat)
    ensures CountInTypes(events, classify, ts, c) <= CountIn(events, classify, c)
  {
    if events != [] {
      CountInTypesWithin(events[1..], classify, ts, c);
    }
  }

  lemma {:induction false} CountInTypesSnoc(events: seq<Crime>, classify: Crime -> Option<nat>, ts: seq<string>, t: string, c: nat)
    requires t !in ts
    ensures CountInTypes(events, classify, ts + [t], c) == CountInTypes(events, classify, ts, c) + CountIn(OfType(events, t), classify, c)
  {
    if events != [] {
      CountInTypesSnoc(events[1..], classify, ts, t, c);
      OfTypeCountCons(events, classify, t, c);
    }
  }

  /** Per-type counts of the types in `ts`, added up. */
  function TypeTotal(events: seq<Crime>, classify: Crime -> Option<nat>, ts: seq<string>, c: nat): nat
  {
    if ts == [] then 0
    else TypeTotal(events, classify, ts[..|ts| - 1], c) + CountIn(OfType(events, ts[|ts| - 1]), classify, c)
  }

  lemma {:induction false} TypeTotalIsCountInTypes(events: seq<Crime>, classify: Crime -> Option<nat>, ts: seq<string>, c: nat)
    requires forall i, j :: 0 <= i < j < |ts| ==> ts[i] != ts[j]
    ensures TypeTotal(events, classify, ts, c) == CountInTypes(events, classify, ts, c)
  {
    if ts == [] {
      CountInTypesNone(events, classify, c);
    } else {
      var init := ts[..|ts| - 1];
      TypeTotalIsCountInTypes(events, classify, init, c);
      assert init + [ts[|ts| - 1]] == ts;
      CountInTypesSnoc(events, classify, init, ts[|ts| - 1], c);
    }
  }

  lemma {:induction false} CountInTypesNone(events: seq<Crime>, classify: Crime -> Option<nat>, c: nat)
    ensures CountInTypes(events, classify, [], c) == 0
  {
    if events != [] {
      CountInTypesNone(events[1..], classify, c);
    }
  }

  /** With distinct tracked types, a cell's per-type counts add up to at most
      its total: each crime has one type. */
  lemma TypeCountsWithinTotal(events: seq<Crime>, classify: Crime -> Option<nat>, tracked: seq<string>, c: nat)
    requires forall i, j :: 0 <= i < j < |tracked| ==> tracked[i] != tracked[j]
    ensures TypeTotal(events, classify, tracked, c) <= CountIn(events, classify, c)
  {
    TypeTotalIsCountInTypes(events, classify, tracked, c);
    CountInTypesWithin(events, classify, tracked, c);
  }

  // ---------------------------------------------------------------------------
  // The monthly table
  // ---------------------------------------------------------------------------

  /** The key of one monthly row. */
  datatype MonthlyKey = MonthlyKey(cellId: nat, month: string, hour: int, dow: int, primaryType: string)

  /** Python's tuple order on the keys, the order the group-by sorts by. */
  predicate MonthlyLess(a: MonthlyKey, b: MonthlyKey)
  {
    if a.cellId != b.cellId then a.cellId < b.cellId
    else if a.month != b.month then StrLess(a.month, b.month)
    else if a.hour != b.hour then a.hour < b.hour
    else if a.dow != b.dow then a.dow < b.dow
    else StrLess(a.primaryType, b.primaryType)
  }

  lemma MonthlyLessOrder()
    ensures StrictTotalOrder(MonthlyLess)
  {
    forall a ensures !MonthlyLess(a, a) {
      StrLessIrreflexive(a.primaryType);
    }
    forall a, b, c | MonthlyLess(a, b) && MonthlyLess(b, c) ensures MonthlyLess(a, c) {
      MonthlyLessTransitive(a, b, c);
    }
    forall a, b ensures a == b || MonthlyLess(a, b) || MonthlyLess(b, a) {
      StrLessTrichotomy(a.month, b.month);
      StrLessTrichotomy(a.primaryType, b.primaryType);
    }
  }

  lemma MonthlyLessTransitive(a: MonthlyKey, b: MonthlyKey, c: MonthlyKey)
    requires MonthlyLess(a, b) && MonthlyLess(b, c)
    ensures MonthlyLess(a, c)
  {
    if a.cellId == b.cellId == c.cellId {
      if a.month != b.month && b.month != c.month {
        StrLessTransitive(a.month, b.month, c.month);
        StrLessIrreflexive(a.month);
      } else if a.month == b.month == c.month {
        if a.hour == b.hour == c.hour && a.dow == b.dow == c.dow {
          StrLessTransitive(a.primaryType, b.primaryType, c.primaryType);
        }
      }
    }
  }

  /** The rows the monthly group-by reads: each joined crime with a known
      type under its key, weight 1; a null type is dropped by the group-by. */
  function MonthlyItems(events: seq<Crime>, classify: Crime -> Option<nat>): (r: seq<(MonthlyKey, nat)>)
    ensures forall i :: 0 <= i < |r| ==> r[i].1 == 1
  {
    if events == [] then []
    else
      var e := events[0];
      (match classify(e)
        case Some(c) =>
          (match e.primaryType
            case Some(t) => [(MonthlyKey(c, e.month, e.hour, e.dow, t), 1)]
            case None => [])
        case None => [])
        + MonthlyItems(events[1..], classify)
  }

  /** One chunk's monthly table: one row per distinct key, with its count. */
  function MonthlyChunk(events: seq<Crime>, classify: Crime -> Option<nat>): seq<Group<MonthlyKey>>
  {
    Tally(MonthlyItems(events, classify), MonthlyLess)
  }

  /** Joined crimes with a null type. */
  function Untyped(events: seq<Crime>, classify: Crime -> Option<nat>): nat
  {
    if events == [] then 0
    else (if classify(events[0]).Some? && events[0].primaryType.None? then 1 else 0) + Untyped(events[1..], classify)
  }

  lemma {:induction false} OccursWeighsSome(items: seq<(MonthlyKey, nat)>, k: MonthlyKey)
    requires forall i :: 0 <= i < |items| ==> items[i].1 == 1
    requires Occurs(items, k)
    ensures Weight(items, k) >= 1
  {
    if items[0].0 != k {
      OccursWeighsSome(items[1..], k);
    }
  }

  /** A chunk's monthly table has one row per key seen in the chunk, in key
      order, and the row counts that key's crimes, at least one. */
  lemma MonthlyChunkRows(events: seq<Crime>, classify: Crime -> Option<nat>, k: MonthlyKey)
    ensures StrictlySorted(MonthlyChunk(events, classify), MonthlyLess)
    ensures Lookup(MonthlyChunk(events, classify), k) ==
              if Occurs(MonthlyItems(events, classify), k) then Some(Weight(MonthlyItems(events, classify), k)) else None
    ensures Occurs(MonthlyItems(events, classify), k) ==> Weight(MonthlyItems(events, classify), k) >= 1
  {
    MonthlyLessOrder();
    TallySorted(MonthlyItems(events, classify), MonthlyLess);
    TallyLookup(MonthlyItems(events, classify), MonthlyLess, k);
    if Occurs(MonthlyItems(events, classify), k) {
      OccursWeighsSome(MonthlyItems(events, classify), k);
    }
  }

  lemma {:induction false} MonthlyItemsWeight(events: seq<Crime>, classify: Crime -> Option<nat>)
    ensures TotalWeight(MonthlyItems(events, classify)) + Untyped(events, classify) == |Joined(events, classify)|
  {
    if events != [] {
      MonthlyItemsWeight(events[1..], classify);
      var e := events[0];
      var head := match classify(e)
        case Some(c) =>
          (match e.primaryType
            case Some(t) => [(MonthlyKey(c, e.month, e.hour, e.dow, t), 1)]
            case None => [])
        case None => [];
      ConcatWeights(head, MonthlyItems(events[1..], classify), MonthlyKey(0, "", 0, 0, ""));
    }
  }

  /** A chunk's monthly counts add up to its joined crimes of known type. */
  lemma MonthlyChunkTotal(events: seq<Crime>, classify: Crime -> Option<nat>)
    ensures TotalSize(MonthlyChunk(events, classify)) + Untyped(events, classify) == |Joined(events, classify)|
  {
    TallyTotal(MonthlyItems(events, classify), MonthlyLess);
    MonthlyItemsWeight(events, classify);
  }

  /** All chunks' crimes, in order. */
  function Concat(chunks: seq<seq<Crime>>): seq<Crime>
  {
    if chunks == [] then [] else Concat(chunks[..|chunks| - 1]) + chunks[|chunks| - 1]
  }

  /** The list of per-chunk tables: a chunk the join leaves empty is skipped;
      any other appends its table, even one without rows. */
  function MonthlyRecords(chunks: seq<seq<Crime>>, classify: Crime -> Option<nat>): seq<seq<Group<MonthlyKey>>>
  {
    if chunks == [] then []
    else
      var last := chunks[|chunks| - 1];
      MonthlyRecords(chunks[..|chunks| - 1], classify)
        + (if Joined(last, classify) == [] then [] else [MonthlyChunk(last, classify)])
  }

  /** `pd.concat(monthly_records)`: the rows of every chunk's table, in order;
      a key may repeat across chunks. */
  function MonthlyTable(records: seq<seq<Group<MonthlyKey>>>): seq<Group<MonthlyKey>>
  {
    if records == [] then [] else MonthlyTable(records[..|records| - 1]) + records[|records| - 1]
  }

  /** A table with its column names. */
  datatype MonthlyFrame = MonthlyFrame(columns: seq<string>, rows: seq<Group<MonthlyKey>>)

  /** `rename(columns={from: to})`. */
  function RenameColumn(cols: seq<string>, from: string, to: string): (r: seq<string>)
    ensures |r| == |cols|
    ensures forall i :: 0 <= i < |cols| ==> r[i] == if cols[i] == from then to else cols[i]
  {
    seq(|cols|, i requires 0 <= i < |cols| => if cols[i] == from then to else cols[i])
  }

  /** The columns of one chunk's table: `groupby(keys, as_index=False).size()`
      gives the keys and `size`, which is renamed to `crime_count`. */
  function MonthlyChunkColumns(): seq<string>
  {
    RenameColumn(MonthlyKeys + ["size"], "size", "crime_count")
  }

  /** The monthly table as saved: `pd.concat` of the appended tables, which
      all have the chunk columns, or, with none appended, the empty frame
      created with `MonthlyColumns`. */
  function MonthlyOutput(chunks: seq<seq<Crime>>, classify: Crime -> Option<nat>): MonthlyFrame
  {
    var records := MonthlyRecords(chunks, classify);
    if records != [] then MonthlyFrame(MonthlyChunkColumns(), MonthlyTable(records))
    else MonthlyFrame(MonthlyColumns, [])
  }

  /** Both branches save the same schema, and the rows are the concatenated
      chunk tables. */
  lemma MonthlySchema(chunks: seq<seq<Crime>>, classify: Crime -> Option<nat>)
    ensures MonthlyOutput(chunks, classify).columns == MonthlyColumns
    ensures MonthlyOutput(chunks, classify).rows == MonthlyTable(MonthlyRecords(chunks, classify))
  {
    var cols := MonthlyChunkColumns();
    assert "cell_id" != "size" && "month" != "size" && "hour" != "size" && "dow" != "size";
    assert "primary_type" != "size";
    assert cols[0] == "cell_id" && cols[1] == "month" && cols[2] == "hour" && cols[3] == "dow";
    assert cols[4] == "primary_type" && cols[5] == "crime_count";
  }

  lemma {:induction false} TotalSizeConcat<K>(a: seq<Group<K>>, b: seq<Group<K>>)
    ensures TotalSize(a + b) == TotalSize(a) + TotalSize(b)
  {
    if a == [] {
      assert a + b == b;
    } else {
      assert (a + b)[1..] == a[1..] + b;
      TotalSizeConcat(a[1..], b);
    }
  }

  lemma {:induction false} UntypedConcat(a: seq<Crime>, b: seq<Crime>, classify: Crime -> Option<nat>)
    ensures Untyped(a + b, classify) == Untyped(a, classify) + Untyped(b, classify)
  {
    if a == [] {
      assert a + b == b;
    } else {
      assert (a + b)[1..] == a[1..] + b;
      UntypedConcat(a[1..], b, classify);
    }
  }

  lemma {:induction false} UntypedNoJoin(events: seq<Crime>, classify: Crime -> Option<nat>)
    requires Joined(events, classify) == []
    ensures Untyped(events, classify) == 0
  {
    if events != [] {
      UntypedNoJoin(events[1..], classify);
    }
  }

  /** The monthly table's counts add up to every joined crime of known type,
      whatever the chunking: with no null types, to the total of the grid's
      `crime_count_total` column. */
  lemma {:induction false} MonthlyConservation(chunks: seq<seq<Crime>>, classify: Crime -> Option<nat>)
    ensures TotalSize(MonthlyTable(MonthlyRecords(chunks, classify))) + Untyped(Concat(chunks), classify)
         == |Joined(Concat(chunks), classify)|
  {
    if chunks != [] {
      var init := chunks[..|chunks| - 1];
      var last := chunks[|chunks| - 1];
      MonthlyConservation(init, classify);
      JoinedConcat(Concat(init), last, classify);
      UntypedConcat(Concat(init), last, classify);
      var before := MonthlyRecords(init, classify);
      if Joined(last, classify) == [] {
        UntypedNoJoin(last, classify);
        assert MonthlyRecords(chunks, classify) == before;
      } else {
        var records := before + [MonthlyChunk(last, classify)];
        assert records[..|records| - 1] == before;
        TotalSizeConcat(MonthlyTable(before), MonthlyChunk(last, classify));
        MonthlyChunkTotal(last, classify);
      }
    }
  }

  /** No chunk appends a table exactly when no chunk put a crime in a cell.
      The combined table can still have no rows when there are such tables:
      a chunk whose joined crimes all lack a type appends a table without
      rows. */
  lemma {:induction false} MonthlyEmpty(chunks: seq<seq<Crime>>, classify: Crime -> Option<nat>)
    ensures MonthlyRecords(chunks, classify) == [] <==> Joined(Concat(chunks), classify) == []
  {
    if chunks != [] {
      var init := chunks[..|chunks| - 1];
      MonthlyEmpty(init, classify);
      JoinedConcat(Concat(init), chunks[|chunks| - 1], classify);
    }
  }

  lemma {:induction false} MonthlyItemsConcat(a: seq<Crime>, b: seq<Crime>, classify: Crime -> Option<nat>)
    ensures MonthlyItems(a + b, classify) == MonthlyItems(a, classify) + MonthlyItems(b, classify)
  {
    if a == [] {
      assert a + b == b;
    } else {
      assert (a + b)[1..] == a[1..] + b;
      MonthlyItemsConcat(a[1..], b, classify);
    }
  }

  lemma {:induction false} MonthlyItemsNoJoin(events: seq<Crime>, classify: Crime -> Option<nat>)
    requires Joined(events, classify) == []
    ensures MonthlyItems(events, classify) == []
  {
    if events != [] {
      MonthlyItemsNoJoin(events[1..], classify);
    }
  }

  // ---------------------------------------------------------------------------
  // The chunks as the loop reads them
  // ---------------------------------------------------------------------------

  /** The columns one turn of the loop reads from a chunk: the loader's, and,
      once the join is non-empty, `primary_type`, which the per-type filter
      and the monthly group-by look up. Without it pandas raises
      `KeyError("primary_type")` for that chunk; a chunk the join leaves
      empty is skipped before the column is read. */
  function ChunkForAggregation(raw: RawChunk, classify: Crime -> Option<nat>): Result<seq<Crime>, LoadError>
    requires Rectangular(raw)
  {
    var crimes :- CleanChunk(raw);
    if Joined(crimes, classify) != [] && "primary_type" !in Normalized(raw.header, NormalizeColumnName) then
      Err(KeyError("primary_type"))
    else
      Ok(crimes)
  }

  /** The per-chunk step the aggregation loop runs. */
  function AggregationCleaner(classify: Crime -> Option<nat>): RawChunk --> Result<seq<Crime>, LoadError>
  {
    (raw: RawChunk) requires Rectangular(raw) => ChunkForAggregation(raw, classify)
  }

  /** The chunks the aggregation counts, or the error that ends it. */
  function AggregatedChunks(raw: seq<RawChunk>, classify: Crime -> Option<nat>): Result<seq<seq<Crime>>, LoadError>
    requires forall c :: c in raw ==> Rectangular(c)
  {
    CleanEach(raw, AggregationCleaner(classify))
  }

  /** A chunk the aggregation reads without failing: it cleans, and if any of
      its crimes lies in a cell it has the `primary_type` column. */
  predicate Readable(raw: RawChunk, classify: Crime -> Option<nat>)
    requires Rectangular(raw)
  {
    CleanChunk(raw).Ok? ==>
      Joined(CleanChunk(raw).value, classify) != [] ==> "primary_type" in Normalized(raw.header, NormalizeColumnName)
  }

  /** When every chunk that joins a crime has the `primary_type` column, the
      aggregation reads exactly what the loader yields, with the same error. */
  lemma AggregationMatchesLoader(raw: seq<RawChunk>, classify: Crime -> Option<nat>)
    requires forall c :: c in raw ==> Rectangular(c) && Readable(c, classify)
    ensures AggregatedChunks(raw, classify) == CleanAll(raw)
  {
    CleanEachAgree(raw, AggregationCleaner(classify), CleanChunk);
  }

  /** A chunk that cleans and joins a crime but has no `primary_type` column
      ends the aggregation with `KeyError("primary_type")`, whatever follows,
      once the chunks before it were read. */
  lemma AggregationStopsWithoutTypeColumn(raw: seq<RawChunk>, classify: Crime -> Option<nat>, i: nat)
    requires forall c :: c in raw ==> Rectangular(c)
    requires i < |raw| && AggregatedChunks(raw[..i], classify).Ok?
    requires CleanChunk(raw[i]).Ok? && !Readable(raw[i], classify)
    ensures AggregatedChunks(raw, classify) == Err(KeyError("primary_type"))
  {
    CleanEachFailsAt(raw, AggregationCleaner(classify), i);
  }

  /** For instance: a chunk headed `Date, Latitude, Longitude` whose one row
      has a valid date and a position inside the grid. */
  lemma NoTypeColumnStops(t: DateTime, lat: string, lon: string, classify: Crime -> Option<nat>)
    requires ValidDateTime(t)
    requires forall c: Crime :: c.latitude == lat && c.longitude == lon ==> classify(c).Some?
    ensures AggregatedChunks([RawChunk(["Date", "Latitude", "Longitude"],
                                       [[Value(FormatTimestamp(t)), Value(lat), Value(lon)]])], classify)
            == Err(KeyError("primary_type"))
  {
    var raw := RawChunk(["Date", "Latitude", "Longitude"], [[Value(FormatTimestamp(t)), Value(lat), Value(lon)]]);
    NoTypeColumnChunk(t, lat, lon, classify);
    assert AggregatedChunks([raw][..0], classify).Ok? by {
      assert [raw][..0] == [];
    }
    AggregationStopsWithoutTypeColumn([raw], classify, 0);
  }

  lemma NoTypeColumnChunk(t: DateTime, lat: string, lon: string, classify: Crime -> Option<nat>)
    requires ValidDateTime(t)
    requires forall c: Crime :: c.latitude == lat && c.longitude == lon ==> classify(c).Some?
    ensures var raw := RawChunk(["Date", "Latitude", "Longitude"], [[Value(FormatTimestamp(t)), Value(lat), Value(lon)]]);
      Rectangular(raw) && CleanChunk(raw).Ok? && !Readable(raw, classify)
  {
    var row := [Value(FormatTimestamp(t)), Value(lat), Value(lon)];
    var raw := RawChunk(["Date", "Latitude", "Longitude"], [row]);
    ThreeColumnLayout();
    FormattedRowKept(t, lat, lon);
    var crime := ToCrime(row, Layout(0, 1, 2, None));
    assert CleanChunk(raw) == Ok([crime]);
    assert classify(crime).Some?;
    assert Joined([crime], classify) != [];
  }

  /** A row whose date is written in the loader's format is kept. */
  lemma FormattedRowKept(t: DateTime, lat: string, lon: string)
    requires ValidDateTime(t)
    ensures var row := [Value(FormatTimestamp(t)), Value(lat), Value(lon)];
      Usable(row, Layout(0, 1, 2, None)) && CleanRows([row], Layout(0, 1, 2, None)) == [ToCrime(row, Layout(0, 1, 2, None))]
  {
    var row := [Value(FormatTimestamp(t)), Value(lat), Value(lon)];
    ParseFormatRoundTrip(t);
    assert RowDate(row, Layout(0, 1, 2, None)) == Some(t);
    assert [row][1..] == [];
  }

  /** The header `Date, Latitude, Longitude` gives the loader its three
      columns in place and no `primary_type`. */
  lemma ThreeColumnLayout()
    ensures var cols := Normalized(["Date", "Latitude", "Longitude"], NormalizeColumnName);
      && FindLayout(cols) == Ok(Layout(0, 1, 2, None)) && PointsError(cols).None?
      && "primary_type" !in cols
  {
    ThreeColumnsNormalized();
    ThreeNamesOnce();
    var cols: seq<string> := ["date", "latitude", "longitude"];
    assert IndexOf(cols, "date") == Some(0);
    assert IndexOf(cols, "latitude") == Some(1);
    assert IndexOf(cols, "longitude") == Some(2);
  }

  lemma ThreeColumnsNormalized()
    ensures Normalized(["Date", "Latitude", "Longitude"], NormalizeColumnName) == ["date", "latitude", "longitude"]
  {
    NormalizeDate();
    NormalizeLatitude();
    NormalizeLongitude();
    NormalizedThree(["Date", "Latitude", "Longitude"], NormalizeColumnName);
  }

  lemma ThreeNamesOnce()
    ensures var cols: seq<string> := ["date", "latitude", "longitude"];
      && Occurrences(cols, "date") == 1 && Occurrences(cols, "latitude") == 1
      && Occurrences(cols, "longitude") == 1 && "primary_type" !in cols
  {
    var cols: seq<string> := ["date", "latitude", "longitude"];
    OccursOnce(cols, "date", 0);
    OccursOnce(cols, "latitude", 1);
    OccursOnce(cols, "longitude", 2);
  }

  // ---------------------------------------------------------------------------
  // The feature grid
  // ---------------------------------------------------------------------------

  /** The grid with its counters, as `aggregate_features` builds it. Row `c`
      of `counts` is cell `c`; column `j` is the counter `columns[j]`. */
  class FeatureGrid {
    const cells: nat
    const tracked: seq<string>
    const columns: seq<string>
    const classify: Crime -> Option<nat>
    const counts: array2<nat>
    var streetlights: seq<nat>
    var busStops: seq<nat>
    var monthlyRecords: seq<seq<Group<MonthlyKey>>>
    /** The cleaned chunks processed so far. */
    ghost var chunks: seq<seq<Crime>>

    ghost predicate Valid()
      reads this, counts
    {
      && counts.Length0 == cells && counts.Length1 == |columns|
      && columns == CounterColumns(tracked)
      && LocatesInto(classify, cells)
      && |streetlights| == cells && |busStops| == cells
      && monthlyRecords == MonthlyRecords(chunks, classify)
      && forall c, j :: 0 <= c < cells && 0 <= j < |columns| ==>
           counts[c, j] == ColumnValue(Concat(chunks), classify, tracked, columns[j], c)
    }

    /** Loads the grid: every counter 0, environmental counts filled in, no
        monthly rows yet. */
    constructor (cells: nat, primaryTypes: Option<seq<string>>, classify: Crime -> Option<nat>,
                 locate: Location -> Option<nat>, lights: seq<Location>, stops: seq<Location>)
      requires LocatesInto(classify, cells) && LocatesInto(locate, cells)
      ensures Valid() && fresh(counts)
      ensures this.cells == cells && this.classify == classify && tracked == TrackedTypes(primaryTypes)
      ensures chunks == [] && monthlyRecords == []
      ensures forall c, j :: 0 <= c < cells && 0 <= j < |columns| ==> counts[c, j] == 0
      ensures streetlights == CountPoints(lights, locate, cells) && busStops == CountPoints(stops, locate, cells)
    {
      var tracked := TrackedTypes(primaryTypes);
      var columns := CounterColumns(tracked);
      this.cells := cells;
      this.tracked := tracked;
      this.columns := columns;
      this.classify := classify;
      counts := new nat[cells, |columns|]((c: nat, j: nat) => 0);
      streetlights := CountPoints(lights, locate, cells);
      busStops := CountPoints(stops, locate, cells);
      monthlyRecords := [];
      chunks := [];
      new;
      forall c, j | 0 <= c < cells && 0 <= j < |columns|
        ensures counts[c, j] == ColumnValue([], classify, tracked, columns[j], c)
      {
        ColumnValueEmpty(classify, tracked, columns[j], c);
      }
    }

    /** `grid.loc[sizes.index, column] += sizes.values` for one group-by
        result: each listed cell's counter grows by its row's size. */
    method AddSizes(col: nat, gs: seq<Group<nat>>)
      requires col < counts.Length1
      requires forall i :: 0 <= i < |gs| ==> gs[i].key < counts.Length0
      requires StrictlySorted(gs, CellLess)
      modifies counts
      ensures forall c, j :: 0 <= c < counts.Length0 && 0 <= j < counts.Length1 ==>
                counts[c, j] == old(counts[c, j]) + (if j == col then SizeOf(gs, c) else 0)
    {
      var i := 0;
      assert gs[..0] == [];
      assert forall c: nat :: SizeOf(gs[..0], c) == 0;
      while i < |gs|
        invariant 0 <= i <= |gs|
        invariant forall c, j :: 0 <= c < counts.Length0 && 0 <= j < counts.Length1 ==>
                    counts[c, j] == old(counts[c, j]) + (if j == col then SizeOf(gs[..i], c) else 0)
      {
        forall c ensures SizeOf(gs[..i + 1], c) == SizeOf(gs[..i], c) + (if gs[i].key == c then gs[i].size else 0) {
          assert gs[..i + 1] == gs[..i] + [gs[i]];
          SizeOfConcat(gs[..i], [gs[i]], c);
        }
        counts[gs[i].key, col] := counts[gs[i].key, col] + gs[i].size;
        i := i + 1;
      }
      assert gs[..|gs|] == gs;
    }

    /** The counter updates of one chunk whose join is not empty: the
        per-cell totals, then each tracked type's per-cell counts. */
    method AddChunkCounts(chunk: seq<Crime>)
      requires counts.Length0 == cells && counts.Length1 == |columns|
      requires columns == CounterColumns(tracked) && LocatesInto(classify, cells)
      modifies counts
      ensures forall c, j :: 0 <= c < cells && 0 <= j < |columns| ==>
                counts[c, j] == old(counts[c, j]) + ColumnValue(chunk, classify, tracked, columns[j], c)
    {
      var totals := CellSizes(chunk, classify);
      CellSizesSpec(chunk, classify, cells);
      forall c: nat ensures SizeOf(totals, c) == CountIn(chunk, classify, c) {
        SizeOfCellSizes(chunk, classify, cells, c);
      }
      AddSizes(0, totals);
      assert forall j :: 0 <= j < |columns| ==> (j == 0 <==> columns[j] == TotalColumn);
      AddTypeCounts(chunk);
    }

    /** The per-type loop: each tracked type adds its crimes to its own
        column. */
    method AddTypeCounts(chunk: seq<Crime>)
      requires counts.Length0 == cells && counts.Length1 == |columns|
      requires columns == CounterColumns(tracked) && LocatesInto(classify, cells)
      modifies counts
      ensures forall c, j :: 0 <= c < cells && 0 <= j < |columns| ==>
                counts[c, j] == old(counts[c, j]) + TypeSum(chunk, classify, tracked, columns[j], c)
    {
      var k := 0;
      assert tracked[..0] == [];
      while k < |tracked|
        invariant 0 <= k <= |tracked|
        invariant forall c, j :: 0 <= c < cells && 0 <= j < |columns| ==>
                    counts[c, j] == old(counts[c, j]) + TypeSum(chunk, classify, tracked[..k], columns[j], c)
      {
        label Head:
        AddTypeCount(chunk, tracked[k]);
        forall c, j | 0 <= c < cells && 0 <= j < |columns|
          ensures counts[c, j] == old(counts[c, j]) + TypeSum(chunk, classify, tracked[..k + 1], columns[j], c)
        {
          TypeSumStep(chunk, classify, tracked, k, columns[j], c);
          assert counts[c, j] == old@Head(counts[c, j])
            + (if columns[j] == TypeColumn(tracked[k]) then CountIn(OfType(chunk, tracked[k]), classify, c) else 0);
        }
        k := k + 1;
      }
      assert tracked[..|tracked|] == tracked;
    }

    /** One type's counts: `grid.loc[c.index, f"crime_{ctype.lower()}"] +=
        c.values`, skipped when no crime of the type joined. */
    method AddTypeCount(chunk: seq<Crime>, t: string)
      requires counts.Length0 == cells && counts.Length1 == |columns|
      requires columns == CounterColumns(tracked) && LocatesInto(classify, cells) && t in tracked
      modifies counts
      ensures forall c, j :: 0 <= c < cells && 0 <= j < |columns| ==>
                counts[c, j] == old(counts[c, j])
                  + (if columns[j] == TypeColumn(t) then CountIn(OfType(chunk, t), classify, c) else 0)
    {
      var subset := OfType(chunk, t);
      if Joined(subset, classify) != [] {
        var col := IndexOf(columns, TypeColumn(t)).value;
        assert forall j :: 0 <= j < |columns| ==> (j == col <==> columns[j] == TypeColumn(t));
        var sizes := CellSizes(subset, classify);
        CellSizesSpec(subset, classify, cells);
        forall c: nat ensures SizeOf(sizes, c) == CountIn(subset, classify, c) {
          SizeOfCellSizes(subset, classify, cells, c);
        }
        AddSizes(col, sizes);
      } else {
        forall c: nat ensures CountIn(subset, classify, c) == 0 {
          NoJoinNoCount(subset, classify, c);
        }
      }
    }

    /** One pass of the chunk loop: join the chunk to the grid, add its
        per-cell totals and per-type counts, and append its monthly table;
        a chunk the join leaves empty changes nothing but the chunk list. */
    method ProcessChunk(chunk: seq<Crime>)
      requires Valid()
      modifies this, counts
      ensures Valid()
      ensures chunks == old(chunks) + [chunk]
      ensures monthlyRecords == old(monthlyRecords)
                + (if Joined(chunk, classify) == [] then [] else [MonthlyChunk(chunk, classify)])
      ensures forall c, j :: 0 <= c < cells && 0 <= j < |columns| ==>
                counts[c, j] == old(counts[c, j]) + ColumnValue(chunk, classify, tracked, columns[j], c)
      ensures streetlights == old(streetlights) && busStops == old(busStops)
    {
      ghost var before := Concat(chunks);
      if Joined(chunk, classify) == [] {
        forall c, j | 0 <= c < cells && 0 <= j < |columns|
          ensures ColumnValue(chunk, classify, tracked, columns[j], c) == 0
        {
          ColumnValueNoJoin(chunk, classify, tracked, columns[j], c);
        }
      } else {
        AddChunkCounts(chunk);
        monthlyRecords := monthlyRecords + [MonthlyChunk(chunk, classify)];
      }
      chunks := chunks + [chunk];
      assert chunks[..|chunks| - 1] == old(chunks);
      assert Concat(chunks) == before + chunk;
      forall c, j | 0 <= c < cells && 0 <= j < |columns|
        ensures counts[c, j] == ColumnValue(Concat(chunks), classify, tracked, columns[j], c)
      {
        ColumnValueConcat(before, chunk, classify, tracked, columns[j], c);
      }
    }

    /** The chunk loop over a generator that cleans each raw chunk with
        `clean`: process the chunks in order; the first chunk that fails to
        clean ends the loop with its error. */
    method ProcessAll(raw: seq<RawChunk>, clean: RawChunk --> Result<seq<Crime>, LoadError>)
      returns (err: Option<LoadError>)
      requires Valid() && chunks == []
      requires forall c :: c in raw ==> clean.requires(c)
      modifies this, counts
      ensures Valid()
      ensures CleanEach(raw, clean) == if err.Some? then Err(err.value) else Ok(chunks)
      ensures streetlights == old(streetlights) && busStops == old(busStops)
    {
      var i := 0;
      assert raw[..0] == [];
      while i < |raw|
        invariant 0 <= i <= |raw|
        invariant Valid()
        invariant CleanEach(raw[..i], clean) == Ok(chunks)
        invariant streetlights == old(streetlights) && busStops == old(busStops)
      {
        err := ProcessNext(raw, clean, i);
        if err.Some? {
          return;
        }
        i := i + 1;
      }
      assert raw[..|raw|] == raw;
      return None;
    }

    /** One turn of the chunk loop: clean raw chunk `i`, then process it or
        stop with its error. */
    method ProcessNext(raw: seq<RawChunk>, clean: RawChunk --> Result<seq<Crime>, LoadError>, i: nat)
      returns (err: Option<LoadError>)
      requires Valid() && i < |raw|
      requires forall c :: c in raw ==> clean.requires(c)
      requires CleanEach(raw[..i], clean) == Ok(chunks)
      modifies this, counts
      ensures Valid()
      ensures err.None? ==> CleanEach(raw[..i + 1], clean) == Ok(chunks)
      ensures err.Some? ==> CleanEach(raw, clean) == Err(err.value)
      ensures streetlights == old(streetlights) && busStops == old(busStops)
    {
      var cleaned := clean(raw[i]);
      if cleaned.Err? {
        CleanEachFailsAt(raw, clean, i);
        return Some(cleaned.error);
      }
      CleanEachStep(raw, clean, i);
      ProcessChunk(cleaned.value);
      return None;
    }

    /** The combined monthly table. */
    function Monthly(): seq<Group<MonthlyKey>>
      reads this
    {
      MonthlyTable(monthlyRecords)
    }
  }

  /** `aggregate_features`: load the grid, count the environmental points,
      then clean and process the crime chunks in order. A chunk whose
      columns are missing stops the run with its error. */
  method AggregateFeatures(raw: seq<RawChunk>, primaryTypes: Option<seq<string>>, cells: nat,
                           classify: Crime -> Option<nat>, locate: Location -> Option<nat>,
                           lights: seq<Location>, stops: seq<Location>)
    returns (r: Result<FeatureGrid, LoadError>)
    requires forall c :: c in raw ==> Rectangular(c)
    requires LocatesInto(classify, cells) && LocatesInto(locate, cells)
    ensures r.Err? <==> AggregatedChunks(raw, classify).Err?
    ensures r.Err? ==> r.error == AggregatedChunks(raw, classify).error
    ensures r.Ok? ==> fresh(r.value) && fresh(r.value.counts) && r.value.Valid()
    ensures r.Ok? ==> r.value.chunks == AggregatedChunks(raw, classify).value && r.value.tracked == TrackedTypes(primaryTypes)
    ensures r.Ok? ==> r.value.cells == cells && r.value.classify == classify
    ensures r.Ok? ==> r.value.streetlights == CountPoints(lights, locate, cells)
                      && r.value.busStops == CountPoints(stops, locate, cells)
  {
    var grid := new FeatureGrid(cells, primaryTypes, classify, locate, lights, stops);
    var err := grid.ProcessAll(raw, AggregationCleaner(classify));
    if err.Some? {
      return Err(err.value);
    }
    return Ok(grid);
  }
}
