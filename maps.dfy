/** The dashboard's map data: which column a static map colours, the columns
    the model table gains when the map module loads, and the month-by-month
    roll-up behind the animated map. Figures themselves are not modelled;
    each operation ends with the table the figure is drawn from. */
module Maps {
  import opened Wrappers
  import opened Text
  import opened GroupBy
  import opened LoadData
  import opened Aggregate

  /** One entry of the model table: a missing number, a number or a string. */
  datatype Value = NaN | Num(x: real) | Str(s: string)

  /** The model table's columns by name, every column one entry per row. */
  type Columns = map<string, seq<Value>>

  // ---------------------------------------------------------------------------
  // Module initialisation: the id, gi_z and kde_intensity columns
  // ---------------------------------------------------------------------------

  /** Every column has one entry per row. */
  predicate Shaped(cols: Columns, rows: nat)
  {
    forall c :: c in cols ==> |cols[c]| == rows
  }

  /** A column of missing values. */
  function NaNs(n: nat): (col: seq<Value>)
    ensures |col| == n && forall i :: 0 <= i < n ==> col[i] == NaN
  {
    seq(n, i => NaN)
  }

  /** `index.astype(str)`: each row's label as text. */
  function IdColumn(index: seq<int>): (col: seq<Value>)
    ensures |col| == |index|
  {
    seq(|index|, i requires 0 <= i < |index| => Str(IntToString(index[i])))
  }

  /** The columns after initialisation: `id` from the index; `gi_z` copied
      from `gi_zscore` or filled with NaN when absent; `kde_intensity`
      filled with NaN when absent. */
  function Prepared(cols: Columns, index: seq<int>): Columns
  {
    var withId := cols["id" := IdColumn(index)];
    var withGi :=
      if "gi_zscore" in withId && "gi_z" !in withId then withId["gi_z" := withId["gi_zscore"]]
      else if "gi_z" !in withId then withId["gi_z" := NaNs(|index|)]
      else withId;
    if "kde_intensity" !in withGi then withGi["kde_intensity" := NaNs(|index|)] else withGi
  }

  /** The model table the map module loads, with its row labels. */
  class ModelFrame {
    const index: seq<int>
    var columns: Columns

    ghost predicate Valid()
      reads this
    {
      Shaped(columns, |index|)
    }

    constructor (index: seq<int>, columns: Columns)
      requires Shaped(columns, |index|)
      ensures Valid() && this.index == index && this.columns == columns
    {
      this.index := index;
      this.columns := columns;
    }

    /** Adds the `id`, `gi_z` and `kde_intensity` columns in place. */
    method Prepare()
      requires Valid()
      modifies this
      ensures Valid()
      ensures columns == Prepared(old(columns), index)
    {
      columns := columns["id" := IdColumn(index)];
      if "gi_zscore" in columns && "gi_z" !in columns {
        columns := columns["gi_z" := columns["gi_zscore"]];
      } else if "gi_z" !in columns {
        columns := columns["gi_z" := NaNs(|index|)];
      }
      if "kde_intensity" !in columns {
        columns := columns["kde_intensity" := NaNs(|index|)];
      }
    }
  }

  /** Initialisation adds exactly `id`, `gi_z` and `kde_intensity`; it
      overwrites no column but `id`, so an existing `gi_z` or
      `kde_intensity` is kept; a new `gi_z` is a copy of `gi_zscore` when
      there is one and NaN otherwise; a new `kde_intensity` is NaN; and
      every column keeps one entry per row. */
  lemma PreparedColumns(cols: Columns, index: seq<int>)
    ensures Prepared(cols, index).Keys == cols.Keys + {"id", "gi_z", "kde_intensity"}
    ensures forall c :: c in cols && c != "id" ==> Prepared(cols, index)[c] == cols[c]
    ensures Prepared(cols, index)["id"] == IdColumn(index)
    ensures "gi_z" !in cols ==>
      Prepared(cols, index)["gi_z"] == if "gi_zscore" in cols then cols["gi_zscore"] else NaNs(|index|)
    ensures "kde_intensity" !in cols ==> Prepared(cols, index)["kde_intensity"] == NaNs(|index|)
    ensures Shaped(cols, |index|) ==> Shaped(Prepared(cols, index), |index|)
  {
  }

  /** Loading the module twice changes nothing more. */
  lemma PreparedIdempotent(cols: Columns, index: seq<int>)
    ensures Prepared(Prepared(cols, index), index) == Prepared(cols, index)
  {
    PreparedColumns(cols, index);
    PreparedColumns(Prepared(cols, index), index);
  }

  /** Distinct row labels give distinct ids, so the id names one row. */
  lemma IdsDistinct(index: seq<int>)
    requires forall i, j :: 0 <= i < j < |index| ==> index[i] != index[j]
    ensures forall i, j :: 0 <= i < j < |index| ==> IdColumn(index)[i] != IdColumn(index)[j]
  {
    forall i, j | 0 <= i < j < |index|
      ensures IdColumn(index)[i] != IdColumn(index)[j]
    {
      if IntToString(index[i]) == IntToString(index[j]) {
        IntToStringInjective(index[i], index[j]);
      }
    }
  }

  // ---------------------------------------------------------------------------
  // The static map's value column
  // ---------------------------------------------------------------------------

  /** `get_observed_column`: the total for "ALL", otherwise the counter
      column the aggregator made for the type. */
  function ObservedColumn(crimeType: string): (col: string)
    ensures StartsWith(col, "crime_")
    ensures crimeType == "ALL" ==> col == TotalColumn
    ensures crimeType != "ALL" ==> col == TypeColumn(crimeType)
  {
    if crimeType == "ALL" then TotalColumn else TypeColumn(crimeType)
  }

  /** The observed column of "ALL" or of a tracked type is one of the
      counter columns the aggregator added to the grid. */
  lemma ObservedColumnIsCounter(crimeType: string, tracked: seq<string>)
    requires crimeType == "ALL" || crimeType in tracked
    ensures ObservedColumn(crimeType) in CounterColumns(tracked)
  {
  }

  /** The column a static map colours: observed counts, the Gi* statistic,
      the KDE intensity, or the prediction column the choice names. */
  function ValueColumn(modelChoice: string, crimeType: string): (col: string)
    ensures modelChoice == "observed" ==> col == ObservedColumn(crimeType)
    ensures modelChoice == "hotspot" ==> col == "gi_star"
    ensures modelChoice == "kde" ==> col == "kde_intensity"
    ensures modelChoice !in {"observed", "hotspot", "kde"} ==> col == modelChoice
  {
    if modelChoice == "observed" then ObservedColumn(crimeType)
    else if modelChoice == "hotspot" then "gi_star"
    else if modelChoice == "kde" then "kde_intensity"
    else modelChoice
  }

  /** `df["value"] = df[value_col]`: the column's entries, or a KeyError
      when the table has no such column. */
  function StaticValues(cols: Columns, modelChoice: string, crimeType: string): (r: Result<seq<Value>, LoadError>)
    ensures r.Ok? <==> ValueColumn(modelChoice, crimeType) in cols
    ensures r.Ok? ==> r.value == cols[ValueColumn(modelChoice, crimeType)]
    ensures r.Err? ==> r.error == KeyError(ValueColumn(modelChoice, crimeType))
  {
    var col := ValueColumn(modelChoice, crimeType);
    if col in cols then Ok(cols[col]) else Err(KeyError(col))
  }

  /** After initialisation: the KDE map always finds its column; the
      hotspot map reads `gi_star`, which initialisation does not add, so it
      fails exactly when the model table lacks `gi_star`; the observed map
      finds the total and every tracked type's column when the table holds
      the aggregator's counters. */
  lemma StaticAfterPrepare(cols: Columns, index: seq<int>, crimeType: string, tracked: seq<string>)
    ensures StaticValues(Prepared(cols, index), "kde", crimeType).Ok?
    ensures StaticValues(Prepared(cols, index), "hotspot", crimeType).Ok? <==> "gi_star" in cols
    ensures (forall n :: n in CounterColumns(tracked) ==> n in cols) ==>
      (crimeType == "ALL" || crimeType in tracked) ==>
      StaticValues(Prepared(cols, index), "observed", crimeType).Ok?
  {
    PreparedColumns(cols, index);
    if crimeType == "ALL" || crimeType in tracked {
      ObservedColumnIsCounter(crimeType, tracked);
    }
  }

  // ---------------------------------------------------------------------------
  // The animated map's roll-up
  // ---------------------------------------------------------------------------

  /** The key of the animated map's rows. */
  datatype CellMonth = CellMonth(cellId: nat, month: string)

  /** Python's tuple order on `(cell_id, month)`. */
  predicate CellMonthLess(a: CellMonth, b: CellMonth)
  {
    a.cellId < b.cellId || (a.cellId == b.cellId && StrLess(a.month, b.month))
  }

  lemma CellMonthLessOrder()
    ensures StrictTotalOrder(CellMonthLess)
  {
    forall a: CellMonth ensures !CellMonthLess(a, a) {
      StrLessIrreflexive(a.month);
    }
    forall a: CellMonth, b: CellMonth, c: CellMonth | CellMonthLess(a, b) && CellMonthLess(b, c)
      ensures CellMonthLess(a, c)
    {
      if a.cellId == b.cellId == c.cellId {
        StrLessTransitive(a.month, b.month, c.month);
      }
    }
    forall a: CellMonth, b: CellMonth ensures a == b || CellMonthLess(a, b) || CellMonthLess(b, a) {
      StrLessTrichotomy(a.month, b.month);
    }
  }

  /** The three filters: "ALL" keeps every type and any other type only its
      own rows; only rows at the chosen hour (a missing hour equals no
      row's hour); a day filter only when days are given. */
  predicate Selected(k: MonthlyKey, crimeType: string, hour: Option<int>, dows: Option<seq<int>>)
  {
    && (crimeType == "ALL" || k.primaryType == crimeType)
    && hour == Some(k.hour)
    && (dows.None? || dows.value == [] || k.dow in dows.value)
  }

  /** A monthly row passes the filters and falls in cell and month `cm`. */
  predicate SelectedIn(k: MonthlyKey, crimeType: string, hour: Option<int>, dows: Option<seq<int>>, cm: CellMonth)
  {
    Selected(k, crimeType, hour, dows) && k.cellId == cm.cellId && k.month == cm.month
  }

  /** A monthly row's `(cell_id, month)` when it passes the filters. */
  function Selector(crimeType: string, hour: Option<int>, dows: Option<seq<int>>): MonthlyKey -> Option<CellMonth>
  {
    k => if Selected(k, crimeType, hour, dows) then Some(CellMonth(k.cellId, k.month)) else None
  }

  /** Filter, then group by `(cell_id, month)` summing `crime_count`. */
  function RollUp(monthly: seq<Group<MonthlyKey>>, crimeType: string, hour: Option<int>, dows: Option<seq<int>>): seq<Group<CellMonth>>
  {
    Tally(Project(monthly, Selector(crimeType, hour, dows)), CellMonthLess)
  }

  /** The count of the monthly rows that pass the filters and fall in the
      given cell and month: the reference the roll-up is checked against. */
  function SelectedCount(monthly: seq<Group<MonthlyKey>>, crimeType: string, hour: Option<int>, dows: Option<seq<int>>, cm: CellMonth): nat
  {
    if monthly == [] then 0
    else
      var k := monthly[0].key;
      (if SelectedIn(k, crimeType, hour, dows, cm) then monthly[0].size else 0)
        + SelectedCount(monthly[1..], crimeType, hour, dows, cm)
  }

  /** The sum of `crime_count` over all rows that pass the filters. */
  function SelectedTotal(monthly: seq<Group<MonthlyKey>>, crimeType: string, hour: Option<int>, dows: Option<seq<int>>): nat
  {
    if monthly == [] then 0
    else
      (if Selected(monthly[0].key, crimeType, hour, dows) then monthly[0].size else 0)
        + SelectedTotal(monthly[1..], crimeType, hour, dows)
  }

  lemma {:induction false} ProjectSelected(monthly: seq<Group<MonthlyKey>>, crimeType: string, hour: Option<int>, dows: Option<seq<int>>, cm: CellMonth)
    ensures Weight(Project(monthly, Selector(crimeType, hour, dows)), cm) == SelectedCount(monthly, crimeType, hour, dows, cm)
    ensures Occurs(Project(monthly, Selector(crimeType, hour, dows)), cm) <==>
      exists i :: 0 <= i < |monthly| && SelectedIn(monthly[i].key, crimeType, hour, dows, cm)
    ensures TotalWeight(Project(monthly, Selector(crimeType, hour, dows))) == SelectedTotal(monthly, crimeType, hour, dows)
  {
    if monthly != [] {
      var sel := Selector(crimeType, hour, dows);
      var k := monthly[0].key;
      var head: seq<(CellMonth, nat)> := match sel(k) case Some(j) => [(j, monthly[0].size)] case None => [];
      ProjectSelected(monthly[1..], crimeType, hour, dows, cm);
      ConcatWeights(head, Project(monthly[1..], sel), cm);
      assert Project(monthly, sel) == head + Project(monthly[1..], sel);
      var rest := monthly[1..];
      if exists i :: 0 <= i < |rest| && SelectedIn(rest[i].key, crimeType, hour, dows, cm) {
        var i :| 0 <= i < |rest| && SelectedIn(rest[i].key, crimeType, hour, dows, cm);
        assert monthly[i + 1] == monthly[1..][i];
      }
      if exists i :: 0 <= i < |monthly| && SelectedIn(monthly[i].key, crimeType, hour, dows, cm) {
        var i :| 0 <= i < |monthly| && SelectedIn(monthly[i].key, crimeType, hour, dows, cm);
        if i > 0 {
          assert monthly[1..][i - 1] == monthly[i];
        }
      }
    }
  }

  /** The roll-up has one row per `(cell_id, month)` that some filtered row
      falls in, in key order, and that row sums their `crime_count`; the
      rows together hold the whole filtered count. */
  lemma RollUpSpec(monthly: seq<Group<MonthlyKey>>, crimeType: string, hour: Option<int>, dows: Option<seq<int>>, cm: CellMonth)
    ensures StrictlySorted(RollUp(monthly, crimeType, hour, dows), CellMonthLess)
    ensures Lookup(RollUp(monthly, crimeType, hour, dows), cm) ==
      if exists i :: 0 <= i < |monthly| && SelectedIn(monthly[i].key, crimeType, hour, dows, cm)
      then Some(SelectedCount(monthly, crimeType, hour, dows, cm))
      else None
    ensures TotalSize(RollUp(monthly, crimeType, hour, dows)) == SelectedTotal(monthly, crimeType, hour, dows)
  {
    var items := Project(monthly, Selector(crimeType, hour, dows));
    CellMonthLessOrder();
    TallySorted(items, CellMonthLess);
    TallyLookup(items, CellMonthLess, cm);
    TallyTotal(items, CellMonthLess);
    ProjectSelected(monthly, crimeType, hour, dows, cm);
  }

  /** The monthly table the aggregator writes, re-grouped under any
      selection, carries the same weights as the crimes of all chunks taken
      together. */
  lemma {:induction false} MonthlyTableWeights<J>(chunks: seq<seq<Crime>>, classify: Crime -> Option<nat>, select: MonthlyKey -> Option<J>, j: J)
    ensures Occurs(Project(MonthlyTable(MonthlyRecords(chunks, classify)), select), j)
         == Occurs(ProjectItems(MonthlyItems(Concat(chunks), classify), select), j)
    ensures Weight(Project(MonthlyTable(MonthlyRecords(chunks, classify)), select), j)
         == Weight(ProjectItems(MonthlyItems(Concat(chunks), classify), select), j)
  {
    if chunks != [] {
      var init := chunks[..|chunks| - 1];
      var last := chunks[|chunks| - 1];
      var before := MonthlyRecords(init, classify);
      MonthlyTableWeights(init, classify, select, j);
      MonthlyItemsConcat(Concat(init), last, classify);
      var earlier := ProjectItems(MonthlyItems(Concat(init), classify), select);
      var later := ProjectItems(MonthlyItems(last, classify), select);
      ProjectItemsConcat(MonthlyItems(Concat(init), classify), MonthlyItems(last, classify), select);
      ConcatWeights(earlier, later, j);
      if Joined(last, classify) == [] {
        MonthlyItemsNoJoin(last, classify);
        assert MonthlyRecords(chunks, classify) == before;
        assert later == [];
      } else {
        var records := before + [MonthlyChunk(last, classify)];
        assert records[..|records| - 1] == before;
        assert MonthlyTable(records) == MonthlyTable(before) + MonthlyChunk(last, classify);
        ProjectConcat(MonthlyTable(before), MonthlyChunk(last, classify), select);
        ConcatWeights(Project(MonthlyTable(before), select), Project(MonthlyChunk(last, classify), select), j);
        ProjectTally(MonthlyItems(last, classify), MonthlyLess, select, j);
      }
    }
  }

  /** Rows that the aggregator kept apart because they came from different
      chunks are merged by the roll-up: the animated map is the same as if
      all crimes had been aggregated in one chunk. */
  lemma RollUpIgnoresChunking(chunks: seq<seq<Crime>>, classify: Crime -> Option<nat>,
                              crimeType: string, hour: Option<int>, dows: Option<seq<int>>)
    ensures RollUp(MonthlyTable(MonthlyRecords(chunks, classify)), crimeType, hour, dows)
         == RollUp(MonthlyChunk(Concat(chunks), classify), crimeType, hour, dows)
  {
    var sel := Selector(crimeType, hour, dows);
    var split := Project(MonthlyTable(MonthlyRecords(chunks, classify)), sel);
    var whole := Project(MonthlyChunk(Concat(chunks), classify), sel);
    forall cm ensures Occurs(split, cm) == Occurs(whole, cm) && Weight(split, cm) == Weight(whole, cm) {
      MonthlyTableWeights(chunks, classify, sel, cm);
      ProjectTally(MonthlyItems(Concat(chunks), classify), MonthlyLess, sel, cm);
    }
    CellMonthLessOrder();
    TallyDeterminedByWeights(split, whole, CellMonthLess);
  }

  // ---------------------------------------------------------------------------
  // Attaching the map ids
  // ---------------------------------------------------------------------------

  /** One row of the animated map's table. */
  datatype Frame = Frame(cellId: nat, month: string, crimeCount: nat, id: Option<string>)

  datatype Animation = NoMonthlyData | Frames(rows: seq<Frame>)

  /** The ids of the model-table rows whose `cell_id` is `c`, in row order. */
  function IdsOf(c: nat, cellIds: seq<(nat, string)>): seq<string>
  {
    if cellIds == [] then []
    else (if cellIds[0].0 == c then [cellIds[0].1] else []) + IdsOf(c, cellIds[1..])
  }

  /** A left merge on `cell_id`: each rolled-up row once per matching
      model-table row, or once with no id when none matches. */
  function MergeIds(gs: seq<Group<CellMonth>>, cellIds: seq<(nat, string)>): seq<Frame>
  {
    if gs == [] then []
    else
      var g := gs[0];
      var ids := IdsOf(g.key.cellId, cellIds);
      (if ids == [] then [Frame(g.key.cellId, g.key.month, g.size, None)]
       else seq(|ids|, i requires 0 <= i < |ids| => Frame(g.key.cellId, g.key.month, g.size, Some(ids[i]))))
        + MergeIds(gs[1..], cellIds)
  }

  /** The `(cell_id, id)` pairs of a model table whose row i is cell i. */
  function GridIds(n: nat): (pairs: seq<(nat, string)>)
    ensures |pairs| == n
  {
    seq(n, i requires 0 <= i < n => (i, IntToString(i)))
  }

  lemma {:induction false} IdsOfGrid(c: nat, n: nat)
    ensures IdsOf(c, GridIds(n)) == if c < n then [IntToString(c)] else []
  {
    if n > 0 {
      var pairs := GridIds(n);
      assert pairs == GridIds(n - 1) + [(n - 1, IntToString(n - 1))];
      IdsOfConcat(c, GridIds(n - 1), [(n - 1, IntToString(n - 1))]);
      IdsOfGrid(c, n - 1);
    }
  }

  lemma {:induction false} IdsOfConcat(c: nat, a: seq<(nat, string)>, b: seq<(nat, string)>)
    ensures IdsOf(c, a + b) == IdsOf(c, a) + IdsOf(c, b)
  {
    if a == [] {
      assert a + b == b;
    } else {
      assert (a + b)[1..] == a[1..] + b;
      IdsOfConcat(c, a[1..], b);
    }
  }

  /** Against a model table whose row i is cell i, the merge keeps every
      rolled-up row once, with its count, and labels it with the text of its
      cell id, or with no id for a cell the table does not have. */
  lemma {:induction false} MergeGridIds(gs: seq<Group<CellMonth>>, n: nat)
    ensures |MergeIds(gs, GridIds(n))| == |gs|
    ensures forall i :: 0 <= i < |gs| ==>
      MergeIds(gs, GridIds(n))[i] == Frame(gs[i].key.cellId, gs[i].key.month, gs[i].size,
                                           if gs[i].key.cellId < n then Some(IntToString(gs[i].key.cellId)) else None)
  {
    if gs != [] {
      IdsOfGrid(gs[0].key.cellId, n);
      MergeGridIds(gs[1..], n);
    }
  }

  /** `make_animated_map`: the placeholder when the monthly table is empty;
      otherwise the filtered roll-up with the map ids attached. */
  function AnimatedMap(monthly: seq<Group<MonthlyKey>>, crimeType: string, hour: Option<int>,
                       dows: Option<seq<int>>, cellIds: seq<(nat, string)>): (r: Animation)
    ensures r.NoMonthlyData? <==> monthly == []
    ensures r.Frames? ==> r.rows == MergeIds(RollUp(monthly, crimeType, hour, dows), cellIds)
  {
    if monthly == [] then NoMonthlyData
    else Frames(MergeIds(RollUp(monthly, crimeType, hour, dows), cellIds))
  }
}
