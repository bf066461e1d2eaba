/** The crime types the dashboard offers, read back from the columns of the
    model table. */
module RunApp {
  import opened Wrappers
  import opened Text
  import opened Aggregate

  datatype AppError = FileNotFound(message: string)

  // ---------------------------------------------------------------------------
  // Python's sorted() on strings
  // ---------------------------------------------------------------------------

  predicate Sorted(s: seq<string>)
  {
    forall i, j :: 0 <= i < j < |s| ==> StrLessEq(s[i], s[j])
  }

  /** Inserts `x` before the first element not below it. */
  function Insert(x: string, s: seq<string>): (r: seq<string>)
    requires Sorted(s)
    ensures multiset(r) == multiset(s) + multiset{x}
    ensures Sorted(r)
  {
    if s == [] then [x]
    else if StrLessEq(x, s[0]) then
      InsertFront(x, s);
      [x] + s
    else
      var rest := Insert(x, s[1..]);
      assert s == [s[0]] + s[1..];
      InsertBehind(x, s, rest);
      [s[0]] + rest
  }

  /** An element not above the head of a sorted list may go in front. */
  lemma InsertFront(x: string, s: seq<string>)
    requires Sorted(s) && s != [] && StrLessEq(x, s[0])
    ensures Sorted([x] + s)
  {
    forall j | 0 <= j < |s| ensures StrLessEq(x, s[j]) {
      if x != s[0] && s[0] != s[j] {
        StrLessTransitive(x, s[0], s[j]);
      }
    }
    forall i, j | 0 <= i < j < |s| + 1 ensures StrLessEq(([x] + s)[i], ([x] + s)[j]) {
      if i > 0 {
        assert ([x] + s)[i] == s[i - 1];
      }
      assert ([x] + s)[j] == s[j - 1];
    }
  }

  /** The head of a sorted list stays in front of the rest with an element
      above it inserted. */
  lemma InsertBehind(x: string, s: seq<string>, rest: seq<string>)
    requires Sorted(s) && s != [] && !StrLessEq(x, s[0])
    requires Sorted(rest) && multiset(rest) == multiset(s[1..]) + multiset{x}
    ensures Sorted([s[0]] + rest)
  {
    StrLessTrichotomy(x, s[0]);
    forall j | 0 <= j < |rest| ensures StrLessEq(s[0], rest[j]) {
      assert rest[j] in multiset(rest);
      if rest[j] != x {
        assert rest[j] in multiset(s[1..]);
        var k :| 0 <= k < |s[1..]| && s[1..][k] == rest[j];
        assert s[k + 1] == rest[j];
      }
    }
  }

  /** `sorted(names)`: ascending in Python's string order, the same names
      with the same multiplicities. */
  function Sort(names: seq<string>): (r: seq<string>)
    ensures Sorted(r)
    ensures multiset(r) == multiset(names)
  {
    if names == [] then []
    else
      assert names == names[..|names| - 1] + [names[|names| - 1]];
      Insert(names[|names| - 1], Sort(names[..|names| - 1]))
  }

  // ---------------------------------------------------------------------------
  // extract_crime_types
  // ---------------------------------------------------------------------------

  /** A per-type counter column: named `crime_…` and not the total. */
  predicate IsTypeColumn(c: string)
  {
    StartsWith(c, "crime_") && c != TotalColumn
  }

  /** The type counter columns, in table order. */
  function TypeColumns(columns: seq<string>): (r: seq<string>)
    ensures forall c :: c in r <==> c in columns && IsTypeColumn(c)
    ensures |r| <= |columns|
  {
    if columns == [] then []
    else
      var init := TypeColumns(columns[..|columns| - 1]);
      var last := columns[|columns| - 1];
      assert columns == columns[..|columns| - 1] + [last];
      if IsTypeColumn(last) then init + [last] else init
  }

  /** `c.replace("crime_", "").upper()`: every occurrence removed, not just
      the prefix. */
  function TypeName(column: string): string
  {
    Upper(ReplaceAll(column, "crime_", ""))
  }

  function TypeNames(columns: seq<string>): (r: seq<string>)
    ensures |r| == |columns|
  {
    seq(|columns|, i requires 0 <= i < |columns| => TypeName(columns[i]))
  }

  /** `extract_crime_types`: a missing model file is an error raised before
      anything is read; otherwise the names of the type counter columns,
      turned back into type names and sorted. `model` is the file's column
      list, None when the file does not exist. */
  function ExtractCrimeTypes(path: string, model: Option<seq<string>>): (r: Result<seq<string>, AppError>)
    ensures r.Err? <==> model.None?
    ensures r.Err? ==> r.error == FileNotFound("Model file not found: " + path + ". Run run_pipeline.py first.")
    ensures r.Ok? ==> Sorted(r.value)
    ensures r.Ok? ==> multiset(r.value) == multiset(TypeNames(TypeColumns(model.value)))
    ensures r.Ok? ==> |r.value| == |TypeColumns(model.value)|
  {
    if model.None? then Err(FileNotFound("Model file not found: " + path + ". Run run_pipeline.py first."))
    else
      var names := TypeNames(TypeColumns(model.value));
      var sorted := Sort(names);
      assert |sorted| == |multiset(sorted)| == |multiset(names)| == |names|;
      Ok(sorted)
  }

  /** The column name of a type without lower-case letters, whose lower-case
      form does not contain `crime_`, reads back as the type itself. */
  lemma TypeNameRoundTrip(t: string)
    requires forall i :: 0 <= i < |t| ==> !IsLowerChar(t[i])
    requires !Contains(Lower(t), "crime_")
    ensures TypeName(TypeColumn(t)) == t
  {
    var col := TypeColumn(t);
    assert col[..6] == "crime_";
    assert col[6..] == Lower(t);
    ReplaceAbsent(Lower(t), "crime_", "");
    assert ReplaceAll(col, "crime_", "") == Lower(t);
    UpperLowerRoundTrip(t);
  }

  /** A type the dashboard may offer: it survives the trip through its
      counter column's name and that name is not the total's. */
  predicate Offerable(t: string)
  {
    && (forall i :: 0 <= i < |t| ==> !IsLowerChar(t[i]))
    && !Contains(Lower(t), "crime_")
    && TypeColumn(t) != TotalColumn
  }

  /** Against a model table holding the aggregator's counters and no other
      `crime_` column, the dashboard offers exactly the tracked types. */
  lemma OffersTrackedTypes(tracked: seq<string>, others: seq<string>, path: string)
    requires forall t :: t in tracked ==> Offerable(t)
    requires forall c :: c in others ==> !StartsWith(c, "crime_")
    ensures ExtractCrimeTypes(path, Some(CounterColumns(tracked) + others)).Ok?
    ensures forall t :: t in ExtractCrimeTypes(path, Some(CounterColumns(tracked) + others)).value <==> t in tracked
  {
    var columns := CounterColumns(tracked) + others;
    var kept := TypeColumns(columns);
    var names := TypeNames(kept);
    var r := ExtractCrimeTypes(path, Some(columns)).value;
    forall x ensures x in r <==> x in tracked {
      assert x in r <==> x in multiset(names);
      if x in names {
        var i :| 0 <= i < |names| && names[i] == x;
        assert kept[i] in kept;
        assert kept[i] in CounterColumns(tracked);
        var t :| t in tracked && kept[i] == TypeColumn(t);
        TypeNameRoundTrip(t);
      }
      if x in tracked {
        assert TypeColumn(x) in CounterColumns(tracked);
        assert TypeColumn(x)[..6] == "crime_";
        assert TypeColumn(x) in kept;
        var i :| 0 <= i < |kept| && kept[i] == TypeColumn(x);
        TypeNameRoundTrip(x);
        assert names[i] == x;
      }
    }
  }
}
