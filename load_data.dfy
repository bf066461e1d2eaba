/** The crime loader: each CSV chunk gets normalised column names, a parsed
    `date` (NaT when it does not parse), loses the rows without a usable date
    or coordinates, and gains the derived `month`, `hour` and `dow` fields.
    Also the in-memory `load_crimes`, whose column-name handling differs. */
module LoadData {
  import opened Wrappers
  import opened Text
  import opened Timestamps

  /** One CSV cell as the reader hands it over: NaN or a value. */
  datatype Field = Missing | Value(text: string)

  /** One chunk of the CSV: its header and its rows. */
  datatype RawChunk = RawChunk(header: seq<string>, rows: seq<seq<Field>>)

  /** Every row has one cell per column, as in a data frame. */
  predicate Rectangular(c: RawChunk)
  {
    forall row :: row in c.rows ==> |row| == |c.header|
  }

  /** A cleaned crime record: the fields the aggregation reads. */
  datatype Crime = Crime(
    date: DateTime,
    month: string,
    hour: int,
    dow: int,
    primaryType: Option<string>,
    latitude: string,
    longitude: string)

  /** What pandas raises for the header of a chunk: `KeyError` naming the
      column `chunk["date"]` looks up, `KeyError` listing every absent column
      of a `dropna` subset, or a refusal (`ValueError`) when a column read as
      one series occurs twice after normalisation. */
  datatype LoadError = KeyError(column: string) | MissingColumns(columns: seq<string>) | DuplicateColumn(column: string)

  // ---------------------------------------------------------------------------
  // Column names
  // ---------------------------------------------------------------------------

  /** `columns.str.strip().str.lower().str.replace(" ", "_")`; replacing the
      one-character " " is the character-wise map (`ReplaceCharIsReplace`). */
  function NormalizeColumnName(name: string): (r: string)
    ensures IsStripped(r) && IsLowerCase(r)
    ensures forall i :: 0 <= i < |r| ==> r[i] != ' '
  {
    var stripped := Strip(name);
    StripIsStripped(name);
    var lowered := Lower(stripped);
    LowerStripped(stripped);
    SpacesToUnderscores(lowered);
    ReplaceChar(lowered, ' ', '_')
  }

  /** Turning spaces into underscores leaves no space, and keeps a stripped
      lower-case string stripped and lower-case. */
  lemma SpacesToUnderscores(s: string)
    requires IsStripped(s) && IsLowerCase(s)
    ensures var r := ReplaceChar(s, ' ', '_');
      IsStripped(r) && IsLowerCase(r) && forall i :: 0 <= i < |r| ==> r[i] != ' '
  {
    var r := ReplaceChar(s, ' ', '_');
    if s != [] {
      assert r[0] == s[0] && r[|s| - 1] == s[|s| - 1];
    }
  }

  /** The normalisation is Python's strip, lower and replace. */
  lemma NormalizeIsReplace(name: string)
    ensures NormalizeColumnName(name) == ReplaceAll(Lower(Strip(name)), " ", "_")
  {
    ReplaceCharIsReplace(Lower(Strip(name)), ' ', '_');
  }

  /** Normalising an already normalised name changes nothing. */
  lemma NormalizeIdempotent(name: string)
    ensures NormalizeColumnName(NormalizeColumnName(name)) == NormalizeColumnName(name)
  {
    var n := NormalizeColumnName(name);
    StripStripped(n);
    LowerOfLowerCase(n);
  }

  /** A name without outer whitespace is only lower-cased and has its
      spaces replaced. */
  lemma NormalizeStrippedName(name: string)
    requires IsStripped(name)
    ensures NormalizeColumnName(name) == ReplaceChar(Lower(name), ' ', '_')
  {
    StripStripped(name);
  }

  /** The portal's "Primary Type" header becomes the `primary_type` column
      that the aggregation groups and filters by. */
  lemma NormalizePrimaryType()
    ensures NormalizeColumnName("Primary Type") == "primary_type"
  {
    NormalizeStrippedName("Primary Type");
    LowerPrimaryType();
    UnderscorePrimaryType();
  }

  lemma UnderscorePrimaryType()
    ensures ReplaceChar("primary type", ' ', '_') == "primary_type"
  {
    var r := ReplaceChar("primary type", ' ', '_');
    assert forall i :: 0 <= i < |r| ==> r[i] == "primary_type"[i];
  }

  lemma LowerPrimaryType()
    ensures Lower("Primary Type") == "primary type"
  {
    var l := Lower("Primary Type");
    assert forall i :: 0 <= i < |l| ==> l[i] == "primary type"[i];
  }

  /** `load_crimes` only lower-cases: "Primary Type" becomes "primary type",
      which is not the name its own `primary_type` filter looks up. */
  lemma LowerOnlyKeepsTheSpace()
    ensures Lower("Primary Type") == "primary type"
    ensures Lower("Primary Type") != NormalizeColumnName("Primary Type")
  {
    NormalizePrimaryType();
    LowerPrimaryType();
    assert "primary type"[7] != "primary_type"[7];
  }

  /** Position of the first column called `name`. */
  function IndexOf(names: seq<string>, name: string): (r: Option<nat>)
    ensures r.Some? ==> r.value < |names| && names[r.value] == name
    ensures r.Some? ==> forall j :: 0 <= j < r.value ==> names[j] != name
    ensures r.None? ==> name !in names
  {
    if names == [] then None
    else if names[0] == name then Some(0)
    else match IndexOf(names[1..], name)
      case None => None
      case Some(i) => Some(i + 1)
  }

  /** How many columns are called `name`. */
  function Occurrences(names: seq<string>, name: string): (n: nat)
    ensures n == 0 <==> name !in names
    ensures n <= |names|
  {
    if names == [] then 0
    else (if names[0] == name then 1 else 0) + Occurrences(names[1..], name)
  }

  /** The names of `wanted` that are not columns, in the order of `wanted`. */
  function Absent(cols: seq<string>, wanted: seq<string>): (r: seq<string>)
    ensures forall n :: n in r <==> n in wanted && n !in cols
  {
    if wanted == [] then []
    else (if wanted[0] in cols then [] else [wanted[0]]) + Absent(cols, wanted[1..])
  }

  /** The header after mapping every name. */
  function Normalized(names: seq<string>, normalize: string -> string): (r: seq<string>)
    ensures |r| == |names|
  {
    if names == [] then [] else [normalize(names[0])] + Normalized(names[1..], normalize)
  }

  // ---------------------------------------------------------------------------
  // Rows
  // ---------------------------------------------------------------------------

  /** Where the columns a crime record needs sit in the chunk. */
  datatype Layout = Layout(date: nat, latitude: nat, longitude: nat, primaryType: Option<nat>)

  predicate Fits(layout: Layout, width: nat)
  {
    && layout.date < width && layout.latitude < width && layout.longitude < width
    && (layout.primaryType.Some? ==> layout.primaryType.value < width)
  }

  /** The columns `dropna` checks. */
  const DropnaSubset: seq<string> := ["date", "latitude", "longitude"]

  /** Looks up `date` (`chunk["date"]`: a KeyError when absent; when it
      occurs twice `to_datetime` is handed a frame and refuses it), then the
      `dropna` subset (a KeyError listing every absent one), and
      `primary_type` if present. */
  function FindLayout(cols: seq<string>): (r: Result<Layout, LoadError>)
    ensures r.Ok? ==> Fits(r.value, |cols|)
    ensures r.Ok? ==> cols[r.value.date] == "date" && cols[r.value.latitude] == "latitude"
                      && cols[r.value.longitude] == "longitude"
    ensures r.Ok? <==> Occurrences(cols, "date") == 1 && "latitude" in cols && "longitude" in cols
    ensures "date" !in cols ==> r == Err(KeyError("date"))
    ensures Occurrences(cols, "date") > 1 ==> r == Err(DuplicateColumn("date"))
    ensures r.Err? && r.error.MissingColumns? ==>
              r.error.columns != [] && forall n :: n in r.error.columns <==> n in DropnaSubset && n !in cols
  {
    if "date" !in cols then Err(KeyError("date"))
    else if Occurrences(cols, "date") > 1 then Err(DuplicateColumn("date"))
    else if "latitude" !in cols || "longitude" !in cols then
      assert "latitude" !in cols ==> "latitude" in Absent(cols, DropnaSubset);
      Err(MissingColumns(Absent(cols, DropnaSubset)))
    else
      Ok(Layout(IndexOf(cols, "date").value, IndexOf(cols, "latitude").value,
                IndexOf(cols, "longitude").value, IndexOf(cols, "primary_type")))
  }

  /** `points_from_xy(chunk["longitude"], chunk["latitude"])` needs one
      column of each; a duplicated one is refused. */
  function PointsError(cols: seq<string>): (r: Option<LoadError>)
    ensures r.None? <==> Occurrences(cols, "longitude") <= 1 && Occurrences(cols, "latitude") <= 1
  {
    if Occurrences(cols, "longitude") > 1 then Some(DuplicateColumn("longitude"))
    else if Occurrences(cols, "latitude") > 1 then Some(DuplicateColumn("latitude"))
    else None
  }

  /** The date of a row, NaT (`None`) when missing or unparsable. */
  function RowDate(row: seq<Field>, layout: Layout): Option<DateTime>
    requires Fits(layout, |row|)
  {
    match row[layout.date]
    case Missing => None
    case Value(s) => ParseTimestamp(s)
  }

  /** `dropna(subset=["date", "latitude", "longitude"])` keeps the row. */
  predicate Usable(row: seq<Field>, layout: Layout)
    requires Fits(layout, |row|)
  {
    RowDate(row, layout).Some? && row[layout.latitude].Value? && row[layout.longitude].Value?
  }

  /** The record of a kept row with its derived fields. */
  function ToCrime(row: seq<Field>, layout: Layout): (c: Crime)
    requires Fits(layout, |row|) && Usable(row, layout)
    ensures 0 <= c.hour <= 23 && 0 <= c.dow <= 6 && |c.month| == 7
    ensures ValidDateTime(c.date) && c.month == MonthPeriod(c.date)
  {
    var date := RowDate(row, layout).value;
    MonthPeriodSpec(date);
    Crime(
      date,
      MonthPeriod(date),
      date.hour,
      DayOfWeek(date),
      match layout.primaryType
        case Some(i) => (match row[i] case Missing => None case Value(s) => Some(s))
        case None => None,
      row[layout.latitude].text,
      row[layout.longitude].text)
  }

  /** The kept rows of a chunk, in order, as crime records. */
  function CleanRows(rows: seq<seq<Field>>, layout: Layout): (r: seq<Crime>)
    requires forall row :: row in rows ==> Fits(layout, |row|)
    ensures |r| <= |rows|
    ensures forall c :: c in r ==> 0 <= c.hour <= 23 && 0 <= c.dow <= 6 && |c.month| == 7
  {
    if rows == [] then []
    else (if Usable(rows[0], layout) then [ToCrime(rows[0], layout)] else []) + CleanRows(rows[1..], layout)
  }

  /** Cleaning works row by row, so it commutes with cutting the rows into
      chunks. */
  lemma {:induction false} CleanRowsConcat(a: seq<seq<Field>>, b: seq<seq<Field>>, layout: Layout)
    requires forall row :: row in a + b ==> Fits(layout, |row|)
    ensures CleanRows(a + b, layout) == CleanRows(a, layout) + CleanRows(b, layout)
  {
    if a == [] {
      assert a + b == b;
    } else {
      assert (a + b)[1..] == a[1..] + b;
      CleanRowsConcat(a[1..], b, layout);
    }
  }

  /** A row is kept exactly when its date parses and both coordinates are
      present, and every record comes from such a row. */
  lemma {:induction false} CleanRowsExact(rows: seq<seq<Field>>, layout: Layout)
    requires forall row :: row in rows ==> Fits(layout, |row|)
    ensures forall i :: 0 <= i < |rows| && Usable(rows[i], layout) ==> ToCrime(rows[i], layout) in CleanRows(rows, layout)
    ensures forall c :: c in CleanRows(rows, layout) ==>
              exists i :: 0 <= i < |rows| && Usable(rows[i], layout) && c == ToCrime(rows[i], layout)
  {
    if rows != [] {
      CleanRowsExact(rows[1..], layout);
      forall c | c in CleanRows(rows, layout)
        ensures exists i :: 0 <= i < |rows| && Usable(rows[i], layout) && c == ToCrime(rows[i], layout)
      {
        if c !in CleanRows(rows[1..], layout) {
          assert Usable(rows[0], layout) && c == ToCrime(rows[0], layout);
        } else {
          var i :| 0 <= i < |rows[1..]| && Usable(rows[1..][i], layout) && c == ToCrime(rows[1..][i], layout);
          assert rows[i + 1] == rows[1..][i];
        }
      }
      forall i | 0 <= i < |rows| && Usable(rows[i], layout)
        ensures ToCrime(rows[i], layout) in CleanRows(rows, layout)
      {
        if i > 0 {
          assert rows[i] == rows[1..][i - 1];
        }
      }
    }
  }

  /** One chunk of `iter_crime_chunks`: normalise the names, locate the
      columns, drop the unusable rows and derive the temporal fields. */
  function CleanChunk(chunk: RawChunk): (r: Result<seq<Crime>, LoadError>)
    requires Rectangular(chunk)
    ensures var cols := Normalized(chunk.header, NormalizeColumnName);
      r.Ok? <==> Occurrences(cols, "date") == 1 && Occurrences(cols, "latitude") == 1
                 && Occurrences(cols, "longitude") == 1
    ensures r.Ok? ==> |r.value| <= |chunk.rows|
  {
    var cols := Normalized(chunk.header, NormalizeColumnName);
    var layout :- FindLayout(cols);
    if PointsError(cols).Some? then Err(PointsError(cols).value) else Ok(CleanRows(chunk.rows, layout))
  }

  /** A date in another format is NaT and its row is dropped; nothing raises. */
  lemma UnparsableDateDropped(lat: string, lon: string)
    ensures ParseTimestamp("2024-01-05 10:00:00") == None
    ensures CleanRows([[Value("2024-01-05 10:00:00"), Value(lat), Value(lon)]], Layout(0, 1, 2, None)) == []
  {
    IsoDateUnparsed();
    var row := [Value("2024-01-05 10:00:00"), Value(lat), Value(lon)];
    assert !Usable(row, Layout(0, 1, 2, None));
    assert [row][1..] == [];
  }

  /** The ISO spelling stops the month field after four digits. */
  lemma IsoDateUnparsed()
    ensures ParseTimestamp("2024-01-05 10:00:00") == None
  {
    IsoMonthRejected();
    assert DatePart("2024-01-05 10:00:00") == None;
  }

  /** Four digits where the month should be do not make a month. */
  lemma IsoMonthRejected()
    ensures Field2("2024-01-05 10:00:00", 1, 12) == None
  {
    assert "2024-01-05 10:00:00" == "2024" + "-01-05 10:00:00";
    DigitRunConcat("2024", "-01-05 10:00:00");
  }

  /** A generator that cleans each chunk with `clean` before yielding it:
      the cleaned chunks in order, or the error of the first chunk that
      fails. */
  function CleanEach(chunks: seq<RawChunk>, clean: RawChunk --> Result<seq<Crime>, LoadError>)
    : (r: Result<seq<seq<Crime>>, LoadError>)
    requires forall c :: c in chunks ==> clean.requires(c)
    ensures r.Ok? ==> |r.value| == |chunks|
  {
    if chunks == [] then Ok([])
    else
      var earlier :- CleanEach(chunks[..|chunks| - 1], clean);
      var last :- clean(chunks[|chunks| - 1]);
      Ok(earlier + [last])
  }

  /** `iter_crime_chunks`: every chunk cleaned by `CleanChunk`. */
  function CleanAll(chunks: seq<RawChunk>): Result<seq<seq<Crime>>, LoadError>
    requires forall c :: c in chunks ==> Rectangular(c)
  {
    CleanEach(chunks, CleanChunk)
  }

  /** Taking one more chunk: its cleaned rows are appended, or its error
      ends the load. */
  lemma CleanEachStep(chunks: seq<RawChunk>, clean: RawChunk --> Result<seq<Crime>, LoadError>, i: nat)
    requires forall c :: c in chunks ==> clean.requires(c)
    requires i < |chunks| && CleanEach(chunks[..i], clean).Ok?
    ensures clean(chunks[i]).Ok? ==>
              CleanEach(chunks[..i + 1], clean) == Ok(CleanEach(chunks[..i], clean).value + [clean(chunks[i]).value])
    ensures clean(chunks[i]).Err? ==> CleanEach(chunks[..i + 1], clean) == Err(clean(chunks[i]).error)
  {
    assert chunks[..i + 1][..i] == chunks[..i];
  }

  /** Once a chunk fails, the whole load fails with the same error, whatever
      follows. */
  lemma {:induction false} CleanEachStopsAtError(chunks: seq<RawChunk>, more: seq<RawChunk>,
                                                 clean: RawChunk --> Result<seq<Crime>, LoadError>)
    requires forall c :: c in chunks + more ==> clean.requires(c)
    requires CleanEach(chunks, clean).Err?
    ensures CleanEach(chunks + more, clean) == CleanEach(chunks, clean)
    decreases |more|
  {
    if more == [] {
      assert chunks + more == chunks;
    } else {
      var init := more[..|more| - 1];
      assert (chunks + more)[..|chunks + more| - 1] == chunks + init;
      CleanEachStopsAtError(chunks, init, clean);
    }
  }

  /** Two cleanings that agree on every chunk give the same load. */
  lemma {:induction false} CleanEachAgree(chunks: seq<RawChunk>, f: RawChunk --> Result<seq<Crime>, LoadError>,
                                          g: RawChunk --> Result<seq<Crime>, LoadError>)
    requires forall c :: c in chunks ==> f.requires(c) && g.requires(c) && f(c) == g(c)
    ensures CleanEach(chunks, f) == CleanEach(chunks, g)
  {
    if chunks != [] {
      var init := chunks[..|chunks| - 1];
      assert forall c :: c in init ==> c in chunks;
      CleanEachAgree(init, f, g);
      assert chunks[|chunks| - 1] in chunks;
    }
  }

  /** The first failing chunk decides the error of the whole load. */
  lemma CleanEachFailsAt(chunks: seq<RawChunk>, clean: RawChunk --> Result<seq<Crime>, LoadError>, i: nat)
    requires forall c :: c in chunks ==> clean.requires(c)
    requires i < |chunks| && CleanEach(chunks[..i], clean).Ok? && clean(chunks[i]).Err?
    ensures CleanEach(chunks, clean) == Err(clean(chunks[i]).error)
  {
    var done, rest := chunks[..i + 1], chunks[i + 1..];
    assert done + rest == chunks;
    assert CleanEach(done, clean) == Err(clean(chunks[i]).error) by {
      CleanEachStep(chunks, clean, i);
    }
    assert CleanEach(chunks, clean) == CleanEach(done, clean) by {
      assert forall c :: c in done + rest ==> clean.requires(c);
      CleanEachStopsAtError(done, rest, clean);
    }
  }

  // ---------------------------------------------------------------------------
  // load_crimes
  // ---------------------------------------------------------------------------

  /** `primary_types` is truthy: present and non-empty. */
  predicate Selects(primaryTypes: Option<seq<string>>)
  {
    primaryTypes.Some? && primaryTypes.value != []
  }

  /** The in-memory loader with a given column-name mapping: parse dates,
      drop unusable rows, then, when `primary_types` is given and non-empty,
      keep the rows whose `primary_type` is one of them (a missing column is a
      KeyError), and derive the temporal fields. */
  function LoadCrimesWith(table: RawChunk, primaryTypes: Option<seq<string>>, normalize: string -> string)
    : (r: Result<seq<Crime>, LoadError>)
    requires Rectangular(table)
    ensures r.Ok? && Selects(primaryTypes) ==>
              forall c :: c in r.value ==> c.primaryType.Some? && c.primaryType.value in primaryTypes.value
  {
    var cols := Normalized(table.header, normalize);
    var layout :- FindLayout(cols);
    var crimes := CleanRows(table.rows, layout);
    if Selects(primaryTypes) && layout.primaryType.None? then Err(KeyError("primary_type"))
    else if PointsError(cols).Some? then Err(PointsError(cols).value)
    else if !Selects(primaryTypes) then Ok(crimes)
    else Ok(KeepTypes(crimes, primaryTypes.value))
  }

  /** `df[df["primary_type"].isin(types)]`: a null type is in no list. */
  function KeepTypes(crimes: seq<Crime>, types: seq<string>): (r: seq<Crime>)
    ensures forall c :: c in r ==> c in crimes && c.primaryType.Some? && c.primaryType.value in types
    ensures forall c :: c in crimes && c.primaryType.Some? && c.primaryType.value in types ==> c in r
  {
    if crimes == [] then []
    else
      (if crimes[0].primaryType.Some? && crimes[0].primaryType.value in types then [crimes[0]] else [])
        + KeepTypes(crimes[1..], types)
  }

  /** `load_crimes` as written: names are only lower-cased. */
  function LoadCrimesAsWritten(table: RawChunk, primaryTypes: Option<seq<string>>): Result<seq<Crime>, LoadError>
    requires Rectangular(table)
  {
    LoadCrimesWith(table, primaryTypes, Lower)
  }

  /** `load_crimes` with the chunked loader's normalisation. */
  function LoadCrimes(table: RawChunk, primaryTypes: Option<seq<string>>): Result<seq<Crime>, LoadError>
    requires Rectangular(table)
  {
    LoadCrimesWith(table, primaryTypes, NormalizeColumnName)
  }

  /** The portal's header, reduced to the columns these loaders read. */
  const PortalHeader: seq<string> := ["Date", "Primary Type", "Latitude", "Longitude"]

  /** What `load_crimes` makes of the portal's header. */
  lemma PortalHeaderLowered()
    ensures Normalized(PortalHeader, Lower) == ["date", "primary type", "latitude", "longitude"]
  {
    assert Lower("Date") == "date";
    assert Lower("Primary Type") == "primary type";
    assert Lower("Latitude") == "latitude";
    assert Lower("Longitude") == "longitude";
  }

  /** What the chunked loader makes of the portal's header. */
  lemma PortalHeaderNormalized()
    ensures Normalized(PortalHeader, NormalizeColumnName) == ["date", "primary_type", "latitude", "longitude"]
  {
    NormalizePrimaryType();
    NormalizeDate();
    NormalizeLatitude();
    NormalizeLongitude();
    NormalizedFour(PortalHeader, NormalizeColumnName);
  }

  lemma NormalizeDate()
    ensures NormalizeColumnName("Date") == "date"
  {
    PlainName("Date", "date");
  }

  lemma NormalizeLatitude()
    ensures NormalizeColumnName("Latitude") == "latitude"
  {
    PlainName("Latitude", "latitude");
  }

  lemma NormalizeLongitude()
    ensures NormalizeColumnName("Longitude") == "longitude"
  {
    PlainName("Longitude", "longitude");
  }

  lemma NormalizedFour(names: seq<string>, normalize: string -> string)
    requires |names| == 4
    ensures Normalized(names, normalize) == [normalize(names[0]), normalize(names[1]), normalize(names[2]), normalize(names[3])]
  {
    NormalizedAt(names, normalize, 0);
    NormalizedAt(names, normalize, 1);
    NormalizedAt(names, normalize, 2);
    NormalizedAt(names, normalize, 3);
  }

  lemma NormalizedThree(names: seq<string>, normalize: string -> string)
    requires |names| == 3
    ensures Normalized(names, normalize) == [normalize(names[0]), normalize(names[1]), normalize(names[2])]
  {
    NormalizedAt(names, normalize, 0);
    NormalizedAt(names, normalize, 1);
    NormalizedAt(names, normalize, 2);
  }

  /** Each name is mapped in place. */
  lemma {:induction false} NormalizedAt(names: seq<string>, normalize: string -> string, i: nat)
    requires i < |names|
    ensures Normalized(names, normalize)[i] == normalize(names[i])
  {
    if i > 0 {
      NormalizedAt(names[1..], normalize, i - 1);
    }
  }

  /** A one-word name normalises to its lower-case form. */
  lemma PlainName(name: string, lower: string)
    requires IsStripped(name) && Lower(name) == lower && ' ' !in lower
    ensures NormalizeColumnName(name) == lower
  {
    NormalizeStrippedName(name);
    ReplaceCharAbsent(lower, ' ', '_');
  }

  /** Whenever the mapped header has one `date`, the coordinates but no
      `primary_type`, requesting crime types is a KeyError. */
  lemma {:induction false} TypeFilterNeedsColumn(table: RawChunk, types: seq<string>, normalize: string -> string)
    requires Rectangular(table) && types != []
    requires var cols := Normalized(table.header, normalize);
      Occurrences(cols, "date") == 1 && "latitude" in cols && "longitude" in cols && "primary_type" !in cols
    ensures LoadCrimesWith(table, Some(types), normalize) == Err(KeyError("primary_type"))
  {
    var cols := Normalized(table.header, normalize);
    assert FindLayout(cols).Ok?;
    assert IndexOf(cols, "primary_type") == None;
  }

  /** Whenever the mapped header has `date`, `latitude` and `longitude` once
      each and a `primary_type`, requesting crime types succeeds. */
  lemma {:induction false} TypeFilterWithColumn(table: RawChunk, types: seq<string>, normalize: string -> string)
    requires Rectangular(table)
    requires var cols := Normalized(table.header, normalize);
      && Occurrences(cols, "date") == 1 && Occurrences(cols, "latitude") == 1
      && Occurrences(cols, "longitude") == 1 && "primary_type" in cols
    ensures LoadCrimesWith(table, Some(types), normalize).Ok?
  {
    var cols := Normalized(table.header, normalize);
    assert "latitude" in cols && "longitude" in cols;
    var layout := FindLayout(cols);
    assert layout.Ok? && layout.value.primaryType.Some? by {
      assert IndexOf(cols, "primary_type").Some?;
    }
    assert PointsError(cols).None?;
  }

  /** A name found at `i` and nowhere else occurs once. */
  lemma {:induction false} OccursOnce(names: seq<string>, name: string, i: nat)
    requires i < |names| && names[i] == name
    requires forall j :: 0 <= j < |names| && j != i ==> names[j] != name
    ensures Occurrences(names, name) == 1
  {
    if i == 0 {
      assert name !in names[1..];
    } else {
      OccursOnce(names[1..], name, i - 1);
    }
  }

  /** As written, `load_crimes` fails on the portal's header whenever crime
      types are requested: the lower-cased "primary type" is not found. */
  lemma LoadCrimesAsWrittenFailsOnPortalHeader(table: RawChunk, types: seq<string>)
    requires table.header == PortalHeader && Rectangular(table)
    requires types != []
    ensures LoadCrimesAsWritten(table, Some(types)) == Err(KeyError("primary_type"))
  {
    PortalColumnsLowered();
    TypeFilterNeedsColumn(table, types, Lower);
  }

  /** The lower-cased portal header holds three of the four columns the
      loader reads, but not `primary_type`. */
  lemma PortalColumnsLowered()
    ensures var cols := Normalized(PortalHeader, Lower);
      Occurrences(cols, "date") == 1 && "latitude" in cols && "longitude" in cols && "primary_type" !in cols
  {
    PortalHeaderLowered();
    var cols := Normalized(PortalHeader, Lower);
    assert cols[0] == "date" && cols[2] == "latitude" && cols[3] == "longitude";
    assert "primary type" != "primary_type";
    OccursOnce(cols, "date", 0);
  }

  /** With the normalised names, the same call succeeds and keeps only the
      requested crime types. */
  lemma LoadCrimesOnPortalHeader(table: RawChunk, types: seq<string>)
    requires table.header == PortalHeader && Rectangular(table)
    requires types != []
    ensures LoadCrimes(table, Some(types)).Ok?
    ensures forall c :: c in LoadCrimes(table, Some(types)).value ==>
              c.primaryType.Some? && c.primaryType.value in types
  {
    PortalColumnsFound();
    TypeFilterWithColumn(table, types, NormalizeColumnName);
  }

  /** The normalised portal header holds all four columns the loader reads,
      `date`, `latitude` and `longitude` once each. */
  lemma PortalColumnsFound()
    ensures var cols := Normalized(PortalHeader, NormalizeColumnName);
      && Occurrences(cols, "date") == 1 && Occurrences(cols, "latitude") == 1
      && Occurrences(cols, "longitude") == 1 && "primary_type" in cols
  {
    PortalHeaderNormalized();
    NormalizedPortalOnce();
  }

  lemma NormalizedPortalOnce()
    ensures var cols: seq<string> := ["date", "primary_type", "latitude", "longitude"];
      && Occurrences(cols, "date") == 1 && Occurrences(cols, "latitude") == 1
      && Occurrences(cols, "longitude") == 1 && "primary_type" in cols
  {
    var cols: seq<string> := ["date", "primary_type", "latitude", "longitude"];
    assert cols[1] in cols;
    OccursOnce(cols, "date", 0);
    OccursOnce(cols, "latitude", 2);
    OccursOnce(cols, "longitude", 3);
  }
}
