# Chicago crime hex-grid aggregation — a Dafny model

The repository builds a hexagonal grid over the City of Chicago. It counts
reported crimes, streetlights and bus stops per cell and shows the results
on a dashboard. This project models the integer and string logic at its
heart:

- **Grid** (`build_grid.py`): the hexagon vertices and the nested loops that
  lay hexagon centres row by row. It then clips, filters out degenerate
  cells and relabels the survivors `cell_id = 0..N-1`.
- **Crime loading** (`load_data.py`): the chunked loader normalises column
  names, parses `%m/%d/%Y %I:%M:%S %p` timestamps, drops unusable rows and
  derives `month`, `hour` and `dow`. The in-memory `load_crimes` normalises
  names differently.
- **Aggregation** (`aggregate.py`): per-cell counters start at zero and grow
  chunk by chunk. There is a total and one counter per tracked type, and
  streetlight and bus-stop counts are zero-filled. A per-chunk monthly
  group-by table is appended to the monthly records.
- **Dashboard helpers** (`maps.py`, `run_app.py`):
  - the fill-if-absent column rules of the model table;
  - the static map's value column;
  - the animated map's filter and `(cell_id, month)` roll-up;
  - reading the offered crime types back from the counter column names.

Everything geometric is a parameter of the model, because it is a Shapely
or GeoPandas call on floats:

- the spatial "within" join is `classify`/`locate : point -> Option<cell id>`;
- clipping to the city is `clip : ring -> Option<G>`;
- the validity-and-area test is `keep : G -> bool`.

Tables read from files are passed in as values. Geometry is exact `real`
arithmetic. Because √3 is irrational it is the parameter `sqrt3`; the
hexagon facts that depend on it assume `h * h == 3 * r * r`.

Modules, one per file: `Wrappers`, `Text` (Python string operations on
ASCII), `GroupBy` (sorted group-by), `Timestamps`, `LoadData`, `Aggregate`,
`BuildGrid`, `Maps`, `RunApp`.

Imperative parts are modelled imperatively:

- **`BuildGrid.LayHexagons`** is the nested `while` loop. It is proved equal
  to the lattice function `Lattice`, and the lattice lemmas state what the
  source promises.
- **`Aggregate.FeatureGrid`** is a class whose counters are an `array2<nat>`
  (row = cell, column = counter) and whose monthly records are a `seq`
  field. Its invariant `Valid()` says that every counter equals the count
  over all chunks processed so far. It also says the monthly records are the
  per-chunk tables.
- **`Maps.ModelFrame.Prepare`** adds columns to a `map` field in place.

Where the code and the design text disagree, the model follows the code:

- the hexagons are flat-top, although a comment calls them pointy-top;
- `load_crimes` only lower-cases column names (see Findings);
- `build_hex_grid` does not check its diameter (see Findings).

A chunk's header is what `read_csv` hands over, so its names are distinct
(`read_csv` renames exact repeats). Two names can still become the same
after normalisation, such as `Date` and ` date`. The loader then fails where
it reads that column as one series.

## Model

| member | source | states |
|---|---|---|
| Text.StripSpec | load_data.py:31 | `strip()` leaves no outer whitespace and returns a slice of its input |
| Text.LowerSpec | load_data.py:32 | `lower()` leaves no upper-case letter, is idempotent, and keeps spaces and whitespace where they were |
| Text.UpperLowerRoundTrip | run_app.py:28 | `upper(lower(s)) == s` exactly when `s` has no lower-case letter |
| Text.ReplaceAbsent | run_app.py:28 | `replace` changes nothing when the pattern does not occur |
| Text.ReplaceCharIsReplace | load_data.py:33 | replacing `" "` by `"_"` is the character-wise substitution |
| Text.StrLessTrichotomy | run_app.py:29 | Python's string order is total and asymmetric; with StrLessIrreflexive and StrLessTransitive it is a strict total order |
| Text.StrLessTransitive | run_app.py:29 | Python's string order is transitive |
| Text.IntToStringInjective | maps.py:10 | different row labels print as different `id` strings |
| Text.ZeroPadRoundTrip | load_data.py:48 | reading back a zero-padded number gives the number |
| Text.ZeroPadWidth | load_data.py:48 | padding a number below 10^width gives exactly `width` digits, as the `YYYY-MM` period needs |
| GroupBy.TallySorted | aggregate.py:122-130 | a group-by yields rows strictly sorted by key (pandas `sort=True`) |
| GroupBy.TallyLookup | aggregate.py:122-130 | a group-by has a row for a key exactly when the key occurs, and that row holds the key's total weight |
| GroupBy.TallyTotal | aggregate.py:122-130 | the sizes of a group-by add up to the total weight of its input |
| GroupBy.TallyDeterminedByWeights | maps.py:119-122 | two inputs with the same weight per key have the same group-by |
| GroupBy.ProjectTally | maps.py:119-122 | re-grouping a group-by under a selection weighs each new key as re-grouping the raw rows would |
| Timestamps.ParseFormatRoundTrip | load_data.py:38-42 | every valid timestamp written in `%m/%d/%Y %I:%M:%S %p` parses back to itself |
| Timestamps.ParseTimestamp | load_data.py:38-42 | a parsed timestamp is a valid date and time inside pandas' nanosecond range |
| Timestamps.Hour24Spec | load_data.py:49 | a 12-hour clock hour with AM/PM gives an hour in 0..23 that is 12 or more exactly for PM |
| Timestamps.Hour12RoundTrip | load_data.py:49 | every hour 0..23 is written as 1..12 plus AM/PM and reads back as itself |
| Timestamps.WeekdayNextDay | load_data.py:50 | the day of the week advances by one modulo 7 from each day to the next |
| Timestamps.WeekdayAnchors | load_data.py:50 | Monday is 0: 2024-01-01 is 0 and 1970-01-01 (a Thursday) is 3 |
| Timestamps.Weekday | load_data.py:50 | `dayofweek` is in 0..6 |
| Timestamps.MonthPeriodSpec | load_data.py:48 | `to_period("M")` as text is seven characters `YYYY-MM` with the year and month of the date |
| Timestamps.RangeYears | load_data.py:38-42 | timestamps pandas can hold lie in the years 1677..2262 |
| LoadData.NormalizeColumnName | load_data.py:29-34 | a normalised name has no outer whitespace, no upper-case letter and no space |
| LoadData.NormalizeIsReplace | load_data.py:29-34 | normalisation is `strip`, then `lower`, then `replace(" ", "_")` |
| LoadData.NormalizeIdempotent | load_data.py:29-34 | normalising twice is normalising once |
| LoadData.NormalizePrimaryType | load_data.py:29-34 | `"Primary Type"` becomes `"primary_type"`, the column the aggregator reads at aggregate.py:116 and 125 |
| LoadData.PortalHeaderNormalized | load_data.py:29-34 | the portal's header normalises to `date, primary_type, latitude, longitude` |
| LoadData.FindLayout | load_data.py:38-45 | the layout is found exactly when `date` occurs once and both coordinates occur. A missing `date` is `KeyError("date")`, and a repeated `date` is refused by `to_datetime`. Otherwise `dropna` raises a KeyError listing exactly the absent columns of its subset |
| LoadData.ToCrime | load_data.py:48-50 | a kept row has `hour` in 0..23, `dow` in 0..6 and `month` the `YYYY-MM` period of its valid date |
| LoadData.CleanRowsExact | load_data.py:38-45 | a row is kept exactly when its date parses and its coordinates are present, and becomes that row's crime |
| LoadData.CleanRowsConcat | load_data.py:45 | dropping rows acts row by row, so it commutes with splitting the rows |
| LoadData.UnparsableDateDropped | load_data.py:38-45 | a date not in the expected format is dropped rather than raising |
| LoadData.CleanChunk | load_data.py:29-57 | a chunk cleans exactly when its normalised header has `date`, `latitude` and `longitude` once each; a repeated coordinate fails at `points_from_xy`; a cleaned chunk keeps at most its rows |
| LoadData.CleanEachStep | load_data.py:16-59 | the generator yields the cleaned chunks in order, and the first failing chunk stops it with that chunk's error |
| LoadData.CleanEachFailsAt | load_data.py:16-59 | when every earlier chunk cleans and chunk `i` fails, the whole load fails with chunk `i`'s error |
| LoadData.CleanEachStopsAtError | load_data.py:16-59 | after an error, later chunks change nothing |
| LoadData.CleanEachAgree | load_data.py:16-59 | two per-chunk steps that agree on every chunk give the same load, result or error |
| LoadData.KeepTypes | load_data.py:83-84 | `isin` keeps exactly the crimes whose type is one of the given ones |
| LoadData.LoadCrimesWith | load_data.py:66-96 | with a non-empty type list, every loaded crime has one of the given types |
| LoadData.TypeFilterNeedsColumn | load_data.py:76-84 | with one `date`, both coordinates, a non-empty type list and no `primary_type` column, loading fails with `KeyError("primary_type")`, before the coordinates are read |
| LoadData.TypeFilterWithColumn | load_data.py:76-93 | with `date`, `latitude` and `longitude` once each and a `primary_type` column, filtering succeeds |
| LoadData.LowerOnlyKeepsTheSpace | load_data.py:74 | lower-casing alone turns `"Primary Type"` into `"primary type"`, which is not the normalised name |
| LoadData.PortalHeaderLowered | load_data.py:74 | `load_crimes` makes `date, primary type, latitude, longitude` of the portal's header |
| LoadData.LoadCrimesAsWrittenFailsOnPortalHeader | load_data.py:74-84 | `load_crimes` as written fails with `KeyError("primary_type")` on the portal's header whenever types are given |
| LoadData.LoadCrimesOnPortalHeader | load_data.py:74-84 | with the chunked loader's normalisation, `load_crimes` succeeds on the portal's header and keeps only the given types |
| Aggregate.CounterColumns | aggregate.py:63-65 | the grid gains `crime_count_total` first, then `crime_<type.lower()>` for every tracked type, each column once |
| Aggregate.Dedup | aggregate.py:63-65 | assigning an existing column again keeps one column: same names, no repeats, first name first |
| Aggregate.JoinedConcat | aggregate.py:100-105 | the inner join of two batches is the join of each, and per-cell counts add |
| Aggregate.JoinedBounded | aggregate.py:100-105 | every joined crime lands in a cell of the grid |
| Aggregate.CellSizesSpec | aggregate.py:111 | `groupby("cell_id").size()` is sorted by cell, has a row exactly for the cells that received crimes, and holds each such cell's count |
| Aggregate.CountPoints | aggregate.py:74-86 | the environmental counts have one entry per grid cell |
| Aggregate.CountPointsSpec | aggregate.py:19-29 | each cell's count is the number of points within it (0 when none), and the counts add up to the points inside some cell |
| Aggregate.CellTotalsSum | aggregate.py:111-112 | per-cell totals add up to the number of joined crimes |
| Aggregate.ColumnValueConcat | aggregate.py:96-119 | every counter after two batches is the sum of its counts for each batch, so the chunk boundaries do not matter |
| Aggregate.ColumnValueNoJoin | aggregate.py:107-108 | a chunk with no joined crime leaves every counter unchanged |
| Aggregate.TypeColumnCounts | aggregate.py:111-119 | with distinct tracked columns, a type's column counts exactly the crimes whose type equals it and the total counts all crimes in the cell |
| Aggregate.TypeCountsWithinTotal | aggregate.py:115-119 | with distinct tracked types, the type counters of a cell add up to at most its total |
| Aggregate.MonthlyLessOrder | aggregate.py:124-126 | the key order of the monthly group-by is a strict total order |
| Aggregate.MonthlyChunkRows | aggregate.py:122-130 | a chunk's monthly table is sorted by key, has one row per distinct key of a joined, typed crime, and that row's `crime_count` is its count, at least 1 |
| Aggregate.MonthlyChunkTotal | aggregate.py:122-130 | a chunk's monthly counts add up to its joined crimes minus those with a null type |
| Aggregate.MonthlyConservation | aggregate.py:111-112 | over any chunking, the monthly table's counts plus the joined crimes without a type equal all joined crimes, which is the sum of `crime_count_total`. In a run of `AggregateFeatures` such a crime has a null `primary_type` value, because a joined chunk without the column stops the run |
| Aggregate.MonthlyEmpty | aggregate.py:107-108 | no monthly table is appended exactly when no chunk joins any crime; the table can still lack rows when every joined crime lacks a type |
| Aggregate.MonthlySchema | aggregate.py:122-143 | the saved monthly table has the columns `cell_id, month, hour, dow, primary_type, crime_count` whether tables were appended (group-by keys plus `size` renamed) or not (the empty frame). Its rows are the appended tables in order |
| Aggregate.MonthlyItemsConcat | aggregate.py:122-132 | the rows the monthly group-bys read from two batches are those of each, in order |
| Aggregate.FeatureGrid.constructor | aggregate.py:63-86 | after loading, every counter of every cell is 0, and the streetlight and bus counts are the zero-filled point counts |
| Aggregate.FeatureGrid.AddSizes | aggregate.py:111-112 | `grid.loc[idx, col] += sizes` adds each cell's size to that column of that cell and changes nothing else |
| Aggregate.FeatureGrid.AddChunkCounts | aggregate.py:110-119 | every counter of every cell grows by exactly that chunk's count for the cell and column |
| Aggregate.FeatureGrid.AddTypeCounts | aggregate.py:114-119 | the per-type loop adds, to each counter column, the chunk's per-cell count of the tracked types that map to that column, and nothing else |
| Aggregate.FeatureGrid.AddTypeCount | aggregate.py:115-119 | one tracked type's step adds that type's per-cell count to its own column only; an empty subset changes nothing |
| Aggregate.FeatureGrid.ProcessChunk | aggregate.py:100-132 | one loop iteration keeps the invariant that counters equal the counts over all chunks so far; the monthly table is appended only for a chunk with joined crimes |
| Aggregate.FeatureGrid.ProcessAll | aggregate.py:96-132 | the chunk loop processes exactly the chunks its per-chunk step accepts, in order, or stops with the first error. With `AggregationCleaner` that error is the loader's, or `KeyError("primary_type")` for a joined chunk without the column |
| Aggregate.FeatureGrid.ProcessNext | aggregate.py:96-132 | one turn of the chunk loop either processes the next accepted chunk, extending the accepted prefix, or stops with that chunk's error, which is the error of the whole run |
| Aggregate.AggregationMatchesLoader | aggregate.py:96-125 | when every chunk that joins a crime has a `primary_type` column, the aggregation reads exactly the loader's chunks or fails with the loader's error |
| Aggregate.AggregationStopsWithoutTypeColumn | aggregate.py:107-125 | a chunk that cleans and joins a crime but has no `primary_type` column ends the run with `KeyError("primary_type")`, once the chunks before it were read |
| Aggregate.NoTypeColumnStops | aggregate.py:100-125 | a chunk headed `Date, Latitude, Longitude` with one valid row inside the grid ends the run with `KeyError("primary_type")` |
| Aggregate.AggregateFeatures | aggregate.py:36-143 | the grid's counters equal the counts over all accepted chunks together, with the default types for None. Otherwise the run fails with the first error: the loader's, or `KeyError("primary_type")` |
| BuildGrid.Hexagon | build_grid.py:22-27 | a hexagon ring has seven vertices |
| BuildGrid.HexagonClosed | build_grid.py:22-27 | the seven angles run from 0 to 2π, so the last vertex is the first |
| BuildGrid.HexagonFlatTop | build_grid.py:22-27 | the first vertex lies due right of the centre, and vertices 1, 2 and 4, 5 form horizontal top and bottom edges: the hexagon is flat-top |
| BuildGrid.HexagonRegular | build_grid.py:10-27 | with `h = √3·r`, every vertex lies at distance `r` from the centre and every side has length `r` |
| BuildGrid.StepsWithin | build_grid.py:66-71 | the number of steps `start + m·step` that stay within the limit, as the loop guards count them |
| BuildGrid.LayHexagons | build_grid.py:62-72 | the nested loops emit one hexagon per lattice centre, row by row, in the lattice's order |
| BuildGrid.RowsReachTop | build_grid.py:58-72 | there is at least one row, and the last row's `y` lies above `maxy` |
| BuildGrid.RowsReachRight | build_grid.py:55-70 | every row is non-empty, and its last centre's `x` lies beyond `maxx` |
| BuildGrid.LatticeMembers | build_grid.py:62-72 | a point is a centre exactly when it is `(rowStart(k) + j·3r, miny + k·h)` for a row `k` within the `y` bound and a column `j` within the `x` bound, where odd rows start `1.5r` to the right |
| BuildGrid.LatticeOrdered | build_grid.py:62-72 | centres come out row-major: all of row k before row k+1, and `x` strictly increasing within a row |
| BuildGrid.SurvivorsExact | build_grid.py:77-82 | a geometry survives exactly when some hexagon clips to it and it passes the validity-and-area test |
| BuildGrid.SurvivorsConcat | build_grid.py:77-82 | clipping and filtering act hexagon by hexagon, keeping order |
| BuildGrid.RelabelDense | build_grid.py:84-85 | relabelling keeps the geometries in order, and the ids are unique, exactly `0..N-1`, each the row's position |
| BuildGrid.RingsRegular | build_grid.py:10-27 | with `h = √3·r`, every vertex of every laid hexagon lies at distance `r` from its centre |
| BuildGrid.RowLoopNeverEnds | build_grid.py:52-72 | with a diameter `d <= 0` the row step is not positive, so once the first row passes `y <= maxy + h` every later row does too: the loop never ends |
| BuildGrid.BuildHexGrid | build_grid.py:49-85 | a boundary without a CRS is the source's `ValueError`, and so is a diameter `d <= 0`. Otherwise the grid is the relabelled survivors of the hexagons laid at the lattice of radius `d/2` and row height `√3·d/2`, each of them regular |
| Maps.ModelFrame.Prepare | maps.py:10-20 | module initialisation turns the model table into `Prepared` of it, keeping the row labels |
| Maps.PreparedColumns | maps.py:10-20 | initialisation adds `id`, `gi_z` and `kde_intensity`; a new `gi_z` copies `gi_zscore` when present and is NaN otherwise; a new `kde_intensity` is NaN; existing columns other than `id` are untouched; row counts are kept |
| Maps.PreparedIdempotent | maps.py:10-20 | initialising twice is initialising once |
| Maps.IdsDistinct | maps.py:10 | distinct row labels give distinct `id` strings |
| Maps.ObservedColumn | maps.py:30-33 | `ALL` maps to `crime_count_total` and any other type to `crime_` + its lower-case form |
| Maps.ObservedColumnIsCounter | maps.py:30-33 | the observed column of `ALL` or of a tracked type is one of the counter columns the aggregator created |
| Maps.StaticAfterPrepare | maps.py:42-55 | after initialisation the KDE map always finds its column, the hotspot map fails exactly when `gi_star` is absent, and the observed map finds the total and every tracked type's counter |
| Maps.RollUpSpec | maps.py:105-122 | the roll-up is sorted by `(cell_id, month)`, has a row exactly for the pairs some filtered row falls in, sums their `crime_count`, and preserves the filtered total |
| Maps.ProjectSelected | maps.py:105-115 | the type, hour and day filters keep exactly the rows that `Selected` describes, with their counts |
| Maps.RollUpIgnoresChunking | maps.py:119-122 | the roll-up of the chunk-by-chunk monthly table equals the roll-up of one table over all crimes, so duplicates across chunks are merged |
| Maps.MonthlyTableWeights | aggregate.py:122-139 | the appended monthly tables carry, per selected key, the same count as all crimes together |
| Maps.MergeGridIds | maps.py:126-130 | against the grid's `(cell_id, id)` pairs, the left merge keeps each rolled-up row once, with its count and the text of its cell id |
| Maps.AnimatedMap | maps.py:94-130 | an empty monthly table gives the placeholder without filtering, and anything else gives the merged roll-up |
| RunApp.Sort | run_app.py:29 | `sorted` returns the same names with the same multiplicities, in ascending string order |
| RunApp.TypeColumns | run_app.py:23-26 | exactly the columns that start with `crime_` and are not `crime_count_total` are kept |
| RunApp.ExtractCrimeTypes | run_app.py:10-29 | a missing model file raises `FileNotFoundError` with the source's message before any read; otherwise the result is sorted, has the same multiset as the transformed qualifying columns, and the same length |
| RunApp.TypeNameRoundTrip | run_app.py:28 | for a type without lower-case letters and without `crime_` inside its lower-case form, the column `crime_<t.lower()>` reads back as `t` |
| RunApp.OffersTrackedTypes | run_app.py:23-29 | against a table holding the aggregator's counters and no other `crime_` column, the dashboard offers exactly the tracked types |

## Left out

- I/O is not modelled: `read_csv`, `read_file`, `read_parquet`, `to_parquet`, `to_file`, `mkdir` and the debug prints. Tables enter as values, and the missing model file is an `Option`.
- Shapely/GeoPandas work is not modelled: `sjoin(predicate="within")`, `unary_union`, `overlay`, `is_valid`, `.area` and `to_crs`. These are float geometry, so they are the parameters `classify`, `locate`, `clip` and `keep`. Each point lies within at most one cell.
- `BuildGrid.Hexagon` uses exact reals: vertex `k` is `(cx + r·cos(kπ/3), cy ± h/2)` with the cosines written out. It does not model `math.cos`/`math.sin` float error or the float drift of `y += h` and `x += w`.
- `BuildGrid.BuildHexGrid` takes √3 as the parameter `sqrt3` because it is irrational. It requires `sqrt3 > 0` and `sqrt3 * sqrt3 == 3`, which `math.sqrt(3)` meets only up to rounding. Floating-point rounding of the lattice is not modelled.
- Coverage of the city by the hexagons is not modelled. Centres are `3r` apart along a row while a hexagon is `2r` wide, so the tiling leaves gaps, and points in them are simply unclassified.
- Case mapping is ASCII only, because Dafny has no Unicode case tables. `Text.Lower` and `Text.Upper` leave other characters alone.
- `Timestamps.ParseTimestamp` rejects seconds 60 and 61, which the format's regex admits. Whether pandas then coerces or raises depends on the platform's `strptime`.
- Timestamps.ParseTimestamp: the strings `"now"` and `"today"` give `None`. pandas 2 turns them into the current time before matching the format; the clock is not modelled.
- Timestamps.ParseTimestamp: digits are ASCII `0`-`9` only (`Text.IsDigit`). The format's regex `\d` also matches other Unicode decimal digits, which `int()` accepts.
- Aggregate.FeatureGrid: a cell id is taken to be its row. `aggregate_features` keeps the file's `cell_id` and adds by label through `.loc` and `reindex`. Labels equal rows because `build_hex_grid` wrote `cell_id = index` (`BuildGrid.RelabelDense`) and the file keeps that order; a grid file numbered otherwise is not modelled.
- Aggregate.FeatureGrid.ProcessChunk: the `KeyError("primary_type")` of a joined chunk without the column is decided when the chunk is taken (`ChunkForAggregation`), before any counter moves. pandas first adds `crime_count_total` and then raises, but the exception discards the grid, so the outcome is the same.
- Aggregate.ChunkForAggregation: a `primary_type` column repeated after normalisation is read as its first copy. pandas hands over a two-column frame there: the per-type filter then masks instead of filtering, and the group-by on it fails.
- LoadData.LoadCrimesWith: a `primary_type` column repeated after normalisation is read as its first copy. pandas' `isin` then masks the whole frame instead of filtering it.
- LoadData.FindLayout: the pandas messages are not modelled. `DuplicateColumn` stands for the `ValueError` pandas raises where a repeated column is read as one series.
- Both static and animated maps: the plotly figures, hover fields, colour scales and the Dash app are not modelled (maps.py:57-88, 132-150; run_app.py:33-56). They are UI.
- The model table is not loaded by `Maps.ModelFrame`: `read_parquet(...).to_crs(4326)` is I/O.
- A monthly table that fails to load (maps.py:24-27) is the empty table; the read itself is I/O.
- Pandas dtypes are not modelled: a count column's NaN, the `astype(int)` of `fillna(0)`, and the `month` string versus `Period`. Counts are `nat`, and a row whose `primary_type` is null is dropped from the monthly group-by, as pandas does by default.
- Statistical models, hotspots, KDE, the time series, reporting and the pipeline driver are outside this model. They are float fitting or orchestration (model_poisson_nb.py, model_rf_gwr.py, spatial_stats.py, timeseries.py, reporting.py, run_pipeline.py).
- `load_streetlights`, `load_bus_stops` and `load_boundary` are not modelled: they are file reads plus CRS conversion. Their points enter `Aggregate.FeatureGrid.constructor` as values.

## Findings

| source | as written | input that shows it | evidently intended | confidence | as-written member | corrected member |
|---|---|---|---|---|---|---|
| build_grid.py:52-72 | `hex_diameter` is never checked: with `hex_diameter <= 0` the steps `w` and `h` are not positive, so the guard `y <= maxy + h` holds for ever and the row loop never ends | `hex_diameter=0` with any boundary that has a CRS | reject a diameter that is not positive with `ValueError`, as the missing CRS is | not executed | BuildGrid.RowLoopNeverEnds | BuildGrid.BuildHexGrid |
| load_data.py:74, 83-84 | `load_crimes` only lower-cases column names, so the portal's `Primary Type` becomes `primary type`; the type filter then reads `df["primary_type"]` and raises `KeyError` | any table with the portal's header `Date, Primary Type, Latitude, Longitude` and `primary_types=["BURGLARY"]` | normalise names as `iter_crime_chunks` does (strip, lower, space to underscore), so the filter finds `primary_type` | not executed | LoadData.LoadCrimesAsWrittenFailsOnPortalHeader | LoadData.LoadCrimesOnPortalHeader |
