/** The hexagonal grid over the city: hexagon vertices, the row-by-row
    lattice of centres, the clip to the boundary and the dense relabelling
    of the surviving cells.

    Coordinates are exact reals. The one irrational constant, √3, is a
    parameter of the operations that need it. */
module BuildGrid {
  import opened Wrappers

  datatype Point = Point(x: real, y: real)

  /** A closed polygon ring: its first and last vertex coincide. */
  type Ring = seq<Point>

  /** The bounding box of the boundary, as `(minx, miny, maxx, maxy)`. */
  datatype Bounds = Bounds(minx: real, miny: real, maxx: real, maxy: real)

  datatype GridError = ValueError(message: string)

  /** A surviving cell: its id and its clipped geometry. */
  datatype Cell<G> = Cell(cellId: nat, geometry: G)

  // ---------------------------------------------------------------------
  // Hexagon vertices
  // ---------------------------------------------------------------------

  /** cos(k·π/3) for the seven angles 0, π/3, …, 2π. */
  function CosSixth(k: nat): real
    requires k <= 6
  {
    [1.0, 0.5, -0.5, -1.0, -0.5, 0.5, 1.0][k]
  }

  /** sin(k·π/3) divided by sin(π/3), for the same seven angles. */
  function SinSign(k: nat): real
    requires k <= 6
  {
    [0.0, 1.0, 1.0, 0.0, -1.0, -1.0, 0.0][k]
  }

  /** The hexagon of circumradius `r` centred at `c`, one vertex per angle
      k·π/3 for k = 0..6. `h` is √3·r, so `h / 2` is r·sin(π/3). */
  function Hexagon(c: Point, r: real, h: real): (ring: Ring)
    ensures |ring| == 7
  {
    seq(7, k requires 0 <= k < 7 => Point(c.x + r * CosSixth(k), c.y + SinSign(k) * (h / 2.0)))
  }

  function SquaredDistance(p: Point, q: Point): real
  {
    (p.x - q.x) * (p.x - q.x) + (p.y - q.y) * (p.y - q.y)
  }

  /** The ring is closed: angles 0 and 2π give the same vertex. */
  lemma HexagonClosed(c: Point, r: real, h: real)
    ensures Hexagon(c, r, h)[0] == Hexagon(c, r, h)[6]
  {
  }

  /** Vertex 0 lies level with the centre and vertices 1 and 2 form a
      horizontal top edge: the hexagon is flat-topped. */
  lemma HexagonFlatTop(c: Point, r: real, h: real)
    ensures Hexagon(c, r, h)[0] == Point(c.x + r, c.y)
    ensures Hexagon(c, r, h)[1].y == Hexagon(c, r, h)[2].y == c.y + h / 2.0
    ensures Hexagon(c, r, h)[4].y == Hexagon(c, r, h)[5].y == c.y - h / 2.0
  {
  }

  lemma SquaredTerms(r: real, h: real, a: real, s: real)
    requires h * h == 3.0 * r * r
    ensures (r * a) * (r * a) + (s * (h / 2.0)) * (s * (h / 2.0)) == (a * a + 0.75 * s * s) * (r * r)
  {
    assert (r * a) * (r * a) == a * a * (r * r);
    assert (s * (h / 2.0)) * (s * (h / 2.0)) == s * s * (h * h) / 4.0;
  }

  lemma VertexOnCircle(c: Point, r: real, h: real, k: nat)
    requires h * h == 3.0 * r * r && k < 7
    ensures SquaredDistance(Hexagon(c, r, h)[k], c) == r * r
  {
    var v := Hexagon(c, r, h)[k];
    assert v.x - c.x == r * CosSixth(k);
    assert v.y - c.y == SinSign(k) * (h / 2.0);
    SquaredTerms(r, h, CosSixth(k), SinSign(k));
    assert CosSixth(k) * CosSixth(k) + 0.75 * SinSign(k) * SinSign(k) == 1.0;
  }

  lemma SideLength(c: Point, r: real, h: real, k: nat)
    requires h * h == 3.0 * r * r && k < 6
    ensures SquaredDistance(Hexagon(c, r, h)[k], Hexagon(c, r, h)[k + 1]) == r * r
  {
    var v := Hexagon(c, r, h)[k];
    var u := Hexagon(c, r, h)[k + 1];
    var a := CosSixth(k) - CosSixth(k + 1);
    var s := SinSign(k) - SinSign(k + 1);
    assert v.x - u.x == r * a;
    assert v.y - u.y == s * (h / 2.0);
    SquaredTerms(r, h, a, s);
    assert a * a + 0.75 * s * s == 1.0;
  }

  /** With h = √3·r the hexagon is regular: every vertex is at distance r
      from the centre and every side has length r. */
  lemma HexagonRegular(c: Point, r: real, h: real)
    requires h * h == 3.0 * r * r
    ensures forall k :: 0 <= k < 7 ==> SquaredDistance(Hexagon(c, r, h)[k], c) == r * r
    ensures forall k :: 0 <= k < 6 ==>
      SquaredDistance(Hexagon(c, r, h)[k], Hexagon(c, r, h)[k + 1]) == r * r
  {
    forall k | 0 <= k < 7
      ensures SquaredDistance(Hexagon(c, r, h)[k], c) == r * r
    {
      VertexOnCircle(c, r, h, k);
    }
    forall k | 0 <= k < 6
      ensures SquaredDistance(Hexagon(c, r, h)[k], Hexagon(c, r, h)[k + 1]) == r * r
    {
      SideLength(c, r, h, k);
    }
  }

  /** One hexagon per centre, in the same order. */
  function Rings(centres: seq<Point>, r: real, h: real): (rings: seq<Ring>)
    ensures |rings| == |centres|
  {
    seq(|centres|, i requires 0 <= i < |centres| => Hexagon(centres[i], r, h))
  }

  lemma RingsSnoc(centres: seq<Point>, p: Point, r: real, h: real)
    ensures Rings(centres + [p], r, h) == Rings(centres, r, h) + [Hexagon(p, r, h)]
  {
  }

  // ---------------------------------------------------------------------
  // Arithmetic progressions
  // ---------------------------------------------------------------------

  lemma ScaleLe(a: real, b: real, s: real)
    requires s > 0.0
    ensures a <= b <==> a * s <= b * s
  {
    if a <= b {
      assert (b - a) * s >= 0.0;
    } else {
      assert (a - b) * s > 0.0;
    }
  }

  /** The m-th term `start + m·step` of an arithmetic progression: the
      value of a coordinate after m repeated additions of `step`. */
  function Step(start: real, step: real, m: nat): real
  {
    start + (m as real) * step
  }

  lemma StepNext(start: real, step: real, m: nat)
    ensures Step(start, step, m + 1) == Step(start, step, m) + step
  {
  }

  lemma StepMonotone(start: real, step: real, m: nat, n: nat)
    requires step > 0.0 && m < n
    ensures Step(start, step, m) < Step(start, step, n)
  {
    ScaleLe(m as real, n as real, step);
    assert (n - m) as real * step > 0.0;
  }

  /** How many terms of the progression stay at or below `limit`: how many
      times a `while v <= limit: …; v += step` loop starting at `start`
      runs its body. */
  function StepsWithin(start: real, limit: real, step: real): (n: nat)
    requires step > 0.0
    ensures forall m: nat :: m < n <==> Step(start, step, m) <= limit
  {
    if start <= limit then
      var q := (limit - start) / step;
      assert q * step == limit - start;
      assert forall m: nat :: m < q.Floor + 1 <==> Step(start, step, m) <= limit by {
        forall m: nat ensures m < q.Floor + 1 <==> Step(start, step, m) <= limit {
          ScaleLe(m as real, q, step);
        }
      }
      q.Floor + 1
    else
      assert forall m: nat :: Step(start, step, m) > limit by {
        forall m: nat ensures Step(start, step, m) > limit {
          ScaleLe(0.0, m as real, step);
        }
      }
      0
  }

  // ---------------------------------------------------------------------
  // The lattice of centres
  // ---------------------------------------------------------------------

  /** The x of row k's first centre: odd rows are shifted by 1.5·r. */
  function RowStart(minx: real, r: real, k: nat): real
  {
    minx + (if k % 2 == 0 then 0.0 else 1.5 * r)
  }

  /** Rows are emitted while `y <= maxy + h`. */
  function RowCount(b: Bounds, h: real): nat
    requires h > 0.0
  {
    StepsWithin(b.miny, b.maxy + h, h)
  }

  /** Row k's centres are emitted while `x <= maxx + w`, with w = 3·r. */
  function ColumnCount(b: Bounds, r: real, k: nat): nat
    requires r > 0.0
  {
    StepsWithin(RowStart(b.minx, r, k), b.maxx + 3.0 * r, 3.0 * r)
  }

  /** The centre in row k, column j. */
  function Centre(b: Bounds, r: real, h: real, k: nat, j: nat): Point
  {
    Point(Step(RowStart(b.minx, r, k), 3.0 * r, j), Step(b.miny, h, k))
  }

  /** Row k: its centres from left to right. */
  function RowCentres(b: Bounds, r: real, h: real, k: nat): (row: seq<Point>)
    requires r > 0.0
    ensures |row| == ColumnCount(b, r, k)
  {
    seq(ColumnCount(b, r, k), j requires 0 <= j < ColumnCount(b, r, k) => Centre(b, r, h, k, j))
  }

  /** Rows 0..rows-1, in row-major order. */
  function LatticeRows(b: Bounds, r: real, h: real, rows: nat): seq<Point>
    requires r > 0.0
  {
    if rows == 0 then [] else LatticeRows(b, r, h, rows - 1) + RowCentres(b, r, h, rows - 1)
  }

  /** Every centre the nested loops of the grid builder emit, in order. */
  function Lattice(b: Bounds, r: real, h: real): seq<Point>
    requires r > 0.0 && h > 0.0
  {
    LatticeRows(b, r, h, RowCount(b, h))
  }

  /** The nested row and column loops: rows at y = miny, miny + h, … while
      y <= maxy + h; in each row x starts at `RowStart` and steps by 3·r
      while x <= maxx + 3·r; one hexagon per (x, y). */
  method LayHexagons(b: Bounds, r: real, h: real) returns (hexes: seq<Ring>)
    requires r > 0.0 && h > 0.0
    ensures hexes == Rings(Lattice(b, r, h), r, h)
  {
    var w := 3.0 * r;
    hexes := [];
    var y := b.miny;
    var row: nat := 0;
    while y <= b.maxy + h
      invariant y == Step(b.miny, h, row)
      invariant row <= RowCount(b, h)
      invariant hexes == Rings(LatticeRows(b, r, h, row), r, h)
      decreases RowCount(b, h) - row
    {
      var x := RowStart(b.minx, r, row);
      var col: nat := 0;
      ghost var done := LatticeRows(b, r, h, row);
      ghost var line := RowCentres(b, r, h, row);
      while x <= b.maxx + w
        invariant x == Step(RowStart(b.minx, r, row), w, col)
        invariant col <= |line|
        invariant hexes == Rings(done + line[..col], r, h)
        decreases |line| - col
      {
        assert line[col] == Point(x, y);
        assert line[..col + 1] == line[..col] + [Point(x, y)];
        assert done + line[..col + 1] == (done + line[..col]) + [Point(x, y)];
        RingsSnoc(done + line[..col], Point(x, y), r, h);
        hexes := hexes + [Hexagon(Point(x, y), r, h)];
        StepNext(RowStart(b.minx, r, row), w, col);
        x := x + w;
        col := col + 1;
      }
      assert line[..col] == line;
      StepNext(b.miny, h, row);
      y := y + h;
      row := row + 1;
    }
  }

  // ---------------------------------------------------------------------
  // What the lattice looks like
  // ---------------------------------------------------------------------

  /** There is at least one row, and the last row lies above `maxy`. */
  lemma RowsReachTop(b: Bounds, h: real)
    requires h > 0.0 && b.miny <= b.maxy
    ensures RowCount(b, h) >= 1
    ensures Step(b.miny, h, RowCount(b, h) - 1) > b.maxy
  {
    var n := RowCount(b, h);
    assert Step(b.miny, h, 0) <= b.maxy + h;
    assert Step(b.miny, h, n) > b.maxy + h;
    StepNext(b.miny, h, n - 1);
  }

  /** Every row is non-empty and its last centre lies right of `maxx`. */
  lemma RowsReachRight(b: Bounds, r: real, k: nat)
    requires r > 0.0 && b.minx <= b.maxx
    ensures ColumnCount(b, r, k) >= 1
    ensures Step(RowStart(b.minx, r, k), 3.0 * r, ColumnCount(b, r, k) - 1) > b.maxx
  {
    var start := RowStart(b.minx, r, k);
    var n := ColumnCount(b, r, k);
    assert Step(start, 3.0 * r, 0) <= b.maxx + 3.0 * r;
    assert Step(start, 3.0 * r, n) > b.maxx + 3.0 * r;
    StepNext(start, 3.0 * r, n - 1);
  }

  /** The centres of the first `rows` rows are exactly the points
      `Centre(k, j)` with k < rows and j < ColumnCount(k). */
  lemma {:induction false} LatticeRowsMembers(b: Bounds, r: real, h: real, rows: nat, p: Point)
    requires r > 0.0
    ensures p in LatticeRows(b, r, h, rows) <==>
      exists k: nat, j: nat :: k < rows && j < ColumnCount(b, r, k) && p == Centre(b, r, h, k, j)
  {
    if rows > 0 {
      LatticeRowsMembers(b, r, h, rows - 1, p);
      var line := RowCentres(b, r, h, rows - 1);
      if p in line {
        var j :| 0 <= j < |line| && line[j] == p;
        assert p == Centre(b, r, h, rows - 1, j);
      }
      var k := rows - 1;
      if exists j: nat :: j < ColumnCount(b, r, k) && p == Centre(b, r, h, k, j) {
        var j: nat :| j < ColumnCount(b, r, k) && p == Centre(b, r, h, k, j);
        assert line[j] == p;
      }
    }
  }

  /** A point is a centre of the grid exactly when it is the lattice point
      (RowStart(k) + j·3r, miny + k·h) for a row k with miny + k·h <=
      maxy + h and a column j with RowStart(k) + j·3r <= maxx + 3r. */
  lemma LatticeMembers(b: Bounds, r: real, h: real, p: Point)
    requires r > 0.0 && h > 0.0
    ensures p in Lattice(b, r, h) <==>
      exists k: nat, j: nat ::
        Step(b.miny, h, k) <= b.maxy + h &&
        Step(RowStart(b.minx, r, k), 3.0 * r, j) <= b.maxx + 3.0 * r &&
        p == Centre(b, r, h, k, j)
  {
    LatticeRowsMembers(b, r, h, RowCount(b, h), p);
  }

  /** Row-major order: (y, x) strictly increases along the sequence, so
      every row precedes the next one and x increases within a row. */
  predicate RowMajor(ps: seq<Point>)
  {
    forall i, j :: 0 <= i < j < |ps| ==>
      ps[i].y < ps[j].y || (ps[i].y == ps[j].y && ps[i].x < ps[j].x)
  }

  lemma {:induction false} LatticeRowsBelow(b: Bounds, r: real, h: real, rows: nat)
    requires r > 0.0 && h > 0.0
    ensures forall p :: p in LatticeRows(b, r, h, rows) ==> p.y < Step(b.miny, h, rows)
  {
    if rows > 0 {
      LatticeRowsBelow(b, r, h, rows - 1);
      StepMonotone(b.miny, h, rows - 1, rows);
    }
  }

  lemma RowCentresOrdered(b: Bounds, r: real, h: real, k: nat)
    requires r > 0.0
    ensures RowMajor(RowCentres(b, r, h, k))
  {
    var line := RowCentres(b, r, h, k);
    forall i, j | 0 <= i < j < |line|
      ensures line[i].y == line[j].y && line[i].x < line[j].x
    {
      StepMonotone(RowStart(b.minx, r, k), 3.0 * r, i, j);
    }
  }

  lemma {:induction false} LatticeRowsOrdered(b: Bounds, r: real, h: real, rows: nat)
    requires r > 0.0 && h > 0.0
    ensures RowMajor(LatticeRows(b, r, h, rows))
  {
    if rows > 0 {
      var done := LatticeRows(b, r, h, rows - 1);
      var line := RowCentres(b, r, h, rows - 1);
      var all := done + line;
      LatticeRowsOrdered(b, r, h, rows - 1);
      LatticeRowsBelow(b, r, h, rows - 1);
      RowCentresOrdered(b, r, h, rows - 1);
      forall i, j | 0 <= i < j < |all|
        ensures all[i].y < all[j].y || (all[i].y == all[j].y && all[i].x < all[j].x)
      {
        if j < |done| {
          assert all[i] == done[i] && all[j] == done[j];
        } else if i >= |done| {
          assert all[i] == line[i - |done|] && all[j] == line[j - |done|];
        } else {
          assert all[i] == done[i] && done[i] in done;
          assert all[j] == line[j - |done|];
        }
      }
    }
  }

  /** The centres come out in row-major order, hence without repetition. */
  lemma LatticeOrdered(b: Bounds, r: real, h: real)
    requires r > 0.0 && h > 0.0
    ensures RowMajor(Lattice(b, r, h))
  {
    LatticeRowsOrdered(b, r, h, RowCount(b, h));
  }

  // ---------------------------------------------------------------------
  // Clipping, filtering and relabelling
  // ---------------------------------------------------------------------

  /** The hexagons that survive the clip and the degenerate-cell filter, in
      order. `clip` intersects a hexagon with the city boundary (None when
      the intersection is empty and the overlay drops the hexagon); `keep`
      is the valid-and-positive-area test. */
  function Survivors<G>(hexes: seq<Ring>, clip: Ring -> Option<G>, keep: G -> bool): (gs: seq<G>)
    ensures |gs| <= |hexes|
  {
    if hexes == [] then []
    else
      var last := hexes[|hexes| - 1];
      Survivors(hexes[..|hexes| - 1], clip, keep)
        + (if clip(last).Some? && keep(clip(last).value) then [clip(last).value] else [])
  }

  /** Survivors keep the order of the hexagons they come from. */
  lemma {:induction false} SurvivorsConcat<G>(a: seq<Ring>, c: seq<Ring>, clip: Ring -> Option<G>, keep: G -> bool)
    ensures Survivors(a + c, clip, keep) == Survivors(a, clip, keep) + Survivors(c, clip, keep)
  {
    if c != [] {
      assert (a + c)[..|a + c| - 1] == a + c[..|c| - 1];
      SurvivorsConcat(a, c[..|c| - 1], clip, keep);
    } else {
      assert a + c == a;
    }
  }

  /** A geometry survives exactly when some hexagon clips to it and it
      passes the filter. */
  lemma {:induction false} SurvivorsExact<G>(hexes: seq<Ring>, clip: Ring -> Option<G>, keep: G -> bool, g: G)
    ensures g in Survivors(hexes, clip, keep) <==>
      exists i :: 0 <= i < |hexes| && clip(hexes[i]) == Some(g) && keep(g)
  {
    if hexes != [] {
      var init := hexes[..|hexes| - 1];
      SurvivorsExact(init, clip, keep, g);
      if exists i :: 0 <= i < |init| && clip(init[i]) == Some(g) && keep(g) {
        var i :| 0 <= i < |init| && clip(init[i]) == Some(g) && keep(g);
        assert hexes[i] == init[i];
      }
      if exists i :: 0 <= i < |hexes| && clip(hexes[i]) == Some(g) && keep(g) {
        var i :| 0 <= i < |hexes| && clip(hexes[i]) == Some(g) && keep(g);
        if i < |init| {
          assert init[i] == hexes[i];
        }
      }
    }
  }

  /** `reset_index` followed by `cell_id = index`: each cell's id is its
      0-based position. */
  function Relabel<G>(gs: seq<G>): (cells: seq<Cell<G>>)
    ensures |cells| == |gs|
  {
    seq(|gs|, i requires 0 <= i < |gs| => Cell(i, gs[i]))
  }

  function Geometries<G>(cells: seq<Cell<G>>): seq<G>
  {
    seq(|cells|, i requires 0 <= i < |cells| => cells[i].geometry)
  }

  function Ids<G(==)>(cells: seq<Cell<G>>): set<nat>
  {
    set c | c in cells :: c.cellId
  }

  /** Relabelling changes no geometry and no order; the ids are exactly
      0..N-1, each used once, and the cell with id c sits at row c — the
      row the aggregator addresses with `loc[cell_id]`. */
  lemma RelabelDense<G>(gs: seq<G>)
    ensures Geometries(Relabel(gs)) == gs
    ensures forall n: nat :: n in Ids(Relabel(gs)) <==> n < |gs|
    ensures forall i, j :: 0 <= i < |gs| && 0 <= j < |gs| && Relabel(gs)[i].cellId == Relabel(gs)[j].cellId ==> i == j
    ensures forall c :: c in Relabel(gs) ==> c.cellId < |gs| && Relabel(gs)[c.cellId] == c
  {
    var cells := Relabel(gs);
    forall n: nat | n < |gs|
      ensures n in Ids(cells)
    {
      assert cells[n] in cells;
    }
  }

  /** Every vertex of every ring lies at distance `r` from its centre. */
  predicate RegularRings(centres: seq<Point>, r: real, h: real)
  {
    forall i, k :: 0 <= i < |centres| && 0 <= k < 7 ==>
      SquaredDistance(Rings(centres, r, h)[i][k], centres[i]) == r * r
  }

  /** Each laid hexagon is regular, of circumradius `r`, around its centre. */
  lemma RingsRegular(centres: seq<Point>, r: real, h: real)
    requires h * h == 3.0 * r * r
    ensures RegularRings(centres, r, h)
  {
    forall i | 0 <= i < |centres|
      ensures forall k :: 0 <= k < 7 ==> SquaredDistance(Rings(centres, r, h)[i][k], centres[i]) == r * r
    {
      HexagonRegular(centres[i], r, h);
    }
  }

  /** As written, `build_hex_grid` does not check `hex_diameter`: with
      d <= 0 the row step h = √3·d/2 is not positive, so once the first row
      passes the guard `y <= maxy + h`, every later `y` does too and the row
      loop never ends (d = 0 and any boundary with miny <= maxy will do). */
  lemma RowLoopNeverEnds(b: Bounds, hexDiameter: real, sqrt3: real, m: nat)
    requires hexDiameter <= 0.0 && sqrt3 > 0.0
    requires b.miny <= b.maxy + sqrt3 * (hexDiameter / 2.0)
    ensures Step(b.miny, sqrt3 * (hexDiameter / 2.0), m) <= b.maxy + sqrt3 * (hexDiameter / 2.0)
  {
    var h := sqrt3 * (hexDiameter / 2.0);
    assert h <= 0.0 by {
      ScaleLe(hexDiameter / 2.0, 0.0, sqrt3);
    }
    assert (m as real) * h <= 0.0 by {
      if m > 0 {
        ScaleLe(h, 0.0, m as real);
      }
    }
  }

  /** `build_hex_grid`: refuses a boundary without a CRS, and, as evidently
      intended, a diameter that is not positive, before generating anything;
      otherwise lays regular hexagons of diameter `hexDiameter` over the
      bounding box (radius d/2, column spacing 3·r, row spacing √3·r), clips
      them to the boundary, drops degenerate cells and numbers the rest
      0..N-1. `sqrt3` stands for √3. */
  method BuildHexGrid<G>(crs: Option<string>, b: Bounds, hexDiameter: real, sqrt3: real,
                         clip: Ring -> Option<G>, keep: G -> bool)
    returns (grid: Result<seq<Cell<G>>, GridError>)
    requires sqrt3 > 0.0 && sqrt3 * sqrt3 == 3.0
    ensures grid.Err? <==> crs.None? || hexDiameter <= 0.0
    ensures crs.None? ==> grid == Err(ValueError("Boundary GeoDataFrame must have a projected CRS (metres)."))
    ensures grid.Ok? ==> grid.value == Relabel(Survivors(
      Rings(Lattice(b, hexDiameter / 2.0, sqrt3 * (hexDiameter / 2.0)), hexDiameter / 2.0, sqrt3 * (hexDiameter / 2.0)),
      clip, keep))
    ensures grid.Ok? ==>
      RegularRings(Lattice(b, hexDiameter / 2.0, sqrt3 * (hexDiameter / 2.0)), hexDiameter / 2.0, sqrt3 * (hexDiameter / 2.0))
  {
    if crs.None? {
      grid := Err(ValueError("Boundary GeoDataFrame must have a projected CRS (metres)."));
    } else if hexDiameter <= 0.0 {
      grid := Err(ValueError("hex_diameter must be positive."));
    } else {
      var radius := hexDiameter / 2.0;
      var h := sqrt3 * radius;
      var hexes := LayHexagons(b, radius, h);
      grid := Ok(Relabel(Survivors(hexes, clip, keep)));
      assert hexDiameter / 2.0 == radius;
      assert sqrt3 * (hexDiameter / 2.0) == h;
      assert h * h == 3.0 * radius * radius;
      RingsRegular(Lattice(b, radius, h), radius, h);
    }
  }
}
