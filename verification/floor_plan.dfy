/** The static floor-plan probability grid `p(x | FP)`: a single rectangular
    room whose border cells are walls and whose interior is walkable. */
module FloorPlan {
  import opened Wrappers

  /** Grid value of a wall cell, and of any point outside the grid. */
  const WallProb: real := 0.01
  /** Grid value of a walkable cell. */
  const FreeProb: real := 1.0
  /** Wall thickness on every side of the room, in metres. */
  const WallThickness: real := 0.3

  /** Python's `int()` on a float: truncation toward zero (not floor). */
  function Trunc(r: real): (n: int)
    ensures 0.0 <= r ==> 0 <= n && n as real <= r < n as real + 1.0
    ensures r < 0.0 ==> n <= 0 && n as real - 1.0 < r <= n as real
  {
    if 0.0 <= r then r.Floor else -((-r).Floor)
  }

  /** Truncation sends the whole open interval (-1, 1) to 0, so a point a
      little to the left of or below the origin still lands in cell 0. */
  lemma TruncNearZero(r: real)
    requires -1.0 < r < 1.0
    ensures Trunc(r) == 0
  {
  }

  /** The clamps `start := max(0, min(start, n-1))` and
      `end := max(start+1, min(end, n))` applied to one axis. */
  function ClampSpan(start: int, end: int, n: int): (r: (int, int))
    ensures 0 <= r.0 && r.0 + 1 <= r.1
    ensures 1 <= n ==> r.0 <= n - 1 && r.1 <= n
    ensures 0 <= start <= n - 1 && start < end <= n ==> r == (start, end)
  {
    var s := Max(0, Min(start, n - 1));
    (s, Max(s + 1, Min(end, n)))
  }

  /** The walkable rectangle, in cell indices, half-open on both axes. */
  datatype Interior = Interior(xStart: int, xEnd: int, yStart: int, yEnd: int) {
    predicate Contains(row: int, col: int) {
      yStart <= row < yEnd && xStart <= col < xEnd
    }
  }

  /** The rasterised room. `grid[row][col]` is the value at `row` (y) and `col` (x). */
  datatype Plan = Plan(
    widthM: real,
    heightM: real,
    resolution: real,
    gridWidth: int,
    gridHeight: int,
    grid: seq<seq<real>>)

  /** The interior rectangle `_create_simple_floor_plan` computes before filling. */
  function InteriorOf(widthM: real, heightM: real, resolution: real, gridWidth: int, gridHeight: int): (r: Interior)
    requires resolution != 0.0
    ensures 0 <= r.xStart < r.xEnd && 0 <= r.yStart < r.yEnd
    ensures 1 <= gridWidth ==> r.xStart <= gridWidth - 1 && r.xEnd <= gridWidth
    ensures 1 <= gridHeight ==> r.yStart <= gridHeight - 1 && r.yEnd <= gridHeight
  {
    var xs := ClampSpan(Trunc(WallThickness / resolution), Trunc((widthM - WallThickness) / resolution), gridWidth);
    var ys := ClampSpan(Trunc(WallThickness / resolution), Trunc((heightM - WallThickness) / resolution), gridHeight);
    Interior(xs.0, xs.1, ys.0, ys.1)
  }

  function InteriorOfPlan(plan: Plan): Interior
    requires plan.resolution != 0.0
  {
    InteriorOf(plan.widthM, plan.heightM, plan.resolution, plan.gridWidth, plan.gridHeight)
  }

  /** The constructor's invariant: the grid has the truncated dimensions,
      and a cell is walkable exactly when it lies in the interior. */
  predicate Valid(plan: Plan) {
    plan.resolution != 0.0 &&
    plan.gridWidth == Trunc(plan.widthM / plan.resolution) &&
    plan.gridHeight == Trunc(plan.heightM / plan.resolution) &&
    0 <= plan.gridWidth && 0 <= plan.gridHeight &&
    |plan.grid| == plan.gridHeight &&
    (forall row :: 0 <= row < plan.gridHeight ==> |plan.grid[row]| == plan.gridWidth) &&
    (forall row, col :: 0 <= row < plan.gridHeight && 0 <= col < plan.gridWidth ==>
      plan.grid[row][col] == if InteriorOfPlan(plan).Contains(row, col) then FreeProb else WallProb)
  }

  /** `FloorPlanPDF(width_m, height_m, resolution)`. It fails (None) where
      Python raises: a zero resolution divides by zero, and a negative grid
      dimension makes `np.ones` reject the shape. */
  function Create(widthM: real, heightM: real, resolution: real): (r: Option<Plan>)
    ensures r.Some? <==>
      resolution != 0.0 && 0 <= Trunc(widthM / resolution) && 0 <= Trunc(heightM / resolution)
    ensures r.Some? ==>
      var p := r.value;
      Valid(p) && p.widthM == widthM && p.heightM == heightM && p.resolution == resolution
  {
    if resolution == 0.0 then None
    else
      var gw := Trunc(widthM / resolution);
      var gh := Trunc(heightM / resolution);
      if gw < 0 || gh < 0 then None
      else
        var inner := InteriorOf(widthM, heightM, resolution, gw, gh);
        Some(Plan(widthM, heightM, resolution, gw, gh,
          seq(gh, row => seq(gw, col => if inner.Contains(row, col) then FreeProb else WallProb))))
  }

  /** Every cell of a constructed plan is a wall or walkable, and it is
      walkable exactly inside the clamped interior rectangle. */
  lemma CellValues(plan: Plan, row: int, col: int)
    requires Valid(plan)
    requires 0 <= row < plan.gridHeight && 0 <= col < plan.gridWidth
    ensures plan.grid[row][col] == FreeProb || plan.grid[row][col] == WallProb
    ensures plan.grid[row][col] == FreeProb <==> InteriorOfPlan(plan).Contains(row, col)
  {
  }

  /** The clamps keep the walkable region non-empty: a grid with at least
      one cell always has a walkable cell, the interior's first cell. */
  lemma WalkableNonEmpty(plan: Plan)
    requires Valid(plan)
    requires 1 <= plan.gridWidth && 1 <= plan.gridHeight
    ensures var inner := InteriorOfPlan(plan);
      0 <= inner.yStart < plan.gridHeight && 0 <= inner.xStart < plan.gridWidth &&
      plan.grid[inner.yStart][inner.xStart] == FreeProb
  {
    var inner := InteriorOfPlan(plan);
    assert inner.Contains(inner.yStart, inner.xStart);
  }

  /** The point truncates into a grid cell of the walkable interior. */
  predicate WalkableAt(plan: Plan, x: real, y: real)
    requires plan.resolution != 0.0
  {
    var col, row := Trunc(x / plan.resolution), Trunc(y / plan.resolution);
    0 <= col < plan.gridWidth && 0 <= row < plan.gridHeight &&
    InteriorOfPlan(plan).Contains(row, col)
  }

  /** `get_probability(x, y)`: the value of the cell the point truncates into,
      or the wall value outside the grid. Defined for every real input. */
  function Probability(plan: Plan, x: real, y: real): (p: real)
    requires Valid(plan)
    ensures p == FreeProb || p == WallProb
    ensures 0.0 < p
    ensures p == FreeProb <==> WalkableAt(plan, x, y)
  {
    var col := Trunc(x / plan.resolution);
    var row := Trunc(y / plan.resolution);
    if 0 <= col < plan.gridWidth && 0 <= row < plan.gridHeight then plan.grid[row][col]
    else WallProb
  }

  /** Points just left of or below the origin, within one cell, read cell 0
      rather than falling outside the grid. */
  lemma NegativeSliverReadsCellZero(plan: Plan, x: real, y: real)
    requires Valid(plan) && 0.0 < plan.resolution
    requires 1 <= plan.gridWidth && 1 <= plan.gridHeight
    requires -plan.resolution < x < 0.0 && 0.0 <= y < plan.resolution
    ensures Probability(plan, x, y) == plan.grid[0][0]
  {
    WithinOneCell(x, plan.resolution);
    WithinOneCell(y, plan.resolution);
    TruncNearZero(x / plan.resolution);
    TruncNearZero(y / plan.resolution);
  }

  lemma WithinOneCell(v: real, resolution: real)
    requires 0.0 < resolution && -resolution < v < resolution
    ensures -1.0 < v / resolution < 1.0
  {
    assert (v / resolution) * resolution == v;
  }
}
