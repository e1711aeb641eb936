/** The bookkeeping of the non-recursive Bayesian navigation filter: the
    wall pre-check that picks the optimiser's start point, the optimiser
    seen only through its bounds, the bounded position history and reset.
    The posterior density itself is left to the abstract optimiser. */
module BayesianFilter {
  import opened Geometry
  import opened Buffers
  import opened FloorPlan

  /** Number of points sampled along the straight path to the IMU prediction. */
  const NSamples: int := 10
  /** A sampled point whose floor-plan value is below this is a wall. */
  const WallThreshold: real := 0.1
  /** Number of past estimates kept in the history. */
  const HistoryCap: nat := 10
  /** The start position the filter is constructed with. */
  const StartX: real := 2.0
  const StartY: real := 4.0
  /** Covariance scales (of the 2x2 identity) at construction and after an update. */
  const InitialCovariance: real := 0.5
  const UpdatedCovariance: real := 0.3

  /** The filter state. The covariance is always a multiple of the 2x2
      identity, so only the multiple is kept. */
  datatype Filter = Filter(
    plan: Plan,
    strideLength: real,
    nHistory: int,
    history: seq<Pos>,
    estimate: Pos,
    covarianceScale: real,
    sigmaStride: real,
    sigmaHeading: real,
    sigmaMotion: real,
    floorPlanWeight: real)

  /** `BayesianNavigationFilter(floor_plan, stride_length, n_history)`. */
  function Init(plan: Plan, strideLength: real, nHistory: int): (f: Filter)
    ensures f.history == [] && f.estimate == Pos(StartX, StartY)
    ensures f.covarianceScale == InitialCovariance
    ensures f.plan == plan && f.strideLength == strideLength && f.nHistory == nHistory
  {
    Filter(plan, strideLength, nHistory, [], Pos(StartX, StartY), InitialCovariance, 0.1, 0.5, 0.5, 1000.0)
  }

  /** The `i`-th of the points `prev + (i/10)·(imu - prev)` on the path. */
  function SamplePoint(prev: Pos, imu: Pos, i: int): Pos {
    var t := i as real / NSamples as real;
    Pos(prev.x + t * (imu.x - prev.x), prev.y + t * (imu.y - prev.y))
  }

  /** The last sample is the IMU prediction itself. */
  lemma LastSampleIsPrediction(prev: Pos, imu: Pos)
    ensures SamplePoint(prev, imu, NSamples) == imu
  {
  }

  predicate Blocked(plan: Plan, p: Pos)
    requires Valid(plan)
  {
    Probability(plan, p.x, p.y) < WallThreshold
  }

  /** A sampled point is blocked exactly when it reads a wall value. */
  lemma BlockedIsWall(plan: Plan, p: Pos)
    requires Valid(plan)
    ensures Blocked(plan, p) <==> Probability(plan, p.x, p.y) == WallProb
  {
  }

  /** The loop over samples `i .. 10` with its early exit on the first
      blocked sample: the exit does not change the answer. */
  function ScanPath(plan: Plan, prev: Pos, imu: Pos, i: int): (crosses: bool)
    requires Valid(plan) && 1 <= i <= NSamples + 1
    ensures crosses <==> exists k :: i <= k <= NSamples && Blocked(plan, SamplePoint(prev, imu, k))
    decreases NSamples + 1 - i
  {
    if i > NSamples then false
    else if Blocked(plan, SamplePoint(prev, imu, i)) then true
    else ScanPath(plan, prev, imu, i + 1)
  }

  /** `path_crosses_wall` of the update step. */
  function PathCrossesWall(plan: Plan, prev: Pos, imu: Pos): bool
    requires Valid(plan)
  {
    ScanPath(plan, prev, imu, 1)
  }

  /** A prediction that lands in a wall always counts as crossing one. */
  lemma BlockedPredictionCrosses(plan: Plan, prev: Pos, imu: Pos)
    requires Valid(plan) && Blocked(plan, imu)
    ensures PathCrossesWall(plan, prev, imu)
  {
    LastSampleIsPrediction(prev, imu);
    assert Blocked(plan, SamplePoint(prev, imu, NSamples));
  }

  /** The optimiser's starting guess: the previous estimate when the straight
      path to the IMU prediction crosses a wall, the prediction otherwise.
      The contract only records that choice; what a crossing means is stated
      by `ScanPath` (some remaining sample is blocked) and
      `BlockedPredictionCrosses`. */
  function StartPoint(f: Filter, trig: Trig, heading: real, strideLength: real): (x0: Pos)
    requires Valid(f.plan)
    ensures var imu := Stride(f.estimate, trig, heading, strideLength);
      (PathCrossesWall(f.plan, f.estimate, imu) ==> x0 == f.estimate) &&
      (!PathCrossesWall(f.plan, f.estimate, imu) ==> x0 == imu)
  {
    var imu := Stride(f.estimate, trig, heading, strideLength);
    if PathCrossesWall(f.plan, f.estimate, imu) then f.estimate else imu
  }

  /** What `minimize` is given: the start point, the objective's extra
      arguments, and the upper bounds of the box `[0,upperX] x [0,upperY]`. */
  datatype Query = Query(start: Pos, prev: Pos, heading: real, strideLength: real, upperX: real, upperY: real)

  /** The only property of the optimiser the model relies on: on a
      non-empty box, its answer lies in the box. */
  ghost predicate RespectsBounds(minimize: Query -> Pos) {
    forall q: Query :: 0.0 <= q.upperX && 0.0 <= q.upperY ==> InBox(minimize(q), q.upperX, q.upperY)
  }

  /** `update(heading, stride_length)`. The returned estimate is the new
      filter's `estimate`. */
  function Update(f: Filter, trig: Trig, minimize: Query -> Pos, heading: real, strideLength: real): (r: Filter)
    requires Valid(f.plan)
    ensures r.estimate == minimize(Query(StartPoint(f, trig, heading, strideLength), f.estimate,
      heading, strideLength, f.plan.widthM, f.plan.heightM))
    ensures RespectsBounds(minimize) && 0.0 <= f.plan.widthM && 0.0 <= f.plan.heightM ==>
      InBox(r.estimate, f.plan.widthM, f.plan.heightM)
    ensures 0 < |r.history| && r.history[|r.history| - 1] == r.estimate
    ensures IsSuffix(r.history, f.history + [r.estimate])
    ensures |f.history| <= HistoryCap ==> |r.history| <= HistoryCap
    ensures r.covarianceScale == UpdatedCovariance
    ensures r.(history := f.history, estimate := f.estimate, covarianceScale := f.covarianceScale) == f
  {
    var q := Query(StartPoint(f, trig, heading, strideLength), f.estimate,
      heading, strideLength, f.plan.widthM, f.plan.heightM);
    var est := minimize(q);
    f.(estimate := est, covarianceScale := UpdatedCovariance,
       history := AppendBounded(f.history, est, HistoryCap))
  }

  /** `reset(x, y)`. */
  function Reset(f: Filter, x: real, y: real): (r: Filter)
    ensures r.history == [] && r.estimate == Pos(x, y)
    ensures r.covarianceScale == InitialCovariance
    ensures r.(history := f.history, estimate := f.estimate, covarianceScale := f.covarianceScale) == f
  {
    f.(history := [], estimate := Pos(x, y), covarianceScale := InitialCovariance)
  }

  /** Reset forgets all state: two filters with the same configuration are
      indistinguishable after resetting to the same point. */
  lemma ResetForgetsState(f: Filter, g: Filter, x: real, y: real)
    requires g == f.(history := g.history, estimate := g.estimate, covarianceScale := g.covarianceScale)
    ensures Reset(f, x, y) == Reset(g, x, y)
  {
  }

  /** Resetting a fresh filter to its start position changes nothing. */
  lemma ResetToStartIsInit(plan: Plan, strideLength: real, nHistory: int)
    ensures Reset(Init(plan, strideLength, nHistory), StartX, StartY) == Init(plan, strideLength, nHistory)
  {
  }
}
