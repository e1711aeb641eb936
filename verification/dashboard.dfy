/** The advanced web dashboard's state and routes as pure transitions over
    one record of its globals: the heading smoother, stride processing for
    the three trajectories, ground truth, errors, reset, parameters and the
    auto-walk switch with one step of its monitor thread. Timestamps, the
    rounding of stored positions to millimetres and the hardware calls are
    left out; sensor readings are inputs. */
module Dashboard {
  import opened Wrappers
  import opened RealArith
  import opened Geometry
  import opened FloorPlan
  import opened StrideDetection
  import BF = BayesianFilter

  const DefaultStrideLength: real := 0.7

  /** The scalar Kalman filter on the yaw, with its noise parameters. */
  datatype HeadingState = HeadingState(yaw: real, p: real, q: real, r: real)

  const InitialHeading: HeadingState := HeadingState(0.0, 1.0, 0.01, 0.1)

  /** `simple_kalman_filter(measurement, state)`: the smoothed yaw and the
      new state. Python raises ZeroDivisionError when `P + Q + R` is zero;
      that is None here. */
  function SmoothHeading(measurement: real, s: HeadingState): (r: Option<(real, HeadingState)>)
    ensures r.None? <==> s.p + s.q + s.r == 0.0
    ensures r.Some? ==> r.value.1.yaw == r.value.0 && r.value.1.q == s.q && r.value.1.r == s.r
  {
    var pPred := s.p + s.q;
    if pPred + s.r == 0.0 then None
    else
      var k := pPred / (pPred + s.r);
      var est := s.yaw + Mul(k, measurement - s.yaw);
      Some((est, s.(yaw := est, p := Mul(1.0 - k, pPred))))
  }

  /** The gain `K = P_pred / (P_pred + R)`. */
  function Gain(s: HeadingState): real
    requires s.p + s.q + s.r != 0.0
  {
    (s.p + s.q) / (s.p + s.q + s.r)
  }

  lemma GainInUnitInterval(s: HeadingState)
    requires 0.0 <= s.p && 0.0 <= s.q && 0.0 < s.r
    ensures 0.0 <= Gain(s) < 1.0
  {
    var a, b := s.p + s.q, s.p + s.q + s.r;
    QuotientNonNegative(a, b);
    assert Gain(s) * b == a;
  }

  /** With non-negative covariance and process noise and positive
      measurement noise the smoother is defined, the smoothed yaw lies
      between the previous yaw and the measurement, and the new covariance
      lies between zero and the predicted covariance. */
  lemma SmoothHeadingBounds(measurement: real, s: HeadingState)
    requires 0.0 <= s.p && 0.0 <= s.q && 0.0 < s.r
    ensures SmoothHeading(measurement, s).Some?
    ensures var est := SmoothHeading(measurement, s).value.0;
      (s.yaw <= measurement ==> s.yaw <= est <= measurement) &&
      (measurement <= s.yaw ==> measurement <= est <= s.yaw)
    ensures var p := SmoothHeading(measurement, s).value.1.p;
      0.0 <= p <= s.p + s.q
  {
    GainInUnitInterval(s);
    var k := Gain(s);
    var d := measurement - s.yaw;
    if 0.0 <= d {
      MulWeak(0.0, k, d);
      MulWeak(k, 1.0, d);
    } else {
      MulWeak(0.0, k, -d);
      MulWeak(k, 1.0, -d);
      assert Mul(k, d) == -Mul(k, -d);
    }
    MulWeak(0.0, 1.0 - k, s.p + s.q);
    MulWeak(1.0 - k, 1.0, s.p + s.q);
  }

  /** A measurement equal to the current yaw leaves the yaw where it is. */
  lemma SmoothHeadingFixpoint(s: HeadingState)
    requires s.p + s.q + s.r != 0.0
    ensures SmoothHeading(s.yaw, s).Some? && SmoothHeading(s.yaw, s).value.0 == s.yaw
  {
  }

  /** One trajectory point: the stride number it was recorded at, the
      displayed position and the heading used (radians). */
  datatype Entry = Entry(stride: int, pos: Pos, yaw: real)

  datatype GroundTruthEntry = GroundTruthEntry(stride: int, pos: Pos, note: string)

  datatype Algorithm = Naive | Bayesian | Particle

  /** The dashboard's globals. */
  datatype State = State(
    strideCount: int,
    strideLength: real,
    lastStrideTime: real,
    naive: seq<Entry>,
    bayesian: seq<Entry>,
    particle: seq<Entry>,
    groundTruth: seq<GroundTruthEntry>,
    naivePos: Pos,
    bayesianPos: Pos,
    particlePos: Pos,
    heading: HeadingState,
    filter: BF.Filter,
    strideThreshold: real,
    autoWalkActive: bool)
  {
    function Trajectory(a: Algorithm): seq<Entry> {
      match a
      case Naive => naive
      case Bayesian => bayesian
      case Particle => particle
    }

    function Position(a: Algorithm): Pos {
      match a
      case Naive => naivePos
      case Bayesian => bayesianPos
      case Particle => particlePos
    }
  }

  /** The globals at start-up, with the filter built on `plan`. The
      dashboard passes the `20 m x 10 m` room at `0.1 m`, which is a valid
      plan (`DashboardPlanExists`). */
  function Init(plan: Plan): (st: State)
    ensures st.strideCount == 0 && st.naive == [] && st.bayesian == [] && st.particle == []
    ensures st.groundTruth == []
    ensures st.naivePos == Pos(0.0, 0.0) && st.particlePos == Pos(0.0, 0.0)
    ensures st.bayesianPos == st.filter.estimate == Pos(BF.StartX, BF.StartY)
    ensures st.heading == HeadingState(0.0, 1.0, 0.01, 0.1)
    ensures st.strideLength == 0.7 && st.lastStrideTime == 0.0
    ensures st.filter == BF.Init(plan, 0.7, 3)
    ensures st.strideThreshold == 1.2 && !st.autoWalkActive
  {
    State(0, DefaultStrideLength, 0.0, [], [], [], [], Pos(0.0, 0.0), Pos(BF.StartX, BF.StartY),
      Pos(0.0, 0.0), InitialHeading, BF.Init(plan, DefaultStrideLength, 3), StrideThreshold, false)
  }

  /** The room the dashboard is built with is a valid plan. */
  lemma DashboardPlanExists()
    ensures Create(20.0, 10.0, 0.1).Some?
  {
    assert 20.0 / 0.1 == 200.0 && 10.0 / 0.1 == 100.0;
  }

  /** `detect_stride(accel_data)` with the clock read as `now`, against the
      current threshold (1.2 g unless the auto-walk start replaced it). */
  function DetectStride(st: State, a: Accel, now: real, sqrt: real -> real): (r: (bool, State))
    requires IsSqrt(sqrt)
    ensures r.1 == st.(lastStrideTime := r.1.lastStrideTime)
    ensures r.0 <==> r.1.lastStrideTime != st.lastStrideTime
    ensures r.0 ==> r.1.lastStrideTime == now
    ensures r.0 <==> Magnitude(a, sqrt) > st.strideThreshold && now - st.lastStrideTime > MinStrideInterval
  {
    var d := Detect(a, now, st.lastStrideTime, st.strideThreshold, MinStrideInterval, sqrt);
    (d.0, st.(lastStrideTime := d.1))
  }

  /** `process_stride_all_algorithms(yaw)`: every trajectory gets exactly one
      new point, recorded under the old stride count, and the count goes up
      by one. The Bayesian filter takes one update step and the displayed
      Bayesian position is its new estimate. Ground truth, smoother, settings
      and the auto-walk state are untouched. */
  function ProcessStrideAll(st: State, trig: Trig, minimize: BF.Query -> Pos, yaw: real): (r: State)
    requires Valid(st.filter.plan)
    ensures r.strideCount == st.strideCount + 1
    ensures r.naive == st.naive + [Entry(st.strideCount, r.naivePos, yaw)]
    ensures r.bayesian == st.bayesian + [Entry(st.strideCount, r.bayesianPos, yaw)]
    ensures r.particle == st.particle + [Entry(st.strideCount, r.particlePos, yaw)]
    ensures r.naivePos == Stride(st.naivePos, trig, yaw, st.strideLength)
    ensures r.particlePos == Stride(st.particlePos, trig, yaw, st.strideLength)
    ensures r.bayesianPos == r.filter.estimate
    ensures r.groundTruth == st.groundTruth && r.heading == st.heading
    ensures r.strideLength == st.strideLength && r.lastStrideTime == st.lastStrideTime
    ensures r.filter.plan == st.filter.plan
    ensures r.filter == BF.Update(st.filter, trig, minimize, yaw, st.strideLength)
    ensures r.strideThreshold == st.strideThreshold && r.autoWalkActive == st.autoWalkActive
  {
    var naivePos := Stride(st.naivePos, trig, yaw, st.strideLength);
    var f := BF.Update(st.filter, trig, minimize, yaw, st.strideLength);
    var particlePos := Stride(st.particlePos, trig, yaw, st.strideLength);
    st.(naivePos := naivePos, naive := st.naive + [Entry(st.strideCount, naivePos, yaw)],
        filter := f, bayesianPos := f.estimate,
        bayesian := st.bayesian + [Entry(st.strideCount, f.estimate, yaw)],
        particlePos := particlePos, particle := st.particle + [Entry(st.strideCount, particlePos, yaw)],
        strideCount := st.strideCount + 1)
  }

  /** The particle trajectory is a placeholder: it moves exactly like the
      naive one, so the two stay together whenever they start together. */
  lemma ParticleFollowsNaive(st: State, trig: Trig, minimize: BF.Query -> Pos, yaw: real)
    requires Valid(st.filter.plan) && st.naivePos == st.particlePos
    ensures var r := ProcessStrideAll(st, trig, minimize, yaw);
      r.naivePos == r.particlePos
  {
  }

  /** The algorithm an URL segment names, if any. */
  function ParseAlgorithm(name: string): (a: Option<Algorithm>)
    ensures a.Some? <==> name in {"naive", "bayesian", "particle"}
  {
    if name == "naive" then Some(Naive)
    else if name == "bayesian" then Some(Bayesian)
    else if name == "particle" then Some(Particle)
    else None
  }

  /** The URL segment of an algorithm. */
  function NameOf(a: Algorithm): (name: string)
    ensures ParseAlgorithm(name) == Some(a)
  {
    match a
    case Naive => "naive"
    case Bayesian => "bayesian"
    case Particle => "particle"
  }

  /** The JSON reply of `record_stride`. */
  datatype StrideReply = StrideReply(stride: int, position: Pos, algorithm: Algorithm)

  /** The heading a manual stride uses. */
  function StrideYaw(st: State, useFiltered: bool, sensorYaw: real): real {
    if useFiltered then st.heading.yaw else sensorYaw
  }

  /** One manual stride for the algorithm `a` along `yaw`: `a`'s position
      moves (the Bayesian one through a filter update), `a`'s trajectory
      gains the new point under the old count, and the count goes up. */
  function StrideOne(st: State, trig: Trig, minimize: BF.Query -> Pos, a: Algorithm, yaw: real): (r: State)
    requires Valid(st.filter.plan)
    ensures r.strideCount == st.strideCount + 1
    ensures forall b: Algorithm :: b != a ==> r.Trajectory(b) == st.Trajectory(b) && r.Position(b) == st.Position(b)
    ensures r.Trajectory(a) == st.Trajectory(a) + [Entry(st.strideCount, r.Position(a), yaw)]
    ensures a == Naive ==> r.naivePos == Stride(st.naivePos, trig, yaw, st.strideLength)
    ensures a == Particle ==> r.particlePos == Stride(st.particlePos, trig, yaw, st.strideLength)
    ensures a == Bayesian ==> r.filter == BF.Update(st.filter, trig, minimize, yaw, st.strideLength)
    ensures a == Bayesian ==> r.bayesianPos == r.filter.estimate
    ensures a != Bayesian ==> r.filter == st.filter
    ensures r.groundTruth == st.groundTruth && r.heading == st.heading
    ensures r.filter.plan == st.filter.plan
    ensures r.strideLength == st.strideLength && r.lastStrideTime == st.lastStrideTime
    ensures r.strideThreshold == st.strideThreshold && r.autoWalkActive == st.autoWalkActive
  {
    match a
    case Naive =>
      var p := Stride(st.naivePos, trig, yaw, st.strideLength);
      st.(naivePos := p, naive := st.naive + [Entry(st.strideCount, p, yaw)], strideCount := st.strideCount + 1)
    case Bayesian =>
      var f := BF.Update(st.filter, trig, minimize, yaw, st.strideLength);
      st.(filter := f, bayesianPos := f.estimate, bayesian := st.bayesian + [Entry(st.strideCount, f.estimate, yaw)],
          strideCount := st.strideCount + 1)
    case Particle =>
      var p := Stride(st.particlePos, trig, yaw, st.strideLength);
      st.(particlePos := p, particle := st.particle + [Entry(st.strideCount, p, yaw)], strideCount := st.strideCount + 1)
  }

  /** `record_stride(algorithm)`. The heading is the smoother's yaw when
      `useFiltered`, otherwise the sensor's yaw. An unknown algorithm name
      still increments the stride count before the lookup of its position
      fails (a KeyError, so an HTTP error reply). */
  function RecordStride(st: State, trig: Trig, minimize: BF.Query -> Pos, name: string,
                        useFiltered: bool, sensorYaw: real): (r: (State, Result<StrideReply>))
    requires Valid(st.filter.plan)
    ensures r.0.strideCount == st.strideCount + 1
    ensures r.1.Success? <==> ParseAlgorithm(name).Some?
    ensures forall a: Algorithm :: ParseAlgorithm(name) != Some(a) ==>
      r.0.Trajectory(a) == st.Trajectory(a) && r.0.Position(a) == st.Position(a)
    ensures forall a: Algorithm :: ParseAlgorithm(name) == Some(a) ==>
      r.0.Trajectory(a) == st.Trajectory(a) + [Entry(st.strideCount, r.0.Position(a), StrideYaw(st, useFiltered, sensorYaw))] &&
      r.1 == Success(StrideReply(r.0.strideCount, r.0.Position(a), a))
    ensures ParseAlgorithm(name) == Some(Naive) ==>
      r.0.naivePos == Stride(st.naivePos, trig, StrideYaw(st, useFiltered, sensorYaw), st.strideLength)
    ensures ParseAlgorithm(name) == Some(Particle) ==>
      r.0.particlePos == Stride(st.particlePos, trig, StrideYaw(st, useFiltered, sensorYaw), st.strideLength)
    ensures ParseAlgorithm(name) == Some(Bayesian) ==>
      r.0.filter == BF.Update(st.filter, trig, minimize, StrideYaw(st, useFiltered, sensorYaw), st.strideLength)
    ensures ParseAlgorithm(name) != Some(Bayesian) ==> r.0.filter == st.filter
    ensures ParseAlgorithm(name) == Some(Bayesian) ==> r.0.bayesianPos == r.0.filter.estimate
    ensures r.0.groundTruth == st.groundTruth && r.0.heading == st.heading
    ensures r.0.filter.plan == st.filter.plan
    ensures r.0.strideLength == st.strideLength && r.0.lastStrideTime == st.lastStrideTime
    ensures r.0.strideThreshold == st.strideThreshold && r.0.autoWalkActive == st.autoWalkActive
  {
    match ParseAlgorithm(name)
    case None =>
      (st.(strideCount := st.strideCount + 1), Failure("KeyError: " + name))
    case Some(a) =>
      var s := StrideOne(st, trig, minimize, a, StrideYaw(st, useFiltered, sensorYaw));
      (s, Success(StrideReply(s.strideCount, s.Position(a), a)))
  }

  /** `set_ground_truth()`: missing coordinates default to 0 and a missing
      note to the empty string. */
  function SetGroundTruth(st: State, x: Option<real>, y: Option<real>, note: Option<string>): (r: State)
    ensures r == st.(groundTruth := r.groundTruth)
    ensures |r.groundTruth| == |st.groundTruth| + 1
    ensures r.groundTruth[..|st.groundTruth|] == st.groundTruth
    ensures r.groundTruth[|st.groundTruth|].stride == st.strideCount
    ensures x.Some? && y.Some? ==> r.groundTruth[|st.groundTruth|].pos == Pos(x.value, y.value)
    ensures r.groundTruth[|st.groundTruth|] ==
      GroundTruthEntry(st.strideCount, Pos(x.GetOr(0.0), y.GetOr(0.0)), note.GetOr(""))
  {
    st.(groundTruth := st.groundTruth + [GroundTruthEntry(st.strideCount, Pos(x.GetOr(0.0), y.GetOr(0.0)), note.GetOr(""))])
  }

  function Abs(v: real): (a: real)
    ensures 0.0 <= a && (a == v || a == -v)
  {
    if v < 0.0 then -v else v
  }

  /** The error of one trajectory's latest point against the latest ground truth. */
  datatype ErrorReport = ErrorReport(distance: real, xError: real, yError: real)

  /** One report per algorithm that has a trajectory. */
  datatype Errors = Errors(naive: Option<ErrorReport>, bayesian: Option<ErrorReport>, particle: Option<ErrorReport>) {
    function Report(a: Algorithm): Option<ErrorReport> {
      match a
      case Naive => naive
      case Bayesian => bayesian
      case Particle => particle
    }
  }

  function ReportFor(traj: seq<Entry>, gt: Pos, sqrt: real -> real): (r: Option<ErrorReport>)
    requires IsSqrt(sqrt)
    ensures r.Some? <==> 0 < |traj|
    ensures r.Some? ==> var latest := traj[|traj| - 1].pos;
      r.value.distance == Distance(latest, gt, sqrt) &&
      r.value.xError == Abs(latest.x - gt.x) && r.value.yError == Abs(latest.y - gt.y)
  {
    if |traj| == 0 then None
    else
      var latest := traj[|traj| - 1].pos;
      Some(ErrorReport(Distance(latest, gt, sqrt), Abs(latest.x - gt.x), Abs(latest.y - gt.y)))
  }

  /** `get_errors()`. */
  function GetErrors(st: State, sqrt: real -> real): (r: Result<Errors>)
    requires IsSqrt(sqrt)
    ensures r.Failure? <==> |st.groundTruth| == 0
    ensures r.Success? ==> forall a: Algorithm :: r.value.Report(a).Some? <==> 0 < |st.Trajectory(a)|
    ensures r.Success? ==> forall a: Algorithm :: r.value.Report(a).Some? ==>
      var e := r.value.Report(a).value;
      0.0 <= e.distance && 0.0 <= e.xError && 0.0 <= e.yError
    ensures r.Success? ==> forall a: Algorithm ::
      r.value.Report(a) == ReportFor(st.Trajectory(a), st.groundTruth[|st.groundTruth| - 1].pos, sqrt)
  {
    if |st.groundTruth| == 0 then Failure("No ground truth data")
    else
      var gt := st.groundTruth[|st.groundTruth| - 1].pos;
      Success(Errors(ReportFor(st.naive, gt, sqrt), ReportFor(st.bayesian, gt, sqrt), ReportFor(st.particle, gt, sqrt)))
  }

  /** Each report is consistent: the distance is the hypotenuse of the two
      axis errors, and it is zero exactly when the latest point is the
      ground truth. */
  lemma ErrorReportPythagoras(st: State, sqrt: real -> real, a: Algorithm)
    requires IsSqrt(sqrt)
    requires GetErrors(st, sqrt).Success? && GetErrors(st, sqrt).value.Report(a).Some?
    ensures var e := GetErrors(st, sqrt).value.Report(a).value;
      Sq(e.distance) == Sq(e.xError) + Sq(e.yError)
    ensures var e := GetErrors(st, sqrt).value.Report(a).value;
      var t := st.Trajectory(a);
      e.distance == 0.0 <==> t[|t| - 1].pos == st.groundTruth[|st.groundTruth| - 1].pos
  {
    var t := st.Trajectory(a);
    var latest := t[|t| - 1].pos;
    var gt := st.groundTruth[|st.groundTruth| - 1].pos;
    SqAbs(latest.x - gt.x);
    SqAbs(latest.y - gt.y);
  }

  lemma SqAbs(v: real)
    ensures Sq(Abs(v)) == Sq(v)
  {
  }

  /** `reset()`: counters, trajectories and displayed positions are cleared
      to the origin, while the Bayesian filter itself restarts at its start
      position `(2, 4)`. The smoother, stride length and last stride time
      survive. */
  function Reset(st: State): (r: State)
    ensures r.strideCount == 0
    ensures forall a: Algorithm :: r.Trajectory(a) == [] && r.Position(a) == Pos(0.0, 0.0)
    ensures r.groundTruth == []
    ensures r.filter == BF.Reset(st.filter, BF.StartX, BF.StartY)
    ensures r.heading == st.heading && r.strideLength == st.strideLength
    ensures r.lastStrideTime == st.lastStrideTime
    ensures r.strideThreshold == st.strideThreshold && r.autoWalkActive == st.autoWalkActive
  {
    st.(strideCount := 0, naivePos := Pos(0.0, 0.0), bayesianPos := Pos(0.0, 0.0),
        particlePos := Pos(0.0, 0.0), naive := [], bayesian := [], particle := [], groundTruth := [],
        filter := BF.Reset(st.filter, BF.StartX, BF.StartY))
  }

  /** After a reset the displayed Bayesian position disagrees with the
      filter's estimate, and the next Bayesian stride starts from `(2, 4)`,
      not from the displayed origin. */
  lemma ResetDisplayMismatch(st: State)
    ensures Reset(st).bayesianPos != Reset(st).filter.estimate
    ensures Reset(st).filter.estimate == Pos(BF.StartX, BF.StartY)
  {
  }

  /** Reset is idempotent. */
  lemma ResetIdempotent(st: State)
    ensures Reset(Reset(st)) == Reset(st)
  {
  }

  /** `update_parameters()`: each field present in the request replaces
      its setting; the stride length goes to the Bayesian filter as well. */
  function UpdateParameters(st: State, strideLength: Option<real>, q: Option<real>, r: Option<real>): (res: State)
    ensures strideLength.Some? ==> res.strideLength == strideLength.value && res.filter.strideLength == strideLength.value
    ensures strideLength.None? ==> res.strideLength == st.strideLength && res.filter == st.filter
    ensures res.heading == st.heading.(q := q.GetOr(st.heading.q), r := r.GetOr(st.heading.r))
    ensures res == st.(strideLength := res.strideLength, filter := res.filter, heading := res.heading)
    ensures res.filter == st.filter.(strideLength := res.filter.strideLength)
  {
    var s1 := if strideLength.Some? then
      st.(strideLength := strideLength.value, filter := st.filter.(strideLength := strideLength.value))
      else st;
    var s2 := if q.Some? then s1.(heading := s1.heading.(q := q.value)) else s1;
    if r.Some? then s2.(heading := s2.heading.(r := r.value)) else s2
  }

  /** An empty parameter request changes nothing. */
  lemma EmptyParametersChangeNothing(st: State)
    ensures UpdateParameters(st, None, None, None) == st
  {
  }

  /** `get_filtered_sensors()` on the yaw reading `rawYaw`: the smoother
      advances, and nothing else changes. None where the smoother divides by
      zero (an HTTP error reply). */
  function FilterHeading(st: State, rawYaw: real): (r: Option<State>)
    ensures r.None? <==> st.heading.p + st.heading.q + st.heading.r == 0.0
    ensures r.Some? ==> r.value == st.(heading := r.value.heading)
    ensures r.Some? ==> r.value.heading == SmoothHeading(rawYaw, st.heading).value.1
  {
    match SmoothHeading(rawYaw, st.heading)
    case None => None
    case Some((_, h)) => Some(st.(heading := h))
  }

  /** After a filtered reading, a manual stride with `use_filtered` heads
      along the smoothed yaw, which lies between the previous yaw and the
      reading. */
  lemma FilteredStrideUsesSmoothedYaw(st: State, rawYaw: real, sensorYaw: real)
    requires 0.0 <= st.heading.p && 0.0 <= st.heading.q && 0.0 < st.heading.r
    ensures FilterHeading(st, rawYaw).Some?
    ensures var yaw := StrideYaw(FilterHeading(st, rawYaw).value, true, sensorYaw);
      (st.heading.yaw <= rawYaw ==> st.heading.yaw <= yaw <= rawYaw) &&
      (rawYaw <= st.heading.yaw ==> rawYaw <= yaw <= st.heading.yaw)
  {
    SmoothHeadingBounds(rawYaw, st.heading);
  }

  /** `start_auto_walk()`: refused (false) while the monitor runs; otherwise
      a given threshold replaces the current one and the monitor starts. */
  function StartAutoWalk(st: State, threshold: Option<real>): (r: (State, bool))
    ensures r.1 <==> !st.autoWalkActive
    ensures !r.1 ==> r.0 == st
    ensures r.1 ==> r.0 == st.(strideThreshold := threshold.GetOr(st.strideThreshold), autoWalkActive := true)
  {
    if st.autoWalkActive then (st, false)
    else (st.(strideThreshold := threshold.GetOr(st.strideThreshold), autoWalkActive := true), true)
  }

  /** `stop_auto_walk()`: refused (false) when the monitor is not running;
      otherwise it stops. The threshold stays as the start left it. */
  function StopAutoWalk(st: State): (r: (State, bool))
    ensures r.1 <==> st.autoWalkActive
    ensures r.0 == st.(autoWalkActive := false)
  {
    if !st.autoWalkActive then (st, false) else (st.(autoWalkActive := false), true)
  }

  /** Starting and then stopping the monitor leaves only the threshold
      changed, so later manual strides and detections use the new one. */
  lemma StartStopKeepsThreshold(st: State, threshold: real)
    requires !st.autoWalkActive
    ensures var started := StartAutoWalk(st, Some(threshold));
      started.1 && StopAutoWalk(started.0).1 &&
      StopAutoWalk(started.0).0 == st.(strideThreshold := threshold)
  {
  }

  /** One pass of `auto_walk_monitor` while it runs: a detected stride reads
      the yaw `rawYaw`, smooths it and processes it for all three algorithms
      under the smoothed yaw. Where the smoother divides by zero the
      exception is caught after `detect_stride` already moved the
      last-stride time. A stopped monitor does nothing. */
  function AutoWalkStep(st: State, a: Accel, now: real, rawYaw: real, trig: Trig,
                        minimize: BF.Query -> Pos, sqrt: real -> real): (r: State)
    requires IsSqrt(sqrt) && Valid(st.filter.plan)
    ensures !st.autoWalkActive || !DetectStride(st, a, now, sqrt).0 ==> r == st
    ensures st.autoWalkActive && DetectStride(st, a, now, sqrt).0 && FilterHeading(st, rawYaw).None? ==>
      r == st.(lastStrideTime := now)
    ensures st.autoWalkActive && DetectStride(st, a, now, sqrt).0 && FilterHeading(st, rawYaw).Some? ==>
      var h := FilterHeading(st, rawYaw).value.heading;
      r.heading == h && r.lastStrideTime == now && r.strideCount == st.strideCount + 1 &&
      (forall alg: Algorithm :: r.Trajectory(alg) == st.Trajectory(alg) + [Entry(st.strideCount, r.Position(alg), h.yaw)]) &&
      r.naivePos == Stride(st.naivePos, trig, h.yaw, st.strideLength) &&
      r.particlePos == Stride(st.particlePos, trig, h.yaw, st.strideLength) &&
      r.filter == BF.Update(st.filter, trig, minimize, h.yaw, st.strideLength) &&
      r.bayesianPos == r.filter.estimate &&
      r.groundTruth == st.groundTruth && r.strideThreshold == st.strideThreshold &&
      r.strideLength == st.strideLength && r.autoWalkActive
  {
    if !st.autoWalkActive then st
    else
      var d := DetectStride(st, a, now, sqrt);
      if !d.0 then st
      else match FilterHeading(d.1, rawYaw)
        case None => d.1
        case Some(s1) => ProcessStrideAll(s1, trig, minimize, s1.heading.yaw)
  }

  /** The single-algorithm route and the all-algorithms stride agree: a
      manual stride for `a` with the sensor yaw moves `a`'s trajectory,
      position and the stride count exactly as processing that yaw for all
      three algorithms does, and for "bayesian" it updates the filter the
      same way. */
  lemma RecordStrideAgreesWithAll(st: State, trig: Trig, minimize: BF.Query -> Pos, a: Algorithm, yaw: real)
    requires Valid(st.filter.plan)
    ensures var one := RecordStride(st, trig, minimize, NameOf(a), false, yaw).0;
      var all := ProcessStrideAll(st, trig, minimize, yaw);
      one.Trajectory(a) == all.Trajectory(a) && one.Position(a) == all.Position(a) &&
      one.strideCount == all.strideCount &&
      (a == Bayesian ==> one.filter == all.filter)
  {
  }

  /** A running monitor that detects a stride does what the filtered-sensor
      route followed by the all-algorithms stride on the smoothed yaw does,
      from the state whose last-stride time moved to `now`. */
  lemma AutoWalkIsFilterThenStride(st: State, a: Accel, now: real, rawYaw: real, trig: Trig,
                                   minimize: BF.Query -> Pos, sqrt: real -> real)
    requires IsSqrt(sqrt) && Valid(st.filter.plan)
    requires st.autoWalkActive && DetectStride(st, a, now, sqrt).0
    requires FilterHeading(st, rawYaw).Some?
    ensures var s1 := FilterHeading(st.(lastStrideTime := now), rawYaw).value;
      AutoWalkStep(st, a, now, rawYaw, trig, minimize, sqrt) ==
      ProcessStrideAll(s1, trig, minimize, s1.heading.yaw)
  {
  }
}
