/** The offline comparison of naive dead reckoning with the Bayesian filter:
    the simulated walk, the two trajectory builders and the per-step error. */
module Comparison {
  import opened Wrappers
  import opened RealArith
  import opened Geometry
  import opened Buffers
  import opened FloorPlan
  import BF = BayesianFilter

  /** Strides in the simulated walk: five north, then five east. */
  const WalkSteps: nat := 10
  /** The simulated walk's start and nominal stride length. */
  const WalkStart: Pos := Pos(2.0, 4.0)
  const NominalStride: real := 0.7

  /** The true heading of step `k`: north (0) for the first five steps, east
      (`pi/2`) for the rest. `pi` is supplied by the caller. */
  function TrueHeading(k: int, pi: real): real {
    if k < 5 then 0.0 else pi / 2.0
  }

  /** `simulate_walk_with_drift()`. The three normal draws of step `k` are
      inputs: `drift[k]` (the drift increment), `noise[k]` (the measurement
      noise) and `strideNoise[k]` (the stride variation). */
  method SimulateWalkWithDrift(trig: Trig, pi: real, drift: seq<real>, noise: seq<real>, strideNoise: seq<real>)
    returns (groundTruth: seq<Pos>, imu: seq<real>)
    requires |drift| == WalkSteps && |noise| == WalkSteps && |strideNoise| == WalkSteps
    ensures |groundTruth| == WalkSteps + 1 && |imu| == WalkSteps
    ensures groundTruth[0] == WalkStart
    ensures forall k :: 0 <= k < WalkSteps ==>
      groundTruth[k + 1] == Stride(groundTruth[k], trig, TrueHeading(k, pi), NominalStride + strideNoise[k])
    ensures forall k :: 0 <= k < WalkSteps ==>
      imu[k] == TrueHeading(k, pi) + Sum(drift[..k + 1]) + noise[k]
  {
    groundTruth := [WalkStart];
    imu := [];
    var headingDrift := 0.0;
    var k := 0;
    while k < WalkSteps
      invariant 0 <= k <= WalkSteps
      invariant |groundTruth| == k + 1 && |imu| == k
      invariant groundTruth[0] == WalkStart
      invariant headingDrift == Sum(drift[..k])
      invariant forall i :: 0 <= i < k ==>
        groundTruth[i + 1] == Stride(groundTruth[i], trig, TrueHeading(i, pi), NominalStride + strideNoise[i])
      invariant forall i :: 0 <= i < k ==> imu[i] == TrueHeading(i, pi) + Sum(drift[..i + 1]) + noise[i]
    {
      assert drift[..k + 1][..k] == drift[..k];
      headingDrift := headingDrift + drift[k];
      imu := imu + [TrueHeading(k, pi) + headingDrift + noise[k]];
      var last := groundTruth[|groundTruth| - 1];
      groundTruth := groundTruth + [Stride(last, trig, TrueHeading(k, pi), NominalStride + strideNoise[k])];
      k := k + 1;
    }
  }

  /** `run_naive_algorithm(start_pos, imu_headings, stride_length)`: integrate
      the headings. The start is a value, so the caller's copy is untouched. */
  method RunNaive(start: Pos, trig: Trig, headings: seq<real>, strideLength: real) returns (traj: seq<Pos>)
    ensures |traj| == |headings| + 1 && traj[0] == start
    ensures forall k :: 0 <= k < |headings| ==>
      traj[k + 1] == Stride(traj[k], trig, headings[k], strideLength)
  {
    traj := [start];
    var k := 0;
    while k < |headings|
      invariant 0 <= k <= |headings|
      invariant |traj| == k + 1 && traj[0] == start
      invariant forall i :: 0 <= i < k ==> traj[i + 1] == Stride(traj[i], trig, headings[i], strideLength)
    {
      traj := traj + [Stride(traj[k], trig, headings[k], strideLength)];
      k := k + 1;
    }
  }

  /** The summed stride vectors of a heading sequence, accumulated from the front. */
  function Displacement(trig: Trig, headings: seq<real>, strideLength: real): Pos
    decreases |headings|
  {
    if |headings| == 0 then Pos(0.0, 0.0)
    else
      var d := Displacement(trig, headings[..|headings| - 1], strideLength);
      Stride(d, trig, headings[|headings| - 1], strideLength)
  }

  /** The naive trajectory's end point is the start plus the sum of the
      stride vectors: dead reckoning never corrects an earlier step. */
  lemma {:induction false} NaiveEndPoint(traj: seq<Pos>, trig: Trig, headings: seq<real>, strideLength: real)
    requires |traj| == |headings| + 1
    requires forall k :: 0 <= k < |headings| ==>
      traj[k + 1] == Stride(traj[k], trig, headings[k], strideLength)
    ensures var d := Displacement(trig, headings, strideLength);
      traj[|headings|] == Pos(traj[0].x + d.x, traj[0].y + d.y)
    decreases |headings|
  {
    if |headings| > 0 {
      var n := |headings| - 1;
      NaiveEndPoint(traj[..n + 1], trig, headings[..n], strideLength);
    }
  }

  /** Every point of `s` lies in the `w` by `h` box. */
  predicate AllInBox(s: seq<Pos>, w: real, h: real) {
    forall i :: 0 <= i < |s| ==> InBox(s[i], w, h)
  }

  lemma AppendInBox(traj: seq<Pos>, p: Pos, w: real, h: real)
    requires 0 < |traj| && AllInBox(traj[1..], w, h) && InBox(p, w, h)
    ensures AllInBox((traj + [p])[1..], w, h)
  {
    assert (traj + [p])[1..] == traj[1..] + [p];
  }

  /** One filter step: the new estimate, in the box when the optimiser
      respects its bounds. */
  function BayesianStep(bf: BF.Filter, trig: Trig, minimize: BF.Query -> Pos, heading: real,
                        strideLength: real): (r: BF.Filter)
    requires Valid(bf.plan)
    ensures r == BF.Update(bf, trig, minimize, heading, strideLength) && r.plan == bf.plan
    ensures BF.RespectsBounds(minimize) && 0.0 <= bf.plan.widthM && 0.0 <= bf.plan.heightM ==>
      InBox(r.estimate, bf.plan.widthM, bf.plan.heightM)
  {
    BF.Update(bf, trig, minimize, heading, strideLength)
  }

  /** `run_bayesian_algorithm(floor_plan, start_pos, imu_headings, stride_length)`:
      a fresh filter placed at the start, updated once per heading. */
  method RunBayesian(plan: Plan, start: Pos, trig: Trig, minimize: BF.Query -> Pos,
                     headings: seq<real>, strideLength: real) returns (traj: seq<Pos>)
    requires Valid(plan)
    ensures |traj| == |headings| + 1 && traj[0] == start
    ensures BF.RespectsBounds(minimize) && 0.0 <= plan.widthM && 0.0 <= plan.heightM ==>
      AllInBox(traj[1..], plan.widthM, plan.heightM)
  {
    var bf := BF.Init(plan, strideLength, 3).(estimate := start);
    ghost var bounded := BF.RespectsBounds(minimize) && 0.0 <= plan.widthM && 0.0 <= plan.heightM;
    traj := [start];
    var k := 0;
    while k < |headings|
      invariant 0 <= k <= |headings|
      invariant |traj| == k + 1 && traj[0] == start && bf.plan == plan
      invariant bounded ==> AllInBox(traj[1..], plan.widthM, plan.heightM)
    {
      bf := BayesianStep(bf, trig, minimize, headings[k], strideLength);
      if bounded {
        AppendInBox(traj, bf.estimate, plan.widthM, plan.heightM);
      }
      traj := traj + [bf.estimate];
      k := k + 1;
    }
  }

  /** `calculate_errors(trajectory, ground_truth)`: the Euclidean error at
      each step, over the common prefix (`zip` stops at the shorter list). */
  function CalculateErrors(traj: seq<Pos>, groundTruth: seq<Pos>, sqrt: real -> real): (errors: seq<real>)
    requires IsSqrt(sqrt)
    ensures |errors| == Min(|traj|, |groundTruth|)
    ensures forall k :: 0 <= k < |errors| ==>
      0.0 <= errors[k] && (errors[k] == 0.0 <==> traj[k] == groundTruth[k]) &&
      Sq(errors[k]) == SqDist(traj[k], groundTruth[k])
  {
    var n := Min(|traj|, |groundTruth|);
    seq(n, k requires 0 <= k < n => Distance(traj[k], groundTruth[k], sqrt))
  }

  /** A trajectory compared with itself has zero error everywhere. */
  lemma SelfErrorIsZero(traj: seq<Pos>, sqrt: real -> real)
    requires IsSqrt(sqrt)
    ensures CalculateErrors(traj, traj, sqrt) == seq(|traj|, k => 0.0)
  {
  }
}
