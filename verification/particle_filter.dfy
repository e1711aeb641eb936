/** The particle filter: noisy prediction, floor-plan reweighting with a
    uniform fallback, systematic resampling gated on the effective sample
    size, and the weighted-mean estimate. Every random draw is an input. */
module ParticleFilter {
  import opened Wrappers
  import opened RealArith
  import opened Geometry
  import opened Buffers
  import opened FloorPlan

  /** Standard deviation of the initial spread, and the process noises
      (the model takes the draws as inputs; these are recorded only). */
  const InitialSpread: real := 0.5
  const PositionNoise: real := 0.3
  const HeadingNoise: real := 0.1

  datatype Filter = Filter(
    plan: Plan,
    n: nat,
    particles: seq<Pos>,
    weights: seq<real>,
    positionNoise: real,
    headingNoise: real)

  /** One weight and one particle per slot, on a constructed floor plan. */
  predicate WellFormed(f: Filter) {
    Valid(f.plan) && |f.particles| == f.n && |f.weights| == f.n
  }

  /** `n` copies of `1/n` (`np.ones(n) / n`). */
  function Uniform(n: nat): (w: seq<real>)
    ensures |w| == n
    ensures 0 < n ==> Sum(w) == 1.0
    ensures forall i :: 0 <= i < n ==> 0.0 < w[i]
  {
    var c := if n == 0 then 0.0 else 1.0 / n as real;
    var w := seq(n, i => c);
    SumConstant(w, c);
    w
  }

  /** `ParticleFilter(floor_plan, n, x, y)`, with the `2n` normal draws of
      the initial spread given as `spreadX` and `spreadY`. */
  function Init(plan: Plan, n: nat, initialX: real, initialY: real, spreadX: seq<real>, spreadY: seq<real>): (f: Filter)
    requires Valid(plan) && |spreadX| == n && |spreadY| == n
    ensures WellFormed(f) && f.n == n
    ensures forall i :: 0 <= i < n ==> f.particles[i] == Pos(initialX + spreadX[i], initialY + spreadY[i])
    ensures f.weights == Uniform(n)
  {
    Filter(plan, n, seq(n, i requires 0 <= i < n => Pos(initialX + spreadX[i], initialY + spreadY[i])),
      Uniform(n), PositionNoise, HeadingNoise)
  }

  /** Immediately after construction the weights already sum to one. */
  lemma InitWeightsNormalised(plan: Plan, n: nat, initialX: real, initialY: real, spreadX: seq<real>, spreadY: seq<real>)
    requires Valid(plan) && |spreadX| == n && |spreadY| == n && 0 < n
    ensures Sum(Init(plan, n, initialX, initialY, spreadX, spreadY).weights) == 1.0
  {
  }

  /** `predict(stride_length, heading)`: particle `i` moves by one stride at
      heading `heading + headingDraw[i]`, plus the position draws. */
  function Predict(f: Filter, trig: Trig, strideLength: real, heading: real,
                   headingDraw: seq<real>, dxDraw: seq<real>, dyDraw: seq<real>): (r: Filter)
    requires WellFormed(f)
    requires |headingDraw| == f.n && |dxDraw| == f.n && |dyDraw| == f.n
    ensures WellFormed(r) && r.(particles := f.particles) == f
    ensures forall i :: 0 <= i < f.n ==>
      r.particles[i].x - f.particles[i].x == strideLength * trig.sin(heading + headingDraw[i]) + dxDraw[i] &&
      r.particles[i].y - f.particles[i].y == strideLength * trig.cos(heading + headingDraw[i]) + dyDraw[i]
  {
    f.(particles := seq(f.n, i requires 0 <= i < f.n =>
      var p := f.particles[i];
      var h := heading + headingDraw[i];
      Pos(p.x + (strideLength * trig.sin(h) + dxDraw[i]), p.y + (strideLength * trig.cos(h) + dyDraw[i]))))
  }

  /** With all draws zero, every particle takes exactly the dead-reckoning stride. */
  lemma NoiselessPredictIsStride(f: Filter, trig: Trig, strideLength: real, heading: real, zeros: seq<real>)
    requires WellFormed(f) && |zeros| == f.n
    requires forall i :: 0 <= i < f.n ==> zeros[i] == 0.0
    ensures forall i :: 0 <= i < f.n ==>
      Predict(f, trig, strideLength, heading, zeros, zeros, zeros).particles[i] ==
      Stride(f.particles[i], trig, heading, strideLength)
  {
  }

  /** The weights multiplied by each particle's floor-plan value. */
  function Likelihoods(f: Filter): (w: seq<real>)
    requires WellFormed(f)
    ensures |w| == f.n
  {
    seq(f.n, i requires 0 <= i < f.n => Mul(f.weights[i], Probability(f.plan, f.particles[i].x, f.particles[i].y)))
  }

  lemma {:induction false} SumPositive(s: seq<real>)
    requires 0 < |s|
    requires forall i :: 0 <= i < |s| ==> 0.0 < s[i]
    ensures 0.0 < Sum(s)
    decreases |s|
  {
    if 1 < |s| {
      SumPositive(s[..|s| - 1]);
    } else {
      assert s[..0] == [];
    }
  }

  /** Each element divided by a positive total: positive entries stay
      positive, and the result sums to one when the total is the sum. */
  function Normalise(s: seq<real>, total: real): (w: seq<real>)
    requires 0.0 < total
    ensures |w| == |s|
    ensures forall i :: 0 <= i < |s| ==> w[i] == s[i] / total
    ensures Sum(s) == total ==> Sum(w) == 1.0
    ensures (forall i :: 0 <= i < |s| ==> 0.0 < s[i]) ==> forall i :: 0 <= i < |s| ==> 0.0 < w[i]
  {
    var w := seq(|s|, i requires 0 <= i < |s| => s[i] / total);
    SumDivide(s, w, total);
    assert total / total == 1.0;
    QuotientsPositive(s, total, w);
    w
  }

  lemma QuotientsPositive(s: seq<real>, total: real, w: seq<real>)
    requires 0.0 < total && |w| == |s|
    requires forall i :: 0 <= i < |s| ==> w[i] == s[i] / total
    ensures (forall i :: 0 <= i < |s| ==> 0.0 < s[i]) ==> forall i :: 0 <= i < |s| ==> 0.0 < w[i]
  {
    if forall i :: 0 <= i < |s| ==> 0.0 < s[i] {
      forall i | 0 <= i < |s|
        ensures 0.0 < w[i]
      {
        QuotientPositive(s[i], total);
      }
    }
  }

  /** `update()`: multiply each weight by its particle's floor-plan value and
      renormalise, falling back to uniform weights when the total is not
      positive. */
  function Reweight(f: Filter): (r: Filter)
    requires WellFormed(f)
    ensures WellFormed(r) && r.(weights := f.weights) == f
    ensures var total := Sum(Likelihoods(f));
      (0.0 < total ==>
        Sum(r.weights) == 1.0 &&
        forall i :: 0 <= i < f.n ==> r.weights[i] == Likelihoods(f)[i] / total) &&
      (total <= 0.0 ==> r.weights == Uniform(f.n))
    ensures (forall i :: 0 <= i < f.n ==> 0.0 < f.weights[i]) ==>
      forall i :: 0 <= i < f.n ==> 0.0 < r.weights[i]
  {
    var scaled := Likelihoods(f);
    var total := Sum(scaled);
    LikelihoodsPositive(f);
    if 0.0 < total then f.(weights := Normalise(scaled, total))
    else f.(weights := Uniform(f.n))
  }

  /** The floor-plan value is positive everywhere, so positive weights give
      positive likelihoods. */
  lemma LikelihoodsPositive(f: Filter)
    requires WellFormed(f)
    ensures (forall i :: 0 <= i < f.n ==> 0.0 < f.weights[i]) ==>
      forall i :: 0 <= i < f.n ==> 0.0 < Likelihoods(f)[i]
  {
    if forall i :: 0 <= i < f.n ==> 0.0 < f.weights[i] {
      forall i | 0 <= i < f.n
        ensures 0.0 < Likelihoods(f)[i]
      {
        MulPositive(f.weights[i], Probability(f.plan, f.particles[i].x, f.particles[i].y));
      }
    }
  }

  /** With positive weights (as after construction) the fallback never
      applies: the floor-plan value is positive everywhere. */
  lemma PositiveWeightsNeverFallBack(f: Filter)
    requires WellFormed(f) && 0 < f.n
    requires forall i :: 0 <= i < f.n ==> 0.0 < f.weights[i]
    ensures 0.0 < Sum(Likelihoods(f))
  {
    LikelihoodsPositive(f);
    SumPositive(Likelihoods(f));
  }

  function Squares(w: seq<real>): (s: seq<real>)
    ensures |s| == |w|
    ensures forall i :: 0 <= i < |w| ==> 0.0 <= s[i]
  {
    seq(|w|, i requires 0 <= i < |w| => SquareSign(w[i]); Sq(w[i]))
  }

  /** The resampling gate `1 / sum(w**2) < n / 2`. A zero sum of squares
      makes the effective sample size infinite, so no resampling. */
  function NeedsResample(w: seq<real>): (b: bool)
    ensures b <==> 2.0 < Mul(|w| as real, Sum(Squares(w)))
  {
    var s := Sum(Squares(w));
    SumNonNegative(Squares(w));
    GateEquivalent(s, |w| as real);
    0.0 < s && 1.0 / s < |w| as real / 2.0
  }

  lemma GateEquivalent(s: real, n: real)
    requires 0.0 <= s && 0.0 <= n
    ensures (0.0 < s && 1.0 / s < n / 2.0) <==> 2.0 < Mul(n, s)
  {
    if 0.0 < s {
      Reciprocal(s);
      assert Mul(n / 2.0, s) * 2.0 == Mul(n, s);
      if 1.0 / s < n / 2.0 {
        MulStrict(1.0 / s, n / 2.0, s);
      } else {
        MulWeak(n / 2.0, 1.0 / s, s);
      }
    }
  }

  /** Uniform weights have effective sample size `n`, so they never trigger resampling. */
  lemma UniformNeverResamples(n: nat)
    requires 0 < n
    ensures !NeedsResample(Uniform(n))
  {
    var w := Uniform(n);
    SumConstant(Squares(w), Sq(1.0 / n as real));
    InverseSquareSum(n as real);
  }

  lemma InverseSquareSum(n: real)
    requires 0.0 < n
    ensures n * (n * Sq(1.0 / n)) == 1.0
  {
    var c := 1.0 / n;
    assert n * c == 1.0;
    assert n * (n * (c * c)) == (n * c) * (n * c);
  }

  /** The systematic sample positions `(i + u) / n`. */
  function SamplePosition(i: int, u: real, n: nat): real
    requires 0 < n
  {
    (i as real + u) / n as real
  }

  lemma SamplePositionsIncrease(i: int, k: int, u: real, n: nat)
    requires 0 < n && i < k
    ensures SamplePosition(i, u, n) < SamplePosition(k, u, n)
  {
    var d := n as real;
    assert SamplePosition(k, u, n) - SamplePosition(i, u, n) == (k - i) as real / d;
    QuotientPositive((k - i) as real, d);
  }

  lemma SamplePositionBelowOne(i: int, u: real, n: nat)
    requires 0 <= i < n && u < 1.0
    ensures SamplePosition(i, u, n) < 1.0
  {
    var d := n as real;
    assert SamplePosition(i, u, n) * d == i as real + u;
    if 1.0 <= SamplePosition(i, u, n) {
      MulWeak(1.0, SamplePosition(i, u, n), d);
    }
  }

  /** `cumsum(w)[j]`. */
  function Cumulative(w: seq<real>, j: int): real
    requires 0 <= j < |w|
  {
    Sum(w[..j + 1])
  }

  /** Every cumulative weight before index `j` is at most the sample
      position `x`. */
  predicate PassedBelow(w: seq<real>, j: int, x: real) {
    forall k :: 0 <= k < j && k < |w| ==> Cumulative(w, k) <= x
  }

  /** Index `j` is the one the walk picks for position `i`: the first whose
      cumulative weight exceeds it. */
  predicate Picks(w: seq<real>, u: real, i: int, j: int)
    requires 0 < |w|
  {
    0 <= j < |w| && SamplePosition(i, u, |w|) < Cumulative(w, j) && PassedBelow(w, j, SamplePosition(i, u, |w|))
  }

  /** Positions increase, so what the walk has passed stays passed. */
  lemma PassedBelowNext(w: seq<real>, u: real, i: int, j: int)
    requires 0 < |w| && PassedBelow(w, j, SamplePosition(i, u, |w|))
    ensures PassedBelow(w, j, SamplePosition(i + 1, u, |w|))
  {
    SamplePositionsIncrease(i, i + 1, u, |w|);
  }

  /** With weights summing to one the walk never runs off the end: the last
      cumulative weight is 1, above every position. */
  lemma WalkStaysInside(w: seq<real>, u: real, i: int, j: int)
    requires 0 <= i < |w| && 0.0 <= u < 1.0 && Sum(w) == 1.0
    requires 0 <= j < |w| && Cumulative(w, j) <= SamplePosition(i, u, |w|)
    ensures j + 1 < |w|
  {
    SamplePositionBelowOne(i, u, |w|);
    assert w[..|w|] == w;
  }

  /** Sample position `i` lies at or above every cumulative weight, so the
      walk looking for it runs off the end of `cumsum(w)`. */
  predicate Overruns(w: seq<real>, u: real, i: int)
    requires 0 < |w|
  {
    0 <= i < |w| && PassedBelow(w, |w|, SamplePosition(i, u, |w|))
  }

  /** A position the walk picks an index for does not overrun. */
  lemma PickedNotOverrun(w: seq<real>, u: real, i: int, j: int)
    requires 0 < |w| && Picks(w, u, i, j)
    ensures !Overruns(w, u, i)
  {
  }

  /** The systematic-resampling walk. Index `j` advances through the
      cumulative weights; each position `i` takes the first `j` whose
      cumulative weight exceeds it. Reading past the last cumulative weight
      is Python's IndexError, reported as None. */
  method SystematicIndices(w: seq<real>, u: real) returns (r: Option<seq<int>>)
    ensures r.Some? ==> |r.value| == |w|
    ensures r.Some? ==> forall i :: 0 <= i < |w| ==> Picks(w, u, i, r.value[i])
    ensures r.Some? ==> forall i, k :: 0 <= i <= k < |w| ==> r.value[i] <= r.value[k]
    ensures 0.0 <= u < 1.0 && Sum(w) == 1.0 ==> r.Some?
    ensures r.None? <==> 0 < |w| && exists i :: Overruns(w, u, i)
  {
    var n := |w|;
    var idx: seq<int> := [];
    var i, j := 0, 0;
    ghost var proper := 0.0 <= u < 1.0 && Sum(w) == 1.0;
    while i < n
      invariant 0 <= i <= n && 0 <= j
      invariant |idx| == i
      invariant forall a :: 0 <= a < i ==> Picks(w, u, a, idx[a]) && idx[a] <= j
      invariant forall a, b :: 0 <= a <= b < i ==> idx[a] <= idx[b]
      invariant i < n ==> PassedBelow(w, j, SamplePosition(i, u, n))
      invariant proper ==> j < n
      decreases (n - i) + (n - j)
    {
      if j >= n {
        assert Overruns(w, u, i);
        return None;
      }
      if SamplePosition(i, u, n) < Cumulative(w, j) {
        idx := idx + [j];
        if i + 1 < n {
          PassedBelowNext(w, u, i, j);
        }
        i := i + 1;
      } else {
        if proper {
          WalkStaysInside(w, u, i, j);
        }
        j := j + 1;
      }
    }
    forall a | 0 < n && 0 <= a < n
      ensures !Overruns(w, u, a)
    {
      PickedNotOverrun(w, u, a, idx[a]);
    }
    return Some(idx);
  }

  /** `h` is a resampling of `g`: the same configuration, `n` particles each
      copied from one of `g`'s, and uniform weights. */
  ghost predicate ResampledFrom(h: Filter, g: Filter) {
    WellFormed(g) && WellFormed(h) &&
    h.(particles := g.particles, weights := g.weights) == g &&
    h.weights == Uniform(g.n) &&
    forall i :: 0 <= i < g.n ==> h.particles[i] in g.particles
  }

  /** `resample(u)` with `u` the one uniform draw in `[0, 1)`. */
  method Resample(f: Filter, u: real) returns (r: Option<Filter>)
    requires WellFormed(f)
    ensures !NeedsResample(f.weights) ==> r == Some(f)
    ensures NeedsResample(f.weights) && r.Some? ==> ResampledFrom(r.value, f)
    ensures 0.0 <= u < 1.0 && Sum(f.weights) == 1.0 ==> r.Some?
  {
    if !NeedsResample(f.weights) {
      return Some(f);
    }
    var idx := SystematicIndices(f.weights, u);
    if idx.None? {
      return None;
    }
    return Some(Gather(f, idx.value));
  }

  /** The filter whose `i`-th particle is a copy of `f`'s particle
      `chosen[i]`, with uniform weights. */
  function Gather(f: Filter, chosen: seq<int>): (h: Filter)
    requires WellFormed(f) && |chosen| == f.n
    requires forall i :: 0 <= i < f.n ==> 0 <= chosen[i] < f.n
    ensures ResampledFrom(h, f)
    ensures forall i :: 0 <= i < f.n ==> h.particles[i] == f.particles[chosen[i]]
  {
    f.(particles := seq(f.n, i requires 0 <= i < f.n => f.particles[chosen[i]]), weights := Uniform(f.n))
  }

  /** `update_stride`: predict, then reweight, then resample. */
  method UpdateStride(f: Filter, trig: Trig, strideLength: real, heading: real,
                      headingDraw: seq<real>, dxDraw: seq<real>, dyDraw: seq<real>, u: real)
    returns (r: Option<Filter>)
    requires WellFormed(f)
    requires |headingDraw| == f.n && |dxDraw| == f.n && |dyDraw| == f.n
    ensures var g := Reweight(Predict(f, trig, strideLength, heading, headingDraw, dxDraw, dyDraw));
      (!NeedsResample(g.weights) ==> r == Some(g)) &&
      (NeedsResample(g.weights) && r.Some? ==> ResampledFrom(r.value, g)) &&
      (0.0 <= u < 1.0 && Sum(g.weights) == 1.0 ==> r.Some?)
  {
    var g := Reweight(Predict(f, trig, strideLength, heading, headingDraw, dxDraw, dyDraw));
    r := Resample(g, u);
  }

  /** `sum(w[i] * v[i])`, accumulated like `Sum`. */
  function WeightedSum(w: seq<real>, v: seq<real>): real
    requires |w| == |v|
    decreases |w|
  {
    if |w| == 0 then 0.0
    else WeightedSum(w[..|w| - 1], v[..|v| - 1]) + Mul(w[|w| - 1], v[|v| - 1])
  }

  /** With non-negative weights, a weighted sum of values in `[lo, hi]` lies
      between `lo` and `hi` times the total weight. */
  lemma {:induction false} WeightedSumBounds(w: seq<real>, v: seq<real>, lo: real, hi: real)
    requires |w| == |v|
    requires forall i :: 0 <= i < |w| ==> 0.0 <= w[i]
    requires forall i :: 0 <= i < |v| ==> lo <= v[i] <= hi
    ensures Mul(lo, Sum(w)) <= WeightedSum(w, v) <= Mul(hi, Sum(w))
    decreases |w|
  {
    if 0 < |w| {
      var m := |w| - 1;
      WeightedSumBounds(w[..m], v[..m], lo, hi);
      MulWeak(lo, v[m], w[m]);
      MulWeak(v[m], hi, w[m]);
      assert Mul(lo, w[m]) == Mul(w[m], lo) && Mul(hi, w[m]) == Mul(w[m], hi);
      assert WeightedSum(w, v) == WeightedSum(w[..m], v[..m]) + Mul(w[m], v[m]);
      assert Sum(w) == Sum(w[..m]) + w[m];
      MulDistributes(lo, Sum(w[..m]), w[m]);
      MulDistributes(hi, Sum(w[..m]), w[m]);
    }
  }

  function Xs(ps: seq<Pos>): (xs: seq<real>)
    ensures |xs| == |ps| && forall i :: 0 <= i < |ps| ==> xs[i] == ps[i].x
  {
    seq(|ps|, i requires 0 <= i < |ps| => ps[i].x)
  }

  function Ys(ps: seq<Pos>): (ys: seq<real>)
    ensures |ys| == |ps| && forall i :: 0 <= i < |ps| ==> ys[i] == ps[i].y
  {
    seq(|ps|, i requires 0 <= i < |ps| => ps[i].y)
  }

  /** `get_position()`: the weighted mean of the particles. */
  function GetPosition(f: Filter): Pos
    requires WellFormed(f)
  {
    Pos(WeightedSum(f.weights, Xs(f.particles)), WeightedSum(f.weights, Ys(f.particles)))
  }

  /** With non-negative weights summing to one, the estimate lies in every
      axis-aligned box that holds all particles. */
  lemma PositionWithinParticles(f: Filter, lo: Pos, hi: Pos)
    requires WellFormed(f)
    requires forall i :: 0 <= i < f.n ==> 0.0 <= f.weights[i]
    requires Sum(f.weights) == 1.0
    requires forall i :: 0 <= i < f.n ==>
      lo.x <= f.particles[i].x <= hi.x && lo.y <= f.particles[i].y <= hi.y
    ensures lo.x <= GetPosition(f).x <= hi.x && lo.y <= GetPosition(f).y <= hi.y
  {
    WeightedSumBounds(f.weights, Xs(f.particles), lo.x, hi.x);
    WeightedSumBounds(f.weights, Ys(f.particles), lo.y, hi.y);
    MulOne(lo.x);
    MulOne(hi.x);
    MulOne(lo.y);
    MulOne(hi.y);
  }

  /** If every particle is at the same point, that point is the estimate. */
  lemma CollapsedCloudPosition(f: Filter, p: Pos)
    requires WellFormed(f)
    requires forall i :: 0 <= i < f.n ==> 0.0 <= f.weights[i]
    requires Sum(f.weights) == 1.0
    requires forall i :: 0 <= i < f.n ==> f.particles[i] == p
    ensures GetPosition(f) == p
  {
    PositionWithinParticles(f, p, p);
  }
}
