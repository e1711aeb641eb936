/** The linear constant-velocity Kalman filter over the state
    `[x, y, vx, vy]`, measuring position only. */
module KalmanFilter {
  import opened Wrappers
  import opened RealArith
  import opened Matrices

  /** Process noise magnitude `q`. */
  const ProcessNoise: real := 0.1
  /** Measurement noise standard deviation `r`, in metres. */
  const MeasurementNoise: real := 0.5

  datatype Kalman = Kalman(dt: real, x: Vector, P: Matrix, Q: Matrix, R: Matrix, F: Matrix, H: Matrix)

  /** The constant-velocity transition `F`. */
  function Transition(dt: real): (f: Matrix)
    ensures IsMatrix(f, 4, 4)
  {
    [[1.0, 0.0, dt, 0.0],
     [0.0, 1.0, 0.0, dt],
     [0.0, 0.0, 1.0, 0.0],
     [0.0, 0.0, 0.0, 1.0]]
  }

  /** The position-only measurement matrix `H`. */
  function Measurement(): (h: Matrix)
    ensures IsMatrix(h, 2, 4)
  {
    [[1.0, 0.0, 0.0, 0.0],
     [0.0, 1.0, 0.0, 0.0]]
  }

  /** The process noise `Q` of the discretised white-acceleration model. */
  function ProcessCovariance(dt: real): (q: Matrix)
    ensures IsMatrix(q, 4, 4) && Symmetric(q, 4)
    ensures q[0][1] == 0.0 && q[0][3] == 0.0 && q[1][2] == 0.0 && q[2][3] == 0.0
  {
    var dt2 := Mul(dt, dt);
    var dt3 := Mul(dt2, dt);
    var dt4 := Mul(dt3, dt);
    var a := Mul(ProcessNoise, dt4) / 4.0;
    var b := Mul(ProcessNoise, dt3) / 2.0;
    var c := Mul(ProcessNoise, dt2);
    [[a, 0.0, b, 0.0],
     [0.0, a, 0.0, b],
     [b, 0.0, c, 0.0],
     [0.0, b, 0.0, c]]
  }

  /** The shapes and the fixed model matrices every filter keeps. */
  predicate WellFormed(kf: Kalman) {
    |kf.x| == 4 && IsMatrix(kf.P, 4, 4) &&
    kf.F == Transition(kf.dt) && kf.H == Measurement() &&
    kf.Q == ProcessCovariance(kf.dt) &&
    kf.R == ScaledIdentity(2, Sq(MeasurementNoise))
  }

  /** `KalmanFilter(initial_x, initial_y, dt)`. */
  function Init(ix: real, iy: real, dt: real): (kf: Kalman)
    ensures WellFormed(kf) && kf.dt == dt
    ensures kf.x == [ix, iy, 0.0, 0.0]
    ensures kf.P == ScaledIdentity(4, 1.0)
    ensures kf.R == ScaledIdentity(2, 0.25) && Symmetric(kf.Q, 4)
  {
    Kalman(dt, [ix, iy, 0.0, 0.0], ScaledIdentity(4, 1.0), ProcessCovariance(dt),
      ScaledIdentity(2, Sq(MeasurementNoise)), Transition(dt), Measurement())
  }

  /** `predict()`: `x := F x` and `P := F P Fᵀ + Q`. */
  function Predict(kf: Kalman): (r: Kalman)
    requires WellFormed(kf)
    ensures WellFormed(r) && r.dt == kf.dt
  {
    var fp := MatMul(kf.F, kf.P, 4, 4, 4);
    kf.(x := MatVec(kf.F, kf.x, 4, 4),
        P := Add(MatMul(fp, Transpose(kf.F, 4, 4), 4, 4, 4), kf.Q, 4, 4))
  }

  /** Prediction moves each position coordinate by `dt` times its velocity
      and keeps the velocity. */
  lemma PredictState(kf: Kalman)
    requires WellFormed(kf)
    ensures var x := kf.x;
      Predict(kf).x == [x[0] + Mul(kf.dt, x[2]), x[1] + Mul(kf.dt, x[3]), x[2], x[3]]
  {
    var f := kf.F;
    var r := Predict(kf).x;
    forall i | 0 <= i < 4
      ensures r[i] == Mul(f[i][0], kf.x[0]) + Mul(f[i][1], kf.x[1]) + Mul(f[i][2], kf.x[2]) + Mul(f[i][3], kf.x[3])
    {
      Dot4(f[i], kf.x);
    }
  }

  /** `(F P)[i][k]`: the velocity rows are added, scaled by `dt`, to the
      position rows. */
  lemma TransitionLeft(p: Matrix, dt: real)
    requires IsMatrix(p, 4, 4)
    ensures var a := MatMul(Transition(dt), p, 4, 4, 4);
      forall i, k :: 0 <= i < 4 && 0 <= k < 4 ==>
        a[i][k] == if i < 2 then p[i][k] + Mul(dt, p[i + 2][k]) else p[i][k]
  {
    var f := Transition(dt);
    forall i, k | 0 <= i < 4 && 0 <= k < 4 {
      Dot4(f[i], Column(p, k, 4, 4));
    }
  }

  /** `(A Fᵀ)[i][k]`: the velocity columns are added, scaled by `dt`, to
      the position columns. */
  lemma TransitionRight(a: Matrix, dt: real)
    requires IsMatrix(a, 4, 4)
    ensures var m := MatMul(a, Transpose(Transition(dt), 4, 4), 4, 4, 4);
      forall i, k :: 0 <= i < 4 && 0 <= k < 4 ==>
        m[i][k] == if k < 2 then a[i][k] + Mul(dt, a[i][k + 2]) else a[i][k]
  {
    var ft := Transpose(Transition(dt), 4, 4);
    var m := MatMul(a, ft, 4, 4, 4);
    forall i, k | 0 <= i < 4 && 0 <= k < 4
      ensures m[i][k] == if k < 2 then a[i][k] + Mul(dt, a[i][k + 2]) else a[i][k]
    {
      Dot4(a[i], Column(ft, k, 4, 4));
      if k < 2 {
        assert Mul(a[i][k + 2], dt) == Mul(dt, a[i][k + 2]);
      }
    }
  }

  /** `F P Fᵀ` is symmetric whenever `P` is. */
  lemma SandwichSymmetric(p: Matrix, dt: real)
    requires IsMatrix(p, 4, 4) && Symmetric(p, 4)
    ensures var f := Transition(dt);
      Symmetric(MatMul(MatMul(f, p, 4, 4, 4), Transpose(f, 4, 4), 4, 4, 4), 4)
  {
    var f := Transition(dt);
    var a := MatMul(f, p, 4, 4, 4);
    var m := MatMul(a, Transpose(f, 4, 4), 4, 4, 4);
    TransitionLeft(p, dt);
    TransitionRight(a, dt);
    forall i, j | 0 <= i < 4 && 0 <= j < 4
      ensures m[i][j] == m[j][i]
    {
      if i < 2 && j < 2 {
        assert m[i][j] == a[i][j] + Mul(dt, a[i][j + 2]);
        assert m[j][i] == a[j][i] + Mul(dt, a[j][i + 2]);
        assert a[i][j + 2] == p[i][j + 2] + Mul(dt, p[i + 2][j + 2]);
        assert a[j][i + 2] == p[j][i + 2] + Mul(dt, p[j + 2][i + 2]);
        MulDistributes(dt, p[i][j + 2], Mul(dt, p[i + 2][j + 2]));
        MulDistributes(dt, p[j][i + 2], Mul(dt, p[j + 2][i + 2]));
      } else if i < 2 {
        assert m[i][j] == a[i][j] && m[j][i] == a[j][i] + Mul(dt, a[j][i + 2]);
      } else if j < 2 {
        assert m[j][i] == a[j][i] && m[i][j] == a[i][j] + Mul(dt, a[i][j + 2]);
      }
    }
  }

  /** Prediction keeps the covariance symmetric. */
  lemma PredictKeepsSymmetry(kf: Kalman)
    requires WellFormed(kf) && Symmetric(kf.P, 4)
    ensures Symmetric(Predict(kf).P, 4)
  {
    SandwichSymmetric(kf.P, kf.dt);
  }

  /** The innovation `y = z - H x`. */
  function Innovation(kf: Kalman, z: Vector): (y: Vector)
    requires WellFormed(kf) && |z| == 2
    ensures |y| == 2
  {
    VecSub(z, MatVec(kf.H, kf.x, 2, 4))
  }

  /** The innovation covariance `S = H P Hᵀ + R`. */
  function InnovationCovariance(kf: Kalman): (s: Matrix)
    requires WellFormed(kf)
    ensures IsMatrix(s, 2, 2)
  {
    Add(MatMul(MatMul(kf.H, kf.P, 2, 4, 4), Transpose(kf.H, 2, 4), 2, 4, 2), kf.R, 2, 2)
  }

  /** `update(measurement)`. numpy raises LinAlgError when `S` is singular;
      that is None here. */
  function Update(kf: Kalman, z: Vector): (r: Option<Kalman>)
    requires WellFormed(kf) && |z| == 2
    ensures r.Some? <==> Det2(InnovationCovariance(kf)) != 0.0
    ensures r.Some? ==> WellFormed(r.value) && r.value.dt == kf.dt
  {
    match Inverse2(InnovationCovariance(kf))
    case None => None
    case Some(sInv) =>
      var k := MatMul(MatMul(kf.P, Transpose(kf.H, 2, 4), 4, 4, 2), sInv, 4, 2, 2);
      Some(kf.(x := VecAdd(kf.x, MatVec(k, Innovation(kf, z), 4, 2)),
               P := MatMul(Sub(ScaledIdentity(4, 1.0), MatMul(k, kf.H, 4, 2, 4), 4, 4), kf.P, 4, 4, 4)))
  }

  /** `H P` keeps the first two rows of `P`. */
  lemma MeasureRows(p: Matrix)
    requires IsMatrix(p, 4, 4)
    ensures var hp := MatMul(Measurement(), p, 2, 4, 4);
      forall i, k :: 0 <= i < 2 && 0 <= k < 4 ==> hp[i][k] == p[i][k]
  {
    var h := Measurement();
    forall i, k | 0 <= i < 2 && 0 <= k < 4
      ensures Dot(h[i], Column(p, k, 4, 4)) == p[i][k]
    {
      Dot4(h[i], Column(p, k, 4, 4));
    }
  }

  /** `Q Hᵀ` keeps the first two columns of `Q`. */
  lemma MeasureColumns(q: Matrix)
    requires IsMatrix(q, 2, 4)
    ensures var r := MatMul(q, Transpose(Measurement(), 2, 4), 2, 4, 2);
      forall i, k :: 0 <= i < 2 && 0 <= k < 2 ==> r[i][k] == q[i][k]
  {
    var ht := Transpose(Measurement(), 2, 4);
    forall i, k | 0 <= i < 2 && 0 <= k < 2
      ensures Dot(q[i], Column(ht, k, 4, 2)) == q[i][k]
    {
      Dot4(q[i], Column(ht, k, 4, 2));
    }
  }

  /** `S` is the top-left (position) block of `P` plus `r² I = 0.25 I`. */
  lemma InnovationCovarianceIsBlock(kf: Kalman)
    requires WellFormed(kf)
    ensures var p := kf.P;
      InnovationCovariance(kf) == [[p[0][0] + 0.25, p[0][1]], [p[1][0], p[1][1] + 0.25]]
  {
    var p := kf.P;
    var hp := MatMul(kf.H, p, 2, 4, 4);
    MeasureRows(p);
    MeasureColumns(hp);
    var s := InnovationCovariance(kf);
    assert s[0] == [p[0][0] + 0.25, p[0][1]];
    assert s[1] == [p[1][0], p[1][1] + 0.25];
  }

  /** The position block of `P` is positive semidefinite. */
  predicate PositionBlockPsd(p: Matrix)
    requires IsMatrix(p, 4, 4)
  {
    0.0 <= p[0][0] && 0.0 <= p[1][1] && p[0][1] == p[1][0] &&
    0.0 <= Mul(p[0][0], p[1][1]) - Mul(p[0][1], p[1][0])
  }

  lemma ShiftedProduct(a: real, b: real)
    ensures Mul(a + 0.25, b + 0.25) == Mul(a, b) + 0.25 * a + 0.25 * b + 0.0625
  {
    MulDistributes(a + 0.25, b, 0.25);
    MulDistributes(b, a, 0.25);
  }

  /** With a positive semidefinite position block, `S` has determinant at
      least `1/16`, so the update never meets a singular matrix. */
  lemma UpdateDefinedWhenPsd(kf: Kalman, z: Vector)
    requires WellFormed(kf) && |z| == 2 && PositionBlockPsd(kf.P)
    ensures Update(kf, z).Some?
  {
    var p := kf.P;
    InnovationCovarianceIsBlock(kf);
    ShiftedProduct(p[0][0], p[1][1]);
    assert Det2(InnovationCovariance(kf)) >= 0.0625;
  }

  /** A measurement equal to the predicted position leaves the state vector
      unchanged. */
  lemma ZeroInnovationKeepsState(kf: Kalman, z: Vector)
    requires WellFormed(kf) && z == [kf.x[0], kf.x[1]]
    ensures Update(kf, z).Some? ==> Update(kf, z).value.x == kf.x
  {
    var hx := MatVec(kf.H, kf.x, 2, 4);
    Dot4(kf.H[0], kf.x);
    Dot4(kf.H[1], kf.x);
    var y := Innovation(kf, z);
    assert y[0] == 0.0 && y[1] == 0.0;
    match Inverse2(InnovationCovariance(kf))
    case None =>
    case Some(sInv) =>
      var k := MatMul(MatMul(kf.P, Transpose(kf.H, 2, 4), 4, 4, 2), sInv, 4, 2, 2);
      var ky := MatVec(k, y, 4, 2);
      forall i | 0 <= i < 4
        ensures ky[i] == 0.0
      {
        Dot2(k[i], y);
      }
      assert VecAdd(kf.x, ky) == kf.x;
  }

  /** `get_position()`. */
  function GetPosition(kf: Kalman): (r: (real, real))
    requires |kf.x| == 4
  {
    (kf.x[0], kf.x[1])
  }

  /** `get_velocity()`. */
  function GetVelocity(kf: Kalman): (r: (real, real))
    requires |kf.x| == 4
  {
    (kf.x[2], kf.x[3])
  }

  /** `get_state()`: the state vector, whose first half is the position and
      second half the velocity. A sequence is a value, so the caller holds
      a copy. */
  function GetState(kf: Kalman): (r: Vector)
    requires |kf.x| == 4
    ensures |r| == 4 && (r[0], r[1]) == GetPosition(kf) && (r[2], r[3]) == GetVelocity(kf)
  {
    kf.x
  }

  /** `get_covariance()`: the 4x4 covariance, also a value. */
  function GetCovariance(kf: Kalman): (r: Matrix)
    requires WellFormed(kf)
    ensures IsMatrix(r, 4, 4) && forall i, j :: 0 <= i < 4 && 0 <= j < 4 ==> r[i][j] == kf.P[i][j]
  {
    kf.P
  }

  /** A new filter sits at its initial position with zero velocity. */
  lemma InitPositionAndVelocity(ix: real, iy: real, dt: real)
    ensures GetPosition(Init(ix, iy, dt)) == (ix, iy)
    ensures GetVelocity(Init(ix, iy, dt)) == (0.0, 0.0)
  {
  }

  /** Through the getters: prediction advances the position by `dt` times
      the velocity and leaves the velocity alone. */
  lemma PredictAdvancesPosition(kf: Kalman)
    requires WellFormed(kf)
    ensures var p, v := GetPosition(kf), GetVelocity(kf);
      GetPosition(Predict(kf)) == (p.0 + Mul(kf.dt, v.0), p.1 + Mul(kf.dt, v.1)) &&
      GetVelocity(Predict(kf)) == v
  {
    PredictState(kf);
  }
}
