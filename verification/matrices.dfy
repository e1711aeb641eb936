/** Dense real matrices as rows of entries: the handful of numpy operations
    the linear Kalman filter uses (`@`, `.T`, `+`, `-`, `np.eye`, and the
    2x2 inverse). */
module Matrices {
  import opened Wrappers
  import opened RealArith

  type Vector = seq<real>
  type Matrix = seq<seq<real>>

  predicate IsMatrix(m: Matrix, rows: nat, cols: nat) {
    |m| == rows && forall i :: 0 <= i < rows ==> |m[i]| == cols
  }

  /** Inner product, accumulated from the front. */
  function Dot(u: Vector, v: Vector): real
    requires |u| == |v|
    decreases |u|
  {
    if |u| == 0 then 0.0 else Dot(u[..|u| - 1], v[..|v| - 1]) + Mul(u[|u| - 1], v[|v| - 1])
  }

  lemma Dot2(u: Vector, v: Vector)
    requires |u| == 2 && |v| == 2
    ensures Dot(u, v) == Mul(u[0], v[0]) + Mul(u[1], v[1])
  {
    assert Dot(u[..1], v[..1]) == Dot(u[..1][..0], v[..1][..0]) + Mul(u[0], v[0]);
  }

  lemma Dot4(u: Vector, v: Vector)
    requires |u| == 4 && |v| == 4
    ensures Dot(u, v) == Mul(u[0], v[0]) + Mul(u[1], v[1]) + Mul(u[2], v[2]) + Mul(u[3], v[3])
  {
    var u3, v3 := u[..3], v[..3];
    var u2, v2 := u3[..2], v3[..2];
    Dot2(u2, v2);
    assert Dot(u3, v3) == Dot(u2, v2) + Mul(u[2], v[2]);
  }

  function Column(m: Matrix, j: nat, rows: nat, cols: nat): (c: Vector)
    requires IsMatrix(m, rows, cols) && j < cols
    ensures |c| == rows && forall i :: 0 <= i < rows ==> c[i] == m[i][j]
  {
    seq(rows, i requires 0 <= i < rows => m[i][j])
  }

  /** `a @ b` for an `n x k` and a `k x m` matrix. */
  function MatMul(a: Matrix, b: Matrix, n: nat, k: nat, m: nat): (c: Matrix)
    requires 0 < k && IsMatrix(a, n, k) && IsMatrix(b, k, m)
    ensures IsMatrix(c, n, m)
    ensures forall i, j :: 0 <= i < n && 0 <= j < m ==> c[i][j] == Dot(a[i], Column(b, j, k, m))
  {
    seq(n, i requires 0 <= i < n => seq(m, j requires 0 <= j < m => Dot(a[i], Column(b, j, k, m))))
  }

  /** `a @ v` for an `n x k` matrix and a length-`k` vector. */
  function MatVec(a: Matrix, v: Vector, n: nat, k: nat): (w: Vector)
    requires IsMatrix(a, n, k) && |v| == k
    ensures |w| == n && forall i :: 0 <= i < n ==> w[i] == Dot(a[i], v)
  {
    seq(n, i requires 0 <= i < n => Dot(a[i], v))
  }

  function Transpose(m: Matrix, rows: nat, cols: nat): (t: Matrix)
    requires IsMatrix(m, rows, cols)
    ensures IsMatrix(t, cols, rows)
    ensures forall i, j :: 0 <= i < cols && 0 <= j < rows ==> t[i][j] == m[j][i]
  {
    seq(cols, i requires 0 <= i < cols => seq(rows, j requires 0 <= j < rows => m[j][i]))
  }

  function Add(a: Matrix, b: Matrix, n: nat, m: nat): (c: Matrix)
    requires IsMatrix(a, n, m) && IsMatrix(b, n, m)
    ensures IsMatrix(c, n, m)
    ensures forall i, j :: 0 <= i < n && 0 <= j < m ==> c[i][j] == a[i][j] + b[i][j]
  {
    seq(n, i requires 0 <= i < n => seq(m, j requires 0 <= j < m => a[i][j] + b[i][j]))
  }

  function Sub(a: Matrix, b: Matrix, n: nat, m: nat): (c: Matrix)
    requires IsMatrix(a, n, m) && IsMatrix(b, n, m)
    ensures IsMatrix(c, n, m)
    ensures forall i, j :: 0 <= i < n && 0 <= j < m ==> c[i][j] == a[i][j] - b[i][j]
  {
    seq(n, i requires 0 <= i < n => seq(m, j requires 0 <= j < m => a[i][j] - b[i][j]))
  }

  function VecAdd(u: Vector, v: Vector): (w: Vector)
    requires |u| == |v|
    ensures |w| == |u| && forall i :: 0 <= i < |u| ==> w[i] == u[i] + v[i]
  {
    seq(|u|, i requires 0 <= i < |u| => u[i] + v[i])
  }

  function VecSub(u: Vector, v: Vector): (w: Vector)
    requires |u| == |v|
    ensures |w| == |u| && forall i :: 0 <= i < |u| ==> w[i] == u[i] - v[i]
  {
    seq(|u|, i requires 0 <= i < |u| => u[i] - v[i])
  }

  /** `np.eye(n) * c`. */
  function ScaledIdentity(n: nat, c: real): (m: Matrix)
    ensures IsMatrix(m, n, n)
    ensures forall i, j :: 0 <= i < n && 0 <= j < n ==> m[i][j] == if i == j then c else 0.0
  {
    seq(n, i => seq(n, j => if i == j then c else 0.0))
  }

  predicate Symmetric(m: Matrix, n: nat)
    requires IsMatrix(m, n, n)
  {
    forall i, j :: 0 <= i < n && 0 <= j < n ==> m[i][j] == m[j][i]
  }

  /** The determinant of a 2x2 matrix. */
  function Det2(m: Matrix): real
    requires IsMatrix(m, 2, 2)
  {
    Mul(m[0][0], m[1][1]) - Mul(m[0][1], m[1][0])
  }

  /** `np.linalg.inv` on a 2x2 matrix, by the adjugate formula; a singular
      matrix is numpy's LinAlgError, reported as None. */
  function Inverse2(m: Matrix): (r: Option<Matrix>)
    requires IsMatrix(m, 2, 2)
    ensures r.Some? <==> Det2(m) != 0.0
    ensures r.Some? ==> IsMatrix(r.value, 2, 2) && MatMul(m, r.value, 2, 2, 2) == ScaledIdentity(2, 1.0)
  {
    var d := Det2(m);
    if d == 0.0 then None
    else
      var inv := [[m[1][1] / d, -m[0][1] / d], [-m[1][0] / d, m[0][0] / d]];
      InverseIsRightInverse(m, inv, d);
      Some(inv)
  }

  lemma MulQuotient(a: real, b: real, d: real)
    requires d != 0.0
    ensures Mul(a, b / d) == Mul(a, b) / d
  {
  }

  /** The four entries of `m @ adj(m) / det(m)`, as scalars. */
  lemma AdjugateProducts(a: real, b: real, c: real, e: real, d: real)
    requires d == Mul(a, e) - Mul(b, c) && d != 0.0
    ensures Mul(a, e / d) + Mul(b, -c / d) == 1.0
    ensures Mul(a, -b / d) + Mul(b, a / d) == 0.0
    ensures Mul(c, e / d) + Mul(e, -c / d) == 0.0
    ensures Mul(c, -b / d) + Mul(e, a / d) == 1.0
  {
    MulQuotient(a, e, d);
    MulQuotient(b, -c, d);
    MulQuotient(a, -b, d);
    MulQuotient(b, a, d);
    MulQuotient(c, e, d);
    MulQuotient(e, -c, d);
    MulQuotient(c, -b, d);
    MulQuotient(e, a, d);
  }

  lemma InverseIsRightInverse(m: Matrix, inv: Matrix, d: real)
    requires IsMatrix(m, 2, 2) && d == Det2(m) && d != 0.0
    requires inv == [[m[1][1] / d, -m[0][1] / d], [-m[1][0] / d, m[0][0] / d]]
    ensures MatMul(m, inv, 2, 2, 2) == ScaledIdentity(2, 1.0)
  {
    var p := MatMul(m, inv, 2, 2, 2);
    Dot2(m[0], Column(inv, 0, 2, 2));
    Dot2(m[0], Column(inv, 1, 2, 2));
    Dot2(m[1], Column(inv, 0, 2, 2));
    Dot2(m[1], Column(inv, 1, 2, 2));
    AdjugateProducts(m[0][0], m[0][1], m[1][0], m[1][1], d);
    assert p[0] == [1.0, 0.0] && p[1] == [0.0, 1.0];
    var id := ScaledIdentity(2, 1.0);
    assert id[0] == [1.0, 0.0] && id[1] == [0.0, 1.0];
    assert p == [p[0], p[1]] && id == [id[0], id[1]];
  }
}
