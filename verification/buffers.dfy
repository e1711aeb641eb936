/** Sequence helpers: suffixes, bounded appends and real sums. */
module Buffers {
  import opened RealArith

  /** `s` is what remains of `t` after dropping some elements from the front. */
  predicate IsSuffix<T(==)>(s: seq<T>, t: seq<T>) {
    |s| <= |t| && s == t[|t| - |s|..]
  }

  lemma SuffixTransitive<T>(a: seq<T>, b: seq<T>, c: seq<T>)
    requires IsSuffix(a, b) && IsSuffix(b, c)
    ensures IsSuffix(a, c)
  {
    assert c[|c| - |b|..][|b| - |a|..] == c[|c| - |a|..];
  }

  /** Append `v`, then drop the oldest element if the sequence is longer than
      `cap`: both `deque(maxlen=cap).append(v)` and the source's
      "append, then pop(0) when len > cap" idiom. */
  function AppendBounded<T(==)>(q: seq<T>, v: T, cap: nat): (r: seq<T>)
    requires 0 < cap
    ensures 0 < |r| && r[|r| - 1] == v
    ensures IsSuffix(r, q + [v])
    ensures |q| < cap ==> r == q + [v]
    ensures |q| <= cap ==> |r| <= cap
    ensures |q| >= cap ==> |r| == |q|
  {
    var a := q + [v];
    if |a| > cap then a[1..] else a
  }

  /** Sum of a sequence of reals, accumulated left to right like `np.sum`. */
  function Sum(s: seq<real>): real
    decreases |s|
  {
    if |s| == 0 then 0.0 else Sum(s[..|s| - 1]) + s[|s| - 1]
  }

  lemma {:induction false} SumNonNegative(s: seq<real>)
    requires forall i :: 0 <= i < |s| ==> 0.0 <= s[i]
    ensures 0.0 <= Sum(s)
    decreases |s|
  {
    if |s| > 0 {
      SumNonNegative(s[..|s| - 1]);
    }
  }

  /** Dividing every element by `d` divides the sum by `d`. */
  lemma {:induction false} SumDivide(s: seq<real>, t: seq<real>, d: real)
    requires d != 0.0 && |s| == |t|
    requires forall i :: 0 <= i < |s| ==> t[i] == s[i] / d
    ensures Sum(t) == Sum(s) / d
    decreases |s|
  {
    if |s| > 0 {
      var n := |s| - 1;
      SumDivide(s[..n], t[..n], d);
      assert Sum(t) == Sum(s[..n]) / d + s[n] / d;
    }
  }

  /** A sequence of `n` copies of `c` sums to `n * c`. */
  lemma {:induction false} SumConstant(s: seq<real>, c: real)
    requires forall i :: 0 <= i < |s| ==> s[i] == c
    ensures Sum(s) == |s| as real * c
    decreases |s|
  {
    if |s| > 0 {
      SumConstant(s[..|s| - 1], c);
    }
  }

  /** Every element lies in `[lo, hi]`, so the sum lies in `[n*lo, n*hi]`. */
  lemma {:induction false} SumBounds(s: seq<real>, lo: real, hi: real)
    requires forall i :: 0 <= i < |s| ==> lo <= s[i] <= hi
    ensures Mul(|s| as real, lo) <= Sum(s) <= Mul(|s| as real, hi)
    decreases |s|
  {
    if |s| > 0 {
      var n := |s| - 1;
      SumBounds(s[..n], lo, hi);
      assert Sum(s) == Sum(s[..n]) + s[n];
      assert Mul(|s| as real, lo) == Mul(n as real, lo) + lo;
      assert Mul(|s| as real, hi) == Mul(n as real, hi) + hi;
    }
  }
}
