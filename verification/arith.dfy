/** Facts about real products and quotients. Each is proved on its own and
    stated over `Mul`, so that callers combine them by linear reasoning. */
module RealArith {

  /** Real multiplication under a name. */
  function Mul(a: real, b: real): real { a * b }

  function Sq(a: real): real { Mul(a, a) }

  lemma MulPositive(a: real, b: real)
    requires 0.0 < a && 0.0 < b
    ensures 0.0 < Mul(a, b)
  {
  }

  lemma MulNegatives(a: real, b: real)
    requires a < 0.0 && b < 0.0
    ensures 0.0 < Mul(a, b)
  {
  }

  /** A product of two numbers of the same strict sign is positive. */
  lemma ProductSign(a: real, b: real)
    ensures (0.0 < a && 0.0 < b) || (a < 0.0 && b < 0.0) ==> 0.0 < Mul(a, b)
  {
    if 0.0 < a && 0.0 < b {
      MulPositive(a, b);
    } else if a < 0.0 && b < 0.0 {
      MulNegatives(a, b);
    }
  }

  /** A square is non-negative, and positive away from zero. */
  lemma SquareSign(a: real)
    ensures 0.0 <= Sq(a)
    ensures a != 0.0 ==> 0.0 < Sq(a)
  {
    ProductSign(a, a);
  }

  lemma MulStrict(a: real, b: real, c: real)
    requires a < b && 0.0 < c
    ensures Mul(a, c) < Mul(b, c)
  {
  }

  lemma MulWeak(a: real, b: real, c: real)
    requires a <= b && 0.0 <= c
    ensures Mul(a, c) <= Mul(b, c)
  {
  }

  lemma MulNonNegative(a: real, b: real)
    requires 0.0 <= a && 0.0 <= b
    ensures 0.0 <= Mul(a, b)
  {
  }

  lemma MulDistributes(a: real, b: real, c: real)
    ensures Mul(a, b + c) == Mul(a, b) + Mul(a, c)
  {
  }

  lemma MulOne(a: real)
    ensures Mul(a, 1.0) == a
  {
  }

  lemma Reciprocal(s: real)
    requires s != 0.0
    ensures Mul(1.0 / s, s) == 1.0
  {
  }

  lemma QuotientPositive(a: real, b: real)
    requires 0.0 < a && 0.0 < b
    ensures 0.0 < a / b
  {
  }

  lemma QuotientNonNegative(a: real, b: real)
    requires 0.0 <= a && 0.0 < b
    ensures 0.0 <= a / b
  {
  }
}
