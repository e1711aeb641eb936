/** Positions, the dead-reckoning stride and the external numeric primitives. */
module Geometry {
  import opened RealArith

  /** A point in metres: x grows to the "east", y to the "north". */
  datatype Pos = Pos(x: real, y: real)

  /** Sine and cosine, supplied by the caller: the model treats them as
      uninterpreted functions of the heading in radians. */
  datatype Trig = Trig(sin: real -> real, cos: real -> real)

  /** One stride of pedestrian dead reckoning in the navigation convention
      used throughout the repository: heading 0 is +y, x moves by sin, y by cos. */
  function Stride(p: Pos, trig: Trig, heading: real, length: real): Pos {
    Pos(p.x + length * trig.sin(heading), p.y + length * trig.cos(heading))
  }

  /** `sqrt` is a square root on the non-negative reals: it is non-negative,
      squares back to its argument and is zero exactly at zero. */
  ghost predicate IsSqrt(sqrt: real -> real) {
    forall v: real :: 0.0 <= v ==>
      0.0 <= sqrt(v) && Sq(sqrt(v)) == v &&
      (v == 0.0 ==> sqrt(v) == 0.0) && (0.0 < v ==> 0.0 < sqrt(v))
  }

  /** Squared Euclidean distance. */
  function SqDist(p: Pos, q: Pos): real {
    Sq(p.x - q.x) + Sq(p.y - q.y)
  }

  /** The squared distance is zero at coincident points and positive otherwise. */
  lemma SqDistSign(p: Pos, q: Pos)
    ensures 0.0 <= SqDist(p, q)
    ensures p == q ==> SqDist(p, q) == 0.0
    ensures p != q ==> 0.0 < SqDist(p, q)
  {
    SquareSign(p.x - q.x);
    SquareSign(p.y - q.y);
  }

  /** Euclidean distance `sqrt(dx**2 + dy**2)`, the error metric of the repository. */
  function Distance(p: Pos, q: Pos, sqrt: real -> real): (d: real)
    requires IsSqrt(sqrt)
    ensures 0.0 <= d && Sq(d) == SqDist(p, q)
    ensures d == 0.0 <==> p == q
  {
    SqDistSign(p, q);
    sqrt(SqDist(p, q))
  }

  /** The closed room `[0,width] x [0,height]`. */
  predicate InBox(p: Pos, width: real, height: real) {
    0.0 <= p.x <= width && 0.0 <= p.y <= height
  }
}
