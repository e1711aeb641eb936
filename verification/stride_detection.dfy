/** Debounced stride detection from the accelerometer magnitude, shared by
    the web dashboard and the MQTT location publisher. The clock reading is
    an input. */
module StrideDetection {
  import opened RealArith
  import opened Geometry

  /** Acceleration magnitude, in g, above which a reading may be a stride. */
  const StrideThreshold: real := 1.2
  /** Minimum time between two strides, in seconds. */
  const MinStrideInterval: real := 0.3

  /** A raw accelerometer reading, in g. */
  datatype Accel = Accel(x: real, y: real, z: real)

  function SqMagnitude(a: Accel): (s: real)
    ensures 0.0 <= s
  {
    SquareSign(a.x);
    SquareSign(a.y);
    SquareSign(a.z);
    Sq(a.x) + Sq(a.y) + Sq(a.z)
  }

  /** `sqrt(x**2 + y**2 + z**2)`. */
  function Magnitude(a: Accel, sqrt: real -> real): (m: real)
    requires IsSqrt(sqrt)
    ensures 0.0 <= m && Sq(m) == SqMagnitude(a)
  {
    sqrt(SqMagnitude(a))
  }

  /** One call of `detect_stride`: whether a stride is detected, and the
      last-stride time afterwards. The clock is read as `now`. */
  function Detect(a: Accel, now: real, lastStrideTime: real, threshold: real, minInterval: real,
                  sqrt: real -> real): (r: (bool, real))
    requires IsSqrt(sqrt)
    ensures r.0 ==> Magnitude(a, sqrt) > threshold && now - lastStrideTime > minInterval
    ensures r.1 != lastStrideTime ==> r.0
    ensures r.0 ==> r.1 == now
  {
    if Magnitude(a, sqrt) > threshold && now - lastStrideTime > minInterval then (true, now)
    else (false, lastStrideTime)
  }

  /** Squares are monotone on the non-negative reals. */
  lemma SquareMonotone(u: real, v: real)
    requires 0.0 <= u <= v
    ensures Sq(u) <= Sq(v)
    ensures u < v ==> Sq(u) < Sq(v)
  {
    MulWeak(u, v, u);
    MulWeak(u, v, v);
    if u < v {
      MulStrict(u, v, v);
    }
  }

  /** For a non-negative threshold, comparing the magnitude is the same as
      comparing the squared magnitude with the squared threshold; no square
      root is needed to decide a detection. */
  lemma ExceedsIffSquaredExceeds(a: Accel, threshold: real, sqrt: real -> real)
    requires IsSqrt(sqrt) && 0.0 <= threshold
    ensures Magnitude(a, sqrt) > threshold <==> SqMagnitude(a) > Sq(threshold)
  {
    var m := Magnitude(a, sqrt);
    if m > threshold {
      SquareMonotone(threshold, m);
    } else {
      SquareMonotone(m, threshold);
    }
  }

  /** A detection happens exactly when both gates pass, and it is then the
      only thing that moves the last-stride time. */
  lemma DetectExactly(a: Accel, now: real, lastStrideTime: real, threshold: real, minInterval: real,
                      sqrt: real -> real)
    requires IsSqrt(sqrt) && 0.0 <= threshold
    ensures var r := Detect(a, now, lastStrideTime, threshold, minInterval, sqrt);
      r.0 <==> SqMagnitude(a) > Sq(threshold) && now - lastStrideTime > minInterval
    ensures var r := Detect(a, now, lastStrideTime, threshold, minInterval, sqrt);
      !r.0 ==> r.1 == lastStrideTime
  {
    ExceedsIffSquaredExceeds(a, threshold, sqrt);
  }

  /** A reading and the clock time at which it is examined. */
  datatype Reading = Reading(accel: Accel, time: real)

  /** Detection over a stream of readings: the times at which strides are
      detected, and the last-stride time at the end. */
  function DetectRun(readings: seq<Reading>, last: real, threshold: real, minInterval: real,
                     sqrt: real -> real): (r: (seq<real>, real))
    requires IsSqrt(sqrt)
    ensures r.1 == if |r.0| == 0 then last else r.0[|r.0| - 1]
    ensures |r.0| <= |readings|
    decreases |readings|
  {
    if |readings| == 0 then ([], last)
    else
      var step := Detect(readings[0].accel, readings[0].time, last, threshold, minInterval, sqrt);
      var rest := DetectRun(readings[1..], step.1, threshold, minInterval, sqrt);
      (if step.0 then [readings[0].time] + rest.0 else rest.0, rest.1)
  }

  /** Debouncing: consecutive detected strides, and the first detected
      stride after the starting last-stride time, are more than
      `minInterval` apart. */
  lemma {:induction false} DetectionsAreSpaced(readings: seq<Reading>, last: real, threshold: real,
                                               minInterval: real, sqrt: real -> real)
    requires IsSqrt(sqrt)
    ensures var times := DetectRun(readings, last, threshold, minInterval, sqrt).0;
      (0 < |times| ==> times[0] - last > minInterval) &&
      forall i :: 0 <= i < |times| - 1 ==> times[i + 1] - times[i] > minInterval
    decreases |readings|
  {
    if |readings| > 0 {
      var step := Detect(readings[0].accel, readings[0].time, last, threshold, minInterval, sqrt);
      DetectionsAreSpaced(readings[1..], step.1, threshold, minInterval, sqrt);
    }
  }
}
