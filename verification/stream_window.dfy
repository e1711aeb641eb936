/** The time-window buffers that both CPU-performance subscribers keep: the
    eviction of old points, the window statistics and the ingestion of one
    message into the four metric buffers. Timestamps are seconds. */
module StreamWindow {
  import opened Wrappers
  import opened RealArith
  import opened Geometry
  import opened Buffers

  /** A `(timestamp, value)` pair. */
  datatype Point = Point(time: real, value: real)

  predicate SortedByTime(s: seq<Point>) {
    forall i, j :: 0 <= i < j < |s| ==> s[i].time <= s[j].time
  }

  /** The oldest point of the buffer, if any, is no older than `window`. */
  predicate InWindow(b: seq<Point>, now: real, window: real) {
    0 < |b| ==> b[0].time >= now - window
  }

  /** `r` is `b` cleaned at `now`: a suffix of `b` that starts inside the
      window, where every dropped point lay strictly before it. */
  predicate Cleaned(r: seq<Point>, b: seq<Point>, now: real, window: real) {
    IsSuffix(r, b) && InWindow(r, now, window) &&
    forall i :: 0 <= i < |b| - |r| ==> b[i].time < now - window
  }

  /** Cleaning keeps exactly the points from the first in-window one on:
      the result is determined by the buffer and the cutoff. */
  lemma CleanedIsUnique(r1: seq<Point>, r2: seq<Point>, b: seq<Point>, now: real, window: real)
    requires Cleaned(r1, b, now, window) && Cleaned(r2, b, now, window)
    ensures r1 == r2
  {
  }

  /** Cleaning drops no point that lies inside the window; in particular a
      fresh point with a current timestamp is the newest one kept. */
  lemma CleanedKeepsInWindow(r: seq<Point>, b: seq<Point>, now: real, window: real, i: int)
    requires Cleaned(r, b, now, window) && 0 <= i < |b| && b[i].time >= now - window
    ensures |b| - |r| <= i && r[i - (|b| - |r|)] == b[i]
    ensures 0 < |r| && r[|r| - 1] == b[|b| - 1]
  {
  }

  /** `cleanup_old_data(buffer, current_time)`: pop from the front while the
      oldest point is strictly older than `now - window`. */
  method CleanupOldData(buffer: seq<Point>, now: real, window: real) returns (r: seq<Point>)
    ensures Cleaned(r, buffer, now, window)
    ensures IsSuffix(r, buffer)
    ensures 0 < |r| ==> r[0].time >= now - window
    ensures forall i :: 0 <= i < |buffer| - |r| ==> buffer[i].time < now - window
    ensures SortedByTime(buffer) ==> forall i :: 0 <= i < |r| ==> r[i].time >= now - window
  {
    var cutoff := now - window;
    r := buffer;
    while 0 < |r| && r[0].time < cutoff
      invariant IsSuffix(r, buffer)
      invariant forall i :: 0 <= i < |buffer| - |r| ==> buffer[i].time < cutoff
      decreases |r|
    {
      r := r[1..];
    }
    if SortedByTime(buffer) && 0 < |r| {
      forall i | 0 <= i < |r|
        ensures r[i].time >= cutoff
      {
        assert r[0] == buffer[|buffer| - |r|] && r[i] == buffer[|buffer| - |r| + i];
      }
    }
  }

  /** A suffix of a time-sorted buffer is time-sorted, so cleaning keeps a
      buffer sorted. */
  lemma SuffixSorted(r: seq<Point>, buffer: seq<Point>)
    requires IsSuffix(r, buffer) && SortedByTime(buffer)
    ensures SortedByTime(r)
  {
    var k := |buffer| - |r|;
    forall i, j | 0 <= i < j < |r|
      ensures r[i].time <= r[j].time
    {
      assert r[i] == buffer[k + i] && r[j] == buffer[k + j];
    }
  }

  function Values(buffer: seq<Point>): (v: seq<real>)
    ensures |v| == |buffer| && forall i :: 0 <= i < |buffer| ==> v[i] == buffer[i].value
  {
    seq(|buffer|, i requires 0 <= i < |buffer| => buffer[i].value)
  }

  /** `np.min`. */
  function MinOf(s: seq<real>): (m: real)
    requires 0 < |s|
    ensures forall i :: 0 <= i < |s| ==> m <= s[i]
    ensures exists i :: 0 <= i < |s| && s[i] == m
    decreases |s|
  {
    if |s| == 1 then s[0]
    else
      var rest := MinOf(s[1..]);
      assert forall i :: 1 <= i < |s| ==> s[i] == s[1..][i - 1];
      if s[0] <= rest then s[0] else rest
  }

  /** `np.max`. */
  function MaxOf(s: seq<real>): (m: real)
    requires 0 < |s|
    ensures forall i :: 0 <= i < |s| ==> s[i] <= m
    ensures exists i :: 0 <= i < |s| && s[i] == m
    decreases |s|
  {
    if |s| == 1 then s[0]
    else
      var rest := MaxOf(s[1..]);
      assert forall i :: 1 <= i < |s| ==> s[i] == s[1..][i - 1];
      if s[0] >= rest then s[0] else rest
  }

  /** The statistics reported for a window. */
  datatype Stats = Stats(count: nat, mean: real, std: real, min: real, max: real)

  /** `n * lo <= s` gives `lo <= s / n`, and likewise above. */
  lemma MeanBetween(s: real, n: real, lo: real, hi: real)
    requires 0.0 < n && Mul(n, lo) <= s <= Mul(n, hi)
    ensures lo <= s / n <= hi
  {
    var m := s / n;
    assert Mul(m, n) == s;
    if m < lo {
      MulStrict(m, lo, n);
    }
    if hi < m {
      MulStrict(hi, m, n);
    }
  }

  /** `compute_statistics(buffer)`: None for an empty buffer; otherwise the
      count, the mean, the population standard deviation (`np.std`), the
      minimum and the maximum of the values. */
  function ComputeStatistics(buffer: seq<Point>, sqrt: real -> real): (r: Option<Stats>)
    requires IsSqrt(sqrt)
    ensures r.None? <==> |buffer| == 0
    ensures r.Some? ==> r.value.count == |buffer| && 0.0 <= r.value.std
    ensures r.Some? ==> r.value.min <= r.value.mean <= r.value.max
    ensures r.Some? ==> forall i :: 0 <= i < |buffer| ==> r.value.min <= buffer[i].value <= r.value.max
    ensures r.Some? ==> exists i :: 0 <= i < |buffer| && buffer[i].value == r.value.min
    ensures r.Some? ==> exists i :: 0 <= i < |buffer| && buffer[i].value == r.value.max
    ensures r.Some? ==> (r.value.std == 0.0 <==> r.value.min == r.value.max)
    ensures r.Some? ==> r.value.mean == Mean(Values(buffer))
    ensures r.Some? ==> r.value.std == StdDev(Values(buffer), r.value.mean, sqrt)
  {
    if |buffer| == 0 then None
    else
      var v := Values(buffer);
      var mean := Mean(v);
      StdDevZeroIffConstant(v, mean, sqrt);
      Some(Stats(|v|, mean, StdDev(v, mean, sqrt), MinOf(v), MaxOf(v)))
  }

  /** `np.mean`: lies between the smallest and the largest value. */
  function Mean(v: seq<real>): (m: real)
    requires 0 < |v|
    ensures MinOf(v) <= m <= MaxOf(v)
  {
    MeanWithinRange(v);
    Sum(v) / |v| as real
  }

  lemma MeanWithinRange(v: seq<real>)
    requires 0 < |v|
    ensures MinOf(v) <= Sum(v) / |v| as real <= MaxOf(v)
  {
    var lo, hi, total, n := MinOf(v), MaxOf(v), Sum(v), |v| as real;
    SumBounds(v, lo, hi);
    MeanBetween(total, n, lo, hi);
  }

  /** The squared deviations of the values from `mean`. */
  function Deviations(v: seq<real>, mean: real): (d: seq<real>)
    ensures |d| == |v| && forall i :: 0 <= i < |v| ==> d[i] == Sq(v[i] - mean) && 0.0 <= d[i]
  {
    seq(|v|, i requires 0 <= i < |v| => SquareSign(v[i] - mean); Sq(v[i] - mean))
  }

  /** `np.std`: non-negative, and its square is the mean squared deviation
      from `mean`. */
  function StdDev(v: seq<real>, mean: real, sqrt: real -> real): (s: real)
    requires 0 < |v| && IsSqrt(sqrt)
    ensures 0.0 <= s
    ensures Sq(s) == Sum(Deviations(v, mean)) / |v| as real
  {
    var d := Deviations(v, mean);
    SumNonNegative(d);
    QuotientNonNegative(Sum(d), |v| as real);
    sqrt(Sum(d) / |v| as real)
  }

  /** The spread is zero exactly when every value equals `mean`. */
  lemma StdDevZeroIffConstant(v: seq<real>, mean: real, sqrt: real -> real)
    requires 0 < |v| && IsSqrt(sqrt)
    ensures StdDev(v, mean, sqrt) == 0.0 <==> forall i :: 0 <= i < |v| ==> v[i] == mean
  {
    var d := Deviations(v, mean);
    var n := |v| as real;
    SumNonNegative(d);
    if forall i :: 0 <= i < |v| ==> v[i] == mean {
      SumConstant(d, 0.0);
    } else {
      var k :| 0 <= k < |v| && v[k] != mean;
      SquareSign(v[k] - mean);
      SumPositive(d, k);
      QuotientPositive(Sum(d), n);
    }
  }

  /** A sum of non-negative terms one of which is positive is positive. */
  lemma {:induction false} SumPositive(d: seq<real>, k: int)
    requires forall i :: 0 <= i < |d| ==> 0.0 <= d[i]
    requires 0 <= k < |d| && 0.0 < d[k]
    ensures 0.0 < Sum(d)
    decreases |d|
  {
    var n := |d| - 1;
    assert Sum(d) == Sum(d[..n]) + d[n];
    if k == n {
      SumNonNegative(d[..n]);
    } else {
      SumPositive(d[..n], k);
    }
  }

  /** The four metric buffers. */
  datatype Channels = Channels(cpu: seq<Point>, memory: seq<Point>, temperature: seq<Point>, load: seq<Point>)

  const EmptyChannels: Channels := Channels([], [], [], [])

  /** The fields of a CPU-performance message the subscribers read.
      `system` is None when the message has no `system` object, and
      `Some(None)` when that object has no load average. */
  datatype Payload = Payload(
    timestamp: Option<real>,
    cpuUsage: Option<real>,
    memoryPercent: Option<real>,
    temperature: Option<real>,
    system: Option<Option<real>>)

  /** The message carries every field read before the first append. */
  predicate HasRequired(msg: Option<Payload>) {
    msg.Some? && msg.value.timestamp.Some? && msg.value.cpuUsage.Some? && msg.value.memoryPercent.Some?
  }

  /** The buffers after a message's points are appended: CPU and memory
      always, the temperature and the load average when the message has
      them. */
  function WithPoints(ch: Channels, m: Payload): (r: Channels)
    requires HasRequired(Some(m))
    ensures |r.cpu| == |ch.cpu| + 1 && |r.memory| == |ch.memory| + 1
    ensures r.cpu[..|ch.cpu|] == ch.cpu && r.memory[..|ch.memory|] == ch.memory
    ensures r.cpu[|ch.cpu|] == Point(m.timestamp.value, m.cpuUsage.value)
    ensures r.memory[|ch.memory|] == Point(m.timestamp.value, m.memoryPercent.value)
    ensures r.temperature == ch.temperature + (if m.temperature.Some? then [Point(m.timestamp.value, m.temperature.value)] else [])
    ensures r.load == ch.load + (if m.system.Some? && m.system.value.Some? then [Point(m.timestamp.value, m.system.value.value)] else [])
  {
    var t := m.timestamp.value;
    Channels(
      ch.cpu + [Point(t, m.cpuUsage.value)],
      ch.memory + [Point(t, m.memoryPercent.value)],
      if m.temperature.Some? then ch.temperature + [Point(t, m.temperature.value)] else ch.temperature,
      if m.system.Some? && m.system.value.Some? then ch.load + [Point(t, m.system.value.value)] else ch.load)
  }

  /** Each of the four buffers of `r` is the matching buffer of `b` cleaned at `now`. */
  predicate CleanedAll(r: Channels, b: Channels, now: real, window: real) {
    Cleaned(r.cpu, b.cpu, now, window) && Cleaned(r.memory, b.memory, now, window) &&
    Cleaned(r.temperature, b.temperature, now, window) && Cleaned(r.load, b.load, now, window)
  }

  /** Append one message's points, then clean the four buffers at clock
      time `now`; `ok` is false where Python raises. A message whose
      required fields are missing changes nothing. A message without a
      `system` object raises only after the CPU, memory and temperature
      points were appended, so those appends stay and no cleanup runs. */
  method Ingest(ch: Channels, msg: Option<Payload>, now: real, window: real) returns (r: Channels, ok: bool)
    ensures ok <==> HasRequired(msg) && msg.value.system.Some?
    ensures !HasRequired(msg) ==> r == ch
    ensures HasRequired(msg) && msg.value.system.None? ==> r == WithPoints(ch, msg.value)
    ensures ok ==> CleanedAll(r, WithPoints(ch, msg.value), now, window)
  {
    if !HasRequired(msg) {
      return ch, false;
    }
    var m := msg.value;
    var t := m.timestamp.value;
    r := ch.(cpu := ch.cpu + [Point(t, m.cpuUsage.value)], memory := ch.memory + [Point(t, m.memoryPercent.value)]);
    if m.temperature.Some? {
      r := r.(temperature := r.temperature + [Point(t, m.temperature.value)]);
    }
    if m.system.None? {
      return r, false;
    }
    if m.system.value.Some? {
      r := r.(load := r.load + [Point(t, m.system.value.value)]);
    }
    var cpu := CleanupOldData(r.cpu, now, window);
    var memory := CleanupOldData(r.memory, now, window);
    var temperature := CleanupOldData(r.temperature, now, window);
    var load := CleanupOldData(r.load, now, window);
    r := Channels(cpu, memory, temperature, load);
    ok := true;
  }
}
