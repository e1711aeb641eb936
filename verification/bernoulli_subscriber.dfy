/** The Bernoulli-sampling CPU-performance subscriber: each message is kept
    with probability `p`, and the kept ones feed the same time-window buffers
    as the windowed subscriber. The uniform draw of `random.random()` and
    both clocks are inputs. */
module BernoulliSubscriber {
  import opened Wrappers
  import opened RealArith
  import opened Geometry
  import opened Buffers
  import opened StreamWindow
  import W = WindowedSubscriber

  const DefaultProbability: real := 1.0 / 3.0
  const DefaultWindow: real := 5.0

  datatype Sampler = Sampler(
    p: real,
    window: real,
    channels: Channels,
    total: nat,
    sampled: nat,
    rejected: nat,
    lastStatsTime: real)

  /** Every message is counted exactly once, as sampled or as rejected. */
  predicate Consistent(s: Sampler) {
    s.total == s.sampled + s.rejected
  }

  /** `BernoulliSamplingSubscriber(sampling_prob=p, window_seconds=window)`
      built at clock time `now`. */
  function Init(p: real, window: real, now: real): (s: Sampler)
    ensures Consistent(s) && s.total == 0
    ensures s.channels == EmptyChannels && s.p == p && s.window == window && s.lastStatsTime == now
  {
    Sampler(p, window, EmptyChannels, 0, 0, 0, now)
  }

  /** The probability check of `main`. */
  predicate ValidProbability(p: real) {
    0.0 < p <= 1.0
  }

  /** `main`'s argument handling: a subscriber is built only for a valid
      probability. */
  function Start(p: real, window: real, now: real): (r: Option<Sampler>)
    ensures r.Some? <==> 0.0 < p && p <= 1.0
    ensures r.Some? ==> r.value.p == p && r.value.total == 0 && Consistent(r.value)
  {
    if ValidProbability(p) then Some(Init(p, window, now)) else None
  }

  /** `bernoulli_sample()` with the uniform draw from `[0, 1)` given as `draw`. */
  function BernoulliSample(draw: real, p: real): (keep: bool)
    ensures 0.0 <= draw < 1.0 && 1.0 <= p ==> keep
    ensures p <= 0.0 <= draw ==> !keep
  {
    draw < p
  }

  /** A larger probability keeps every draw a smaller one keeps, so with a
      valid probability `p == 1` keeps every message. */
  lemma SampleMonotone(draw: real, p: real, q: real)
    requires p <= q
    ensures BernoulliSample(draw, p) ==> BernoulliSample(draw, q)
    ensures ValidProbability(q) && q == 1.0 && 0.0 <= draw < 1.0 ==> BernoulliSample(draw, q)
  {
  }

  /** `on_message` with the uniform draw `draw`, the UTC time `now` and the
      seconds clock `nowSec`. A sampled message counts as sampled even when
      processing it then raises. */
  method OnMessage(s: Sampler, draw: real, msg: Option<Payload>, now: real, nowSec: real, sqrt: real -> real)
    returns (r: Sampler, report: Option<W.Report>)
    requires IsSqrt(sqrt)
    ensures r.total == s.total + 1
    ensures Consistent(s) ==> Consistent(r)
    ensures r.p == s.p && r.window == s.window
    ensures !BernoulliSample(draw, s.p) ==> r == s.(total := s.total + 1, rejected := s.rejected + 1) && report.None?
    ensures BernoulliSample(draw, s.p) ==> r.sampled == s.sampled + 1 && r.rejected == s.rejected
    ensures report.Some? <==> BernoulliSample(draw, s.p) && W.Processed(msg) && nowSec - s.lastStatsTime >= W.StatsInterval
    ensures r.lastStatsTime == (if report.Some? then nowSec else s.lastStatsTime)
    ensures report.Some? ==> report.value == W.StatisticsOf(r.channels, sqrt)
    ensures BernoulliSample(draw, s.p) && !HasRequired(msg) ==> r.channels == s.channels
    ensures BernoulliSample(draw, s.p) && HasRequired(msg) && msg.value.system.None? ==>
      r.channels == WithPoints(s.channels, msg.value)
    ensures BernoulliSample(draw, s.p) && W.Processed(msg) ==>
      CleanedAll(r.channels, WithPoints(s.channels, msg.value), now, s.window)
  {
    r := s.(total := s.total + 1);
    report := None;
    if !BernoulliSample(draw, s.p) {
      r := r.(rejected := r.rejected + 1);
      return;
    }
    r := r.(sampled := r.sampled + 1);
    // The rest of the handler is the windowed subscriber's, minus its counter.
    var w;
    w, report := W.OnMessage(W.Subscriber(s.window, s.channels, 0, s.lastStatsTime), msg, now, nowSec, sqrt);
    r := r.(channels := w.channels, lastStatsTime := w.lastStatsTime);
  }

  /** A fraction `a / b` with `0 <= a <= b` is at most one. */
  lemma FractionAtMostOne(a: real, b: real)
    ensures 0.0 <= a <= b && 0.0 < b ==> 0.0 <= a / b <= 1.0
  {
    if 0.0 <= a <= b && 0.0 < b {
      var f := a / b;
      assert Mul(f, b) == a;
      if f > 1.0 {
        MulStrict(1.0, f, b);
      }
      QuotientNonNegative(a, b);
    }
  }

  /** The sampling-efficiency percentage of `print_statistics`, guarded
      against an empty count. */
  function SamplingRate(s: Sampler): (rate: real)
    ensures s.total == 0 ==> rate == 0.0
    ensures Consistent(s) ==> 0.0 <= rate <= 100.0
    ensures Consistent(s) && 0 < s.total && s.rejected == 0 ==> rate == 100.0
    ensures Consistent(s) && s.sampled == 0 ==> rate == 0.0
  {
    if s.total > 0 then
      var f := s.sampled as real / s.total as real;
      FractionAtMostOne(s.sampled as real, s.total as real);
      f * 100.0
    else 0.0
  }

  /** The "actual sampling rate" printed on shutdown, as written: the same
      ratio without the guard, so no message at all raises
      `ZeroDivisionError` (None here). */
  function FinalRateAsWritten(s: Sampler): (rate: Option<real>)
    ensures rate.None? <==> s.total == 0
    ensures rate.Some? ==> rate.value == SamplingRate(s)
  {
    if s.total == 0 then None else Some(s.sampled as real / s.total as real * 100.0)
  }

  /** Stopping a subscriber that never received a message reaches the
      division by zero. */
  lemma ShutdownWithoutMessagesFails(p: real, window: real, now: real)
    ensures FinalRateAsWritten(Init(p, window, now)).None?
  {
  }

  /** The shutdown rate as evidently intended: the guarded ratio, defined
      for every state and in `[0, 100]`. */
  function FinalRate(s: Sampler): (rate: real)
    ensures Consistent(s) ==> 0.0 <= rate <= 100.0
    ensures FinalRateAsWritten(s).Some? ==> FinalRateAsWritten(s).value == rate
    ensures s.total == 0 ==> rate == 0.0
  {
    SamplingRate(s)
  }

  /** Over any stream of messages the counters stay consistent and the
      total counts the messages. */
  method Run(s: Sampler, draws: seq<real>, msgs: seq<Option<Payload>>, times: seq<real>, sqrt: real -> real)
    returns (r: Sampler)
    requires IsSqrt(sqrt) && |draws| == |msgs| == |times|
    requires Consistent(s)
    ensures Consistent(r) && r.total == s.total + |msgs|
    ensures r.p == s.p
    ensures r.sampled - s.sampled == |set i | 0 <= i < |draws| && BernoulliSample(draws[i], s.p)|
  {
    r := s;
    var k := 0;
    while k < |msgs|
      invariant 0 <= k <= |msgs|
      invariant Consistent(r) && r.total == s.total + k && r.p == s.p
      invariant r.sampled - s.sampled == |set i | 0 <= i < k && BernoulliSample(draws[i], s.p)|
    {
      ghost var before := set i | 0 <= i < k && BernoulliSample(draws[i], s.p);
      ghost var after := set i | 0 <= i < k + 1 && BernoulliSample(draws[i], s.p);
      if BernoulliSample(draws[k], s.p) {
        assert after == before + {k};
      } else {
        assert after == before;
      }
      var report;
      r, report := OnMessage(r, draws[k], msgs[k], times[k], times[k], sqrt);
      k := k + 1;
    }
  }
}
