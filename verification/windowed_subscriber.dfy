/** The windowed CPU-performance subscriber: every processed message is kept
    for `window` seconds, and window statistics are reported at most once a
    second. The MQTT client and the printing are left out; both clocks
    (the UTC time used for eviction and the seconds counter used to pace
    the reports) are inputs. */
module WindowedSubscriber {
  import opened Wrappers
  import opened Geometry
  import opened Buffers
  import opened StreamWindow

  /** Seconds between two statistics reports. */
  const StatsInterval: real := 1.0
  /** The default averaging window, in seconds. */
  const DefaultWindow: real := 1.0

  datatype Subscriber = Subscriber(window: real, channels: Channels, messageCount: int, lastStatsTime: real)

  /** `WindowedSubscriber(window_seconds=window)` built at clock time `now`. */
  function Init(window: real, now: real): (s: Subscriber)
    ensures s.channels == EmptyChannels && s.messageCount == 0
    ensures s.window == window && s.lastStatsTime == now
  {
    Subscriber(window, EmptyChannels, 0, now)
  }

  /** What `print_statistics` reports: the statistics of each buffer. */
  datatype Report = Report(cpu: Option<Stats>, memory: Option<Stats>, temperature: Option<Stats>, load: Option<Stats>)

  function StatisticsOf(ch: Channels, sqrt: real -> real): (r: Report)
    requires IsSqrt(sqrt)
    ensures r.cpu.Some? <==> 0 < |ch.cpu|
    ensures r.memory.Some? <==> 0 < |ch.memory|
    ensures r.temperature.Some? <==> 0 < |ch.temperature|
    ensures r.load.Some? <==> 0 < |ch.load|
  {
    Report(ComputeStatistics(ch.cpu, sqrt), ComputeStatistics(ch.memory, sqrt),
           ComputeStatistics(ch.temperature, sqrt), ComputeStatistics(ch.load, sqrt))
  }

  /** The message was processed without an exception. */
  predicate Processed(msg: Option<Payload>) {
    HasRequired(msg) && msg.value.system.Some?
  }

  /** `on_message`: `now` is the UTC time read for eviction and `nowSec` the
      seconds clock read for pacing. The counter and the report only move
      for a message processed without an exception. */
  method OnMessage(s: Subscriber, msg: Option<Payload>, now: real, nowSec: real, sqrt: real -> real)
    returns (r: Subscriber, report: Option<Report>)
    requires IsSqrt(sqrt)
    ensures r.window == s.window
    ensures r.messageCount == s.messageCount + (if Processed(msg) then 1 else 0)
    ensures report.Some? <==> Processed(msg) && nowSec - s.lastStatsTime >= StatsInterval
    ensures r.lastStatsTime == (if report.Some? then nowSec else s.lastStatsTime)
    ensures report.Some? ==> report.value == StatisticsOf(r.channels, sqrt)
    ensures !HasRequired(msg) ==> r == s
    ensures HasRequired(msg) && msg.value.system.None? ==> r.channels == WithPoints(s.channels, msg.value)
    ensures Processed(msg) ==> CleanedAll(r.channels, WithPoints(s.channels, msg.value), now, s.window)
    ensures !(msg.Some? && msg.value.temperature.Some?) ==> IsSuffix(r.channels.temperature, s.channels.temperature)
    ensures !(msg.Some? && msg.value.system.Some? && msg.value.system.value.Some?) ==>
      IsSuffix(r.channels.load, s.channels.load)
  {
    var ch, ok := Ingest(s.channels, msg, now, s.window);
    if !HasRequired(msg) {
      return s, None;
    }
    r := s.(channels := ch);
    report := None;
    if ok {
      r := r.(messageCount := r.messageCount + 1);
      if nowSec - r.lastStatsTime >= StatsInterval {
        report := Some(StatisticsOf(r.channels, sqrt));
        r := r.(lastStatsTime := nowSec);
      }
    }
  }
}
