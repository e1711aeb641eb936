/** The malfunction detector's two "sustained threshold" rules and their
    dispatch from an incoming CPU-performance message. Clock readings are
    inputs; publishing an alert is reported as a returned value. */
module MalfunctionDetection {
  import opened Wrappers
  import opened Buffers

  const HighTempThreshold: real := 80.0
  const HighMemoryThreshold: real := 90.0
  /** How long a metric must stay above its threshold before the alarm, in seconds. */
  const AlarmDuration: real := 10.0
  /** Length of the recent-readings context buffers. */
  const RecentCap: nat := 60

  /** The state one rule keeps: when the current excursion above the
      threshold began, whether its alarm has fired, and how many alarms. */
  datatype Rule = Rule(start: Option<real>, active: bool, triggered: nat)

  const FreshRule: Rule := Rule(None, false, 0)

  /** `check_high_temperature` / `check_memory_exhaustion`: one reading
      `value` at clock time `now` against `threshold`. Returns the new rule
      state and whether the alarm fires now. */
  function Check(rule: Rule, value: real, threshold: real, now: real): (r: (Rule, bool))
    ensures value <= threshold ==> r == (Rule(None, false, rule.triggered), false)
    ensures value > threshold ==> r.0.start == Some(rule.start.GetOr(now))
    ensures r.1 <==> value > threshold && !rule.active && now - rule.start.GetOr(now) >= AlarmDuration
    ensures r.0.triggered == rule.triggered + (if r.1 then 1 else 0)
    ensures value > threshold ==> r.0.active == (rule.active || r.1)
  {
    if value > threshold then
      var start := if rule.start.None? then now else rule.start.value;
      if now - start >= AlarmDuration && !rule.active then
        (Rule(Some(start), true, rule.triggered + 1), true)
      else
        (rule.(start := Some(start)), false)
    else
      (Rule(None, false, rule.triggered), false)
  }

  /** A timed reading of one metric. */
  datatype Sample = Sample(value: real, time: real)

  /** The rule applied to a stream of readings; the number of alarms fired. */
  function Fold(rule: Rule, samples: seq<Sample>, threshold: real): (r: (Rule, nat))
    decreases |samples|
  {
    if |samples| == 0 then (rule, 0)
    else
      var step := Check(rule, samples[0].value, threshold, samples[0].time);
      var rest := Fold(step.0, samples[1..], threshold);
      (rest.0, rest.1 + (if step.1 then 1 else 0))
  }

  predicate AllAbove(samples: seq<Sample>, threshold: real) {
    forall i :: 0 <= i < |samples| ==> samples[i].value > threshold
  }

  /** Within one continuous excursion above the threshold the alarm fires at
      most once, and never if it was already active when the excursion's
      readings began. */
  lemma {:induction false} AtMostOncePerExcursion(rule: Rule, samples: seq<Sample>, threshold: real)
    requires AllAbove(samples, threshold)
    ensures Fold(rule, samples, threshold).1 <= 1
    ensures rule.active ==> Fold(rule, samples, threshold).1 == 0
    ensures 0 < |samples| ==>
      (Fold(rule, samples, threshold).0.active <==> rule.active || Fold(rule, samples, threshold).1 == 1)
    decreases |samples|
  {
    if |samples| > 0 {
      var step := Check(rule, samples[0].value, threshold, samples[0].time);
      AtMostOncePerExcursion(step.0, samples[1..], threshold);
    }
  }

  /** The excursion's start time is set by its first reading and kept by all
      later ones. */
  lemma StartIsFirstReading(rule: Rule, samples: seq<Sample>, threshold: real)
    requires AllAbove(samples, threshold) && 0 < |samples| && rule.start.None?
    ensures Fold(rule, samples, threshold).0.start == Some(samples[0].time)
  {
    var step := Check(rule, samples[0].value, threshold, samples[0].time);
    StartKept(step.0, samples[1..], threshold);
  }

  lemma {:induction false} StartKept(rule: Rule, samples: seq<Sample>, threshold: real)
    requires AllAbove(samples, threshold) && rule.start.Some?
    ensures Fold(rule, samples, threshold).0.start == rule.start
    decreases |samples|
  {
    if |samples| > 0 {
      var step := Check(rule, samples[0].value, threshold, samples[0].time);
      StartKept(step.0, samples[1..], threshold);
    }
  }

  /** A sustained excursion does fire: from a quiet rule, a first high
      reading at `t0` and a second at `t1 >= t0 + 10` raise the alarm at the
      second. */
  lemma SustainedExcursionFires(v0: real, t0: real, v1: real, t1: real, threshold: real)
    requires v0 > threshold && v1 > threshold && t1 - t0 >= AlarmDuration
    ensures var first := Check(Rule(None, false, 0), v0, threshold, t0);
      !first.1 && Check(first.0, v1, threshold, t1).1
  {
  }

  /** The detector's state. */
  datatype Detector = Detector(
    temp: Rule,
    memory: Rule,
    messageCount: int,
    recentTemps: seq<real>,
    recentMemory: seq<real>)

  const InitialDetector: Detector := Detector(FreshRule, FreshRule, 0, [], [])

  /** The metrics a message carries; absent fields are None. */
  datatype Metrics = Metrics(temperature: Option<real>, memoryPercent: Option<real>, cpuPercent: Option<real>)

  datatype Alert = TemperatureAlert(temperature: real, cpuPercent: Option<real>)
                 | MemoryAlert(memoryPercent: real, cpuPercent: Option<real>)

  /** `on_message`: the counter always advances (even for a payload that
      fails to parse, None here); each rule runs only when its metric is
      present. The two rules read the clock separately. */
  function OnMessage(d: Detector, msg: Option<Metrics>, tempNow: real, memoryNow: real): (r: (Detector, seq<Alert>))
    ensures r.0.messageCount == d.messageCount + 1
    ensures msg.None? ==> r == (d.(messageCount := d.messageCount + 1), [])
    ensures msg.Some? && msg.value.temperature.None? ==> r.0.temp == d.temp && r.0.recentTemps == d.recentTemps
    ensures msg.Some? && msg.value.memoryPercent.None? ==> r.0.memory == d.memory && r.0.recentMemory == d.recentMemory
    ensures msg.Some? && msg.value.temperature.Some? ==>
      var c := Check(d.temp, msg.value.temperature.value, HighTempThreshold, tempNow);
      r.0.temp == c.0 && (c.1 <==> TemperatureAlert(msg.value.temperature.value, msg.value.cpuPercent) in r.1)
    ensures msg.Some? && msg.value.memoryPercent.Some? ==>
      var c := Check(d.memory, msg.value.memoryPercent.value, HighMemoryThreshold, memoryNow);
      r.0.memory == c.0 && (c.1 <==> MemoryAlert(msg.value.memoryPercent.value, msg.value.cpuPercent) in r.1)
    ensures msg.Some? ==>
      r.1 == (if msg.value.temperature.Some? && Check(d.temp, msg.value.temperature.value, HighTempThreshold, tempNow).1
              then [TemperatureAlert(msg.value.temperature.value, msg.value.cpuPercent)] else []) +
             (if msg.value.memoryPercent.Some? && Check(d.memory, msg.value.memoryPercent.value, HighMemoryThreshold, memoryNow).1
              then [MemoryAlert(msg.value.memoryPercent.value, msg.value.cpuPercent)] else [])
    ensures |r.1| <= 2
    ensures |d.recentTemps| <= RecentCap ==> |r.0.recentTemps| <= RecentCap
    ensures |d.recentMemory| <= RecentCap ==> |r.0.recentMemory| <= RecentCap
  {
    var d1 := d.(messageCount := d.messageCount + 1);
    match msg
    case None => (d1, [])
    case Some(m) =>
      var d2 := if m.temperature.Some? then d1.(recentTemps := AppendBounded(d1.recentTemps, m.temperature.value, RecentCap)) else d1;
      var d3 := if m.memoryPercent.Some? then d2.(recentMemory := AppendBounded(d2.recentMemory, m.memoryPercent.value, RecentCap)) else d2;
      var tc := if m.temperature.Some? then Check(d3.temp, m.temperature.value, HighTempThreshold, tempNow) else (d3.temp, false);
      var tempAlerts := if tc.1 then [TemperatureAlert(m.temperature.value, m.cpuPercent)] else [];
      var mc := if m.memoryPercent.Some? then Check(d3.memory, m.memoryPercent.value, HighMemoryThreshold, memoryNow) else (d3.memory, false);
      var memAlerts := if mc.1 then [MemoryAlert(m.memoryPercent.value, m.cpuPercent)] else [];
      (d3.(temp := tc.0, memory := mc.0), tempAlerts + memAlerts)
  }

  /** The two rules are independent: a message without a memory reading
      leaves the memory rule alone whatever the temperature does, and the
      other way round. */
  lemma RulesIndependent(d: Detector, temperature: real, memoryPercent: real, cpu: Option<real>, t: real)
    ensures OnMessage(d, Some(Metrics(Some(temperature), None, cpu)), t, t).0.memory == d.memory
    ensures OnMessage(d, Some(Metrics(None, Some(memoryPercent), cpu)), t, t).0.temp == d.temp
  {
  }
}
