/** The MQTT location publisher's bookkeeping: stride detection, the naive
    and Bayesian position updates and the message counter. Sensor reads, the
    MQTT client and display rounding are left out; the clock is an input. */
module LocationPublisher {
  import opened Geometry
  import opened FloorPlan
  import opened StrideDetection
  import BF = BayesianFilter

  datatype Publisher = Publisher(
    naive: Pos,
    strideCount: int,
    strideLength: real,
    lastStrideTime: real,
    messageCount: int,
    filter: BF.Filter)

  /** `LocationPublisher(...)` constructed at clock time `now`. */
  function Init(plan: Plan, strideLength: real, now: real): (p: Publisher)
    ensures p.naive == Pos(0.0, 0.0) && p.strideCount == 0 && p.messageCount == 0
    ensures p.lastStrideTime == now && p.strideLength == strideLength
    ensures p.filter == BF.Init(plan, strideLength, 3)
  {
    Publisher(Pos(0.0, 0.0), 0, strideLength, now, 0, BF.Init(plan, strideLength, 3))
  }

  /** `detect_stride(current_accel, threshold)` with the clock read as `now`. */
  function DetectStride(p: Publisher, a: Accel, now: real, threshold: real, sqrt: real -> real): (r: (bool, Publisher))
    requires IsSqrt(sqrt)
    ensures r.1 == p.(lastStrideTime := r.1.lastStrideTime)
    ensures r.0 <==> r.1.lastStrideTime != p.lastStrideTime
    ensures r.0 ==> r.1.lastStrideTime == now
  {
    var d := Detect(a, now, p.lastStrideTime, threshold, MinStrideInterval, sqrt);
    (d.0, p.(lastStrideTime := d.1))
  }

  /** The position message of one tick. */
  datatype Report = Report(messageId: int, strideCount: int, strideDetected: bool,
                           bayesian: Pos, naive: Pos, heading: real)

  /** `update_positions(heading_rad, stride_detected)`. */
  function UpdatePositions(p: Publisher, trig: Trig, minimize: BF.Query -> Pos,
                           heading: real, strideDetected: bool): (r: (Publisher, Report))
    requires Valid(p.filter.plan)
    ensures r.0.strideCount == p.strideCount + (if strideDetected then 1 else 0)
    ensures strideDetected ==> r.0.naive == Stride(p.naive, trig, heading, p.strideLength)
    ensures strideDetected ==> r.0.filter == BF.Update(p.filter, trig, minimize, heading, p.strideLength)
    ensures !strideDetected ==> r.0 == p
    ensures r.1 == Report(p.messageCount, r.0.strideCount, strideDetected, r.0.filter.estimate, r.0.naive, heading)
    ensures r.0.messageCount == p.messageCount && r.0.lastStrideTime == p.lastStrideTime
    ensures r.0.filter.plan == p.filter.plan
  {
    if strideDetected then
      var f := BF.Update(p.filter, trig, minimize, heading, p.strideLength);
      var q := p.(strideCount := p.strideCount + 1, filter := f,
                  naive := Stride(p.naive, trig, heading, p.strideLength));
      (q, Report(p.messageCount, q.strideCount, true, f.estimate, q.naive, heading))
    else
      (p, Report(p.messageCount, p.strideCount, false, p.filter.estimate, p.naive, heading))
  }

  /** `publish_data()`: one sensor tick. The accelerometer reading, the yaw
      and the clock are inputs. */
  function PublishData(p: Publisher, trig: Trig, minimize: BF.Query -> Pos, a: Accel, yaw: real,
                       now: real, sqrt: real -> real): (r: (Publisher, Report))
    requires Valid(p.filter.plan) && IsSqrt(sqrt)
    ensures r.0.messageCount == p.messageCount + 1
    ensures r.1.messageId == p.messageCount
    ensures r.0.strideCount == p.strideCount + (if r.1.strideDetected then 1 else 0)
    ensures r.1.strideDetected <==> r.0.lastStrideTime != p.lastStrideTime
    ensures r.1.strideDetected == Detect(a, now, p.lastStrideTime, StrideThreshold, MinStrideInterval, sqrt).0
    ensures r.1.strideDetected ==> r.0.naive == Stride(p.naive, trig, yaw, p.strideLength)
    ensures r.1.strideDetected ==> r.0.filter == BF.Update(p.filter, trig, minimize, yaw, p.strideLength)
    ensures r.1.strideDetected ==> r.0.lastStrideTime == now
    ensures !r.1.strideDetected ==> r.0.naive == p.naive && r.0.filter == p.filter
    ensures r.1.bayesian == r.0.filter.estimate && r.1.naive == r.0.naive && r.1.heading == yaw
    ensures r.1.strideCount == r.0.strideCount
    ensures r.0.strideLength == p.strideLength
    ensures r.0.filter.plan == p.filter.plan
  {
    var d := DetectStride(p, a, now, StrideThreshold, sqrt);
    var u := UpdatePositions(d.1, trig, minimize, yaw, d.0);
    (u.0.(messageCount := u.0.messageCount + 1), u.1)
  }

  /** Run the publisher over a stream of ticks; each tick is an accelerometer
      reading, a yaw and a clock time. */
  datatype Tick = Tick(accel: Accel, yaw: real, time: real)

  function Run(p: Publisher, trig: Trig, minimize: BF.Query -> Pos, ticks: seq<Tick>, sqrt: real -> real): (r: Publisher)
    requires Valid(p.filter.plan) && IsSqrt(sqrt)
    ensures r.filter.plan == p.filter.plan
    decreases |ticks|
  {
    if |ticks| == 0 then p
    else
      var t := ticks[0];
      Run(PublishData(p, trig, minimize, t.accel, t.yaw, t.time, sqrt).0, trig, minimize, ticks[1..], sqrt)
  }

  /** Over any stream, the message counter advances by the number of ticks
      and the stride counter by at most that many. */
  lemma {:induction false} RunCounters(p: Publisher, trig: Trig, minimize: BF.Query -> Pos, ticks: seq<Tick>,
                                       sqrt: real -> real)
    requires Valid(p.filter.plan) && IsSqrt(sqrt)
    ensures Run(p, trig, minimize, ticks, sqrt).messageCount == p.messageCount + |ticks|
    ensures p.strideCount <= Run(p, trig, minimize, ticks, sqrt).strideCount <= p.strideCount + |ticks|
    decreases |ticks|
  {
    if |ticks| > 0 {
      var t := ticks[0];
      RunCounters(PublishData(p, trig, minimize, t.accel, t.yaw, t.time, sqrt).0, trig, minimize, ticks[1..], sqrt);
    }
  }
}
