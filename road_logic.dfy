/**
 * The per-road rules of the signal controller, as pure functions on values:
 * the adaptive green-time formula, the synthetic demand step, the emergency
 * window and the detector overwrite. The class `Road` (module Roads) is
 * proved to follow these functions.
 */
module RoadLogic {
  import opened Options

  /** Seconds per hour: a green road clears `capacity / 3600` vehicles per refresh. */
  const SecondsPerHour: real := 3600.0
  /** Half-widths of the uniform draws scaling clearance and arrivals. */
  const ClearanceSpread: real := 0.1
  const ArrivalSpread: real := 0.2
  /** Probability per refresh that a synthetic emergency is raised. */
  const TriggerProbability: real := 0.005
  /** An emergency window is cleared once it is strictly older than this. */
  const EmergencyDuration: real := 5.0

  /**
   * The random draws of one `update` call: the clearance offset from
   * uniform(-0.1, 0.1), the arrival offset from uniform(-0.2, 0.2) and the
   * trigger draw from rand(). Only one of the first two is used per call.
   */
  datatype Draw = Draw(clearance: real, arrival: real, trigger: real)

  predicate DrawOk(d: Draw) {
    -ClearanceSpread <= d.clearance < ClearanceSpread
    && -ArrivalSpread <= d.arrival < ArrivalSpread
    && 0.0 <= d.trigger < 1.0
  }

  /** What the detector reports for one road: a vehicle count and an emergency flag. */
  datatype Reading = Reading(count: nat, emergency: bool)

  /** The emergency state of a road: the stored flag and the window start. */
  datatype Emergency = Emergency(flag: bool, since: Option<real>)

  /** The state of one road: static parameters and the fields that change. */
  datatype RoadView = RoadView(
    capacity: int,
    totalTime: int,
    rateOfIncrease: real,
    vehicleCount: int,
    greenTime: real,
    isGreen: bool,
    emergency: Emergency)

  /** Python's `int(x)` on a float: truncation toward zero. */
  function Trunc(x: real): (n: int)
    ensures 0.0 <= x ==> 0 <= n && n as real <= x < n as real + 1.0
    ensures x < 0.0 ==> n <= 0 && n as real - 1.0 < x <= n as real
  {
    if 0.0 <= x then x.Floor else -((-x).Floor)
  }

  /**
   * The adaptive green time: the share of capacity in use, times the total
   * time. A road at full capacity gets the whole total time.
   */
  function GreenTime(count: int, capacity: int, totalTime: int): (g: real)
    requires capacity != 0
    ensures count == 0 ==> g == 0.0
    ensures count == capacity ==> g == totalTime as real
    ensures 0 < capacity && 0 <= totalTime && 0 <= count ==> 0.0 <= g
  {
    count as real / capacity as real * totalTime as real
  }

  /** True when a road's stored green time agrees with its vehicle count. */
  predicate Tracks(v: RoadView) {
    v.capacity != 0 && v.greenTime == GreenTime(v.vehicleCount, v.capacity, v.totalTime)
  }

  /** Vehicles leaving a green road in one refresh. */
  function Clearance(capacity: int, u: real): (d: int)
    requires -ClearanceSpread <= u < ClearanceSpread
    ensures 0 <= capacity ==>
      Trunc(capacity as real / SecondsPerHour * 0.9) <= d <= Trunc(capacity as real / SecondsPerHour * 1.1)
  {
    var base := capacity as real / SecondsPerHour;
    var x := base * (1.0 + u);
    if 0 <= capacity then
      ScaleBetween(base, 0.9, 1.0 + u, 1.1);
      TruncMonotone(base * 0.9, x);
      TruncMonotone(x, base * 1.1);
      Trunc(x)
    else
      Trunc(x)
  }

  /** Vehicles arriving at a red road in one refresh. */
  function Arrivals(rate: real, u: real): (d: int)
    requires -ArrivalSpread <= u < ArrivalSpread
    ensures 0.0 <= rate ==> 0 <= Trunc(rate * 0.8) <= d <= Trunc(rate * 1.2)
  {
    var x := rate * (1.0 + u);
    if 0.0 <= rate then
      ScaleBetween(rate, 0.8, 1.0 + u, 1.2);
      TruncMonotone(rate * 0.8, x);
      TruncMonotone(x, rate * 1.2);
      Trunc(x)
    else
      Trunc(x)
  }

  /**
   * The synthetic demand step: a green road loses its clearance, a red road
   * gains its arrivals. There is no lower clamp, so the count may go below zero.
   */
  function NextCount(count: int, isGreen: bool, capacity: int, rate: real, d: Draw): (c: int)
    requires DrawOk(d)
    ensures isGreen && 0 <= capacity ==>
      count - Trunc(capacity as real / SecondsPerHour * 1.1) <= c <= count - Trunc(capacity as real / SecondsPerHour * 0.9)
    ensures !isGreen && 0.0 <= rate ==>
      count + Trunc(rate * 0.8) <= c <= count + Trunc(rate * 1.2)
  {
    if isGreen then count - Clearance(capacity, d.clearance)
    else count + Arrivals(rate, d.arrival)
  }

  /** Python truthiness of an optional timestamp: `None` and `0.0` are false. */
  predicate Truthy(t: Option<real>) {
    t.Some? && t.value != 0.0
  }

  /**
   * One refresh of the emergency window: a draw below the trigger probability
   * opens a window when none is open; then a window older than the duration
   * is cleared.
   */
  function EmergencyStep(e: Emergency, trigger: real, now: real): (r: Emergency)
    // a window still open after the step is no older than the duration
    ensures Truthy(r.since) ==> now - r.since.value <= EmergencyDuration
    // a window opens exactly when none was open and the draw is low, and stays open in this call
    ensures e.since.None? && trigger < TriggerProbability ==> r == Emergency(true, Some(now))
    ensures e.since.None? && TriggerProbability <= trigger ==> r == e
    // an open window is cleared exactly when strictly older than the duration
    ensures Truthy(e.since) && now - e.since.value > EmergencyDuration ==> r == Emergency(false, None)
    ensures Truthy(e.since) && now - e.since.value <= EmergencyDuration ==> r == e
    // a window stamped 0.0 is falsy in Python and is never cleared
    ensures e.since == Some(0.0) ==> r == e
  {
    var started := if trigger < TriggerProbability && e.since.None? then Emergency(true, Some(now)) else e;
    if Truthy(started.since) && now - started.since.value > EmergencyDuration then Emergency(false, None)
    else started
  }

  /** A new road: green time from the initial count, red, no emergency. */
  function NewRoad(count: int, capacity: int, totalTime: int, rate: real): (v: RoadView)
    requires capacity != 0
    ensures Tracks(v) && !v.isGreen && v.emergency == Emergency(false, None)
  {
    RoadView(capacity, totalTime, rate, count, GreenTime(count, capacity, totalTime), false, Emergency(false, None))
  }

  /** Static parameters are the same in both views. */
  predicate SameSetup(v: RoadView, w: RoadView) {
    v.capacity == w.capacity && v.totalTime == w.totalTime && v.rateOfIncrease == w.rateOfIncrease
  }

  function TurnRed(v: RoadView): RoadView {
    v.(isGreen := false)
  }

  function TurnGreen(v: RoadView): RoadView {
    v.(isGreen := true)
  }

  /** The fast refresh of one road: demand step, green-time recompute, emergency window. */
  function Update(v: RoadView, d: Draw, now: real): (r: RoadView)
    requires v.capacity != 0 && DrawOk(d)
    ensures SameSetup(v, r) && r.isGreen == v.isGreen
    ensures Tracks(r)
    ensures r.vehicleCount == NextCount(v.vehicleCount, v.isGreen, v.capacity, v.rateOfIncrease, d)
    ensures r.emergency == EmergencyStep(v.emergency, d.trigger, now)
  {
    var count := NextCount(v.vehicleCount, v.isGreen, v.capacity, v.rateOfIncrease, d);
    v.(vehicleCount := count,
       greenTime := GreenTime(count, v.capacity, v.totalTime),
       emergency := EmergencyStep(v.emergency, d.trigger, now))
  }

  /** The slow refresh of one road: the detector's reading overwrites count and flag. */
  function CamUpdate(v: RoadView, reading: Reading): (r: RoadView)
    ensures r.vehicleCount == reading.count && r.emergency.flag == reading.emergency
    ensures SameSetup(v, r) && r.isGreen == v.isGreen
    ensures r.greenTime == v.greenTime && r.emergency.since == v.emergency.since
  {
    v.(vehicleCount := reading.count, emergency := v.emergency.(flag := reading.emergency))
  }

  // ---------------------------------------------------------------------
  // Lemmas

  /** Scaling a non-negative base keeps a factor's bounds. */
  lemma ScaleBetween(base: real, lo: real, f: real, hi: real)
    requires 0.0 <= base && lo <= f <= hi
    ensures base * lo <= base * f <= base * hi
  {
    MulNonNegative(base, f - lo);
    MulNonNegative(base, hi - f);
    assert base * f - base * lo == base * (f - lo);
    assert base * hi - base * f == base * (hi - f);
  }

  lemma MulNonNegative(a: real, b: real)
    requires 0.0 <= a && 0.0 <= b
    ensures 0.0 <= a * b
  {
  }

  lemma FloorMonotone(x: real, y: real)
    requires x <= y
    ensures x.Floor <= y.Floor
  {
    assert x.Floor as real <= x <= y < y.Floor as real + 1.0;
  }

  /** Truncation toward zero never reverses an order. */
  lemma TruncMonotone(x: real, y: real)
    requires x <= y
    ensures Trunc(x) <= Trunc(y)
  {
    if 0.0 <= x {
      FloorMonotone(x, y);
    } else if y < 0.0 {
      FloorMonotone(-y, -x);
    }
  }

  /** A longer queue never gets a shorter green time. */
  lemma GreenTimeMonotone(c1: int, c2: int, capacity: int, totalTime: int)
    requires 0 < capacity && 0 <= totalTime && c1 <= c2
    ensures GreenTime(c1, capacity, totalTime) <= GreenTime(c2, capacity, totalTime)
  {
    var k := totalTime as real / capacity as real;
    assert 0.0 <= k;
    assert GreenTime(c1, capacity, totalTime) == c1 as real * k;
    assert GreenTime(c2, capacity, totalTime) == c2 as real * k;
    MulNonNegative((c2 - c1) as real, k);
    assert c2 as real * k - c1 as real * k == (c2 - c1) as real * k;
  }

  /** With a non-zero total time, the green time determines the count. */
  lemma GreenTimeInjective(c1: int, c2: int, capacity: int, totalTime: int)
    requires capacity != 0 && totalTime != 0
    requires GreenTime(c1, capacity, totalTime) == GreenTime(c2, capacity, totalTime)
    ensures c1 == c2
  {
    var k := totalTime as real / capacity as real;
    assert k != 0.0;
    assert GreenTime(c1, capacity, totalTime) == c1 as real * k;
    assert GreenTime(c2, capacity, totalTime) == c2 as real * k;
  }

  /**
   * A road with capacity up to 3272 vehicles per hour clears nothing in a
   * synthetic refresh: `capacity / 3600 * 1.1` stays below one. Every road
   * the controller builds is of this kind, so a green road's count never
   * falls in the synthetic refresh (a detector reading may still lower it).
   */
  lemma SmallCapacityNeverClears(capacity: int, u: real)
    requires 0 <= capacity <= 3272 && -ClearanceSpread <= u < ClearanceSpread
    ensures Clearance(capacity, u) == 0
  {
    assert capacity as real / SecondsPerHour * 1.1 < 1.0;
  }

  /** Without a clamp, a green road with a large capacity can go below zero. */
  lemma CountCanGoNegative(rate: real)
    ensures NextCount(0, true, 7200, rate, Draw(0.0, 0.0, 0.5)) == -2
  {
    assert Clearance(7200, 0.0) == Trunc(2.0);
  }

  /** A detector reading that changes the count leaves the green time stale. */
  lemma CameraLeavesGreenTimeStale(v: RoadView, reading: Reading)
    requires Tracks(v) && v.totalTime != 0 && reading.count != v.vehicleCount
    ensures !Tracks(CamUpdate(v, reading))
  {
    var r := CamUpdate(v, reading);
    if Tracks(r) {
      GreenTimeInjective(v.vehicleCount, reading.count, v.capacity, v.totalTime);
    }
  }

  /**
   * A detector flag opens no window, but a synthetic window opened later on
   * the same road resets the flag when it expires.
   */
  lemma WindowExpiryClearsDetectorFlag(v: RoadView, count: nat, d1: Draw, t1: real, d2: Draw, t2: real)
    requires v.capacity != 0 && DrawOk(d1) && DrawOk(d2) && v.emergency.since.None?
    requires d1.trigger < TriggerProbability && t1 != 0.0 && t2 - t1 > EmergencyDuration
    ensures CamUpdate(v, Reading(count, true)).emergency == Emergency(true, None)
    ensures Update(Update(CamUpdate(v, Reading(count, true)), d1, t1), d2, t2).emergency == Emergency(false, None)
  {
    var w := Update(CamUpdate(v, Reading(count, true)), d1, t1);
    assert w.emergency == Emergency(true, Some(t1));
  }
}
