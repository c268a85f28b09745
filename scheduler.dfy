/**
 * The controller loop as a state machine on values: one iteration of the
 * loop is `Step`, made of the timer start, the rotation on timeout, the
 * emergency preemption scan, and the fast and slow refreshes. The class
 * `Controller` (module Controllers) is proved to follow `Step`.
 */
module Scheduler {
  import opened Options
  import opened RoadLogic

  /** Seconds between two fast (synthetic demand) refreshes. */
  const FastPeriod: real := 1.0
  /** Seconds between two slow (detector) refreshes. */
  const SlowPeriod: real := 10.0

  /**
   * The whole intersection: the roads in ring order, the index of the active
   * road, the start of its phase, and the last fast and slow refresh times
   * (`None` before the first iteration).
   */
  datatype State = State(
    roads: seq<RoadView>,
    active: nat,
    startTime: real,
    roadTs: Option<real>,
    camTs: Option<real>)

  predicate Wf(s: State) {
    0 < |s.roads| && s.active < |s.roads|
    && forall i | 0 <= i < |s.roads| :: s.roads[i].capacity != 0
  }

  /** Every road other than the active one is red. */
  predicate OthersRed(s: State) {
    forall i | 0 <= i < |s.roads| && i != s.active :: !s.roads[i].isGreen
  }

  /** Exactly one road, the active one, is green. */
  predicate OneGreen(s: State) {
    OthersRed(s) && s.active < |s.roads| && s.roads[s.active].isGreen
  }

  /** The two sequences of roads differ at most in their lights. */
  predicate LightsOnly(a: seq<RoadView>, b: seq<RoadView>) {
    |a| == |b| && forall i | 0 <= i < |a| :: TurnRed(a[i]) == TurnRed(b[i])
  }

  /**
   * Every open emergency window is at most `EmergencyDuration` older than the
   * last fast refresh, and none is open before the first one.
   */
  predicate WindowsBounded(s: State) {
    forall i | 0 <= i < |s.roads| :: Truthy(s.roads[i].emergency.since) ==>
      s.roadTs.Some? && s.roadTs.value - s.roads[i].emergency.since.value <= EmergencyDuration
  }

  /** The roads are built in the order Road 1 .. Road 4, each linked to the following one. */
  function Initial(now: real): (s: State)
    ensures Wf(s) && OthersRed(s) && |s.roads| == 4
    ensures forall i | 0 <= i < |s.roads| :: Tracks(s.roads[i]) && !s.roads[i].isGreen
    ensures forall i | 0 <= i < |s.roads| :: s.roads[i].emergency == Emergency(false, None)
    ensures WindowsBounded(s)
    // Road 1 is the active road from `now`, and neither refresh has run yet
    ensures s.active == 0 && s.startTime == now && s.roadTs == None && s.camTs == None
  {
    State([NewRoad(40, 1000, 300, 1.0),
           NewRoad(60, 800, 300, 2.0),
           NewRoad(70, 1100, 300, 1.7),
           NewRoad(30, 700, 300, 1.2)],
          0, now, None, None)
  }

  // ---------------------------------------------------------------------
  // The ring

  /** The road linked as `next` of road `i` in a ring of `n` roads. */
  function Next(i: nat, n: nat): (j: nat)
    requires i < n
    ensures j < n && j == (i + 1) % n
  {
    if i + 1 == n then 0 else i + 1
  }

  /** The road reached from road `i` by following `next` `k` times. */
  function Walk(i: nat, k: nat, n: nat): (j: nat)
    requires i < n
    ensures j < n
  {
    if k == 0 then i else Next(Walk(i, k - 1, n), n)
  }

  /** Before the wrap-around, following `next` moves one index up per step. */
  lemma {:induction false} WalkUp(i: nat, k: nat, n: nat)
    requires i + k < n
    ensures Walk(i, k, n) == i + k
  {
    if k > 0 {
      WalkUp(i, k - 1, n);
    }
  }

  /** A walk of `a + b` steps is a walk of `a` steps followed by one of `b` steps. */
  lemma {:induction false} WalkSplit(i: nat, a: nat, b: nat, n: nat)
    requires i < n
    ensures Walk(i, a + b, n) == Walk(Walk(i, a, n), b, n)
  {
    if b > 0 {
      WalkSplit(i, a, b - 1, n);
    }
  }

  /** From road `i`, `n - i` steps wrap around to the first road. */
  lemma WalkWraps(i: nat, n: nat)
    requires i < n
    ensures Walk(i, n - i, n) == 0
  {
    WalkUp(i, n - i - 1, n);
  }

  /** Following `next` as many times as there are roads returns to the start. */
  lemma RingCloses(i: nat, n: nat)
    requires i < n
    ensures Walk(i, n, n) == i
  {
    WalkSplit(i, n - i, i, n);
    WalkWraps(i, n);
    WalkUp(0, i, n);
  }

  /** Every road is reached from every road in fewer steps than there are roads. */
  lemma RingReachesAll(i: nat, j: nat, n: nat)
    requires i < n && j < n
    ensures exists k: nat :: k < n && Walk(i, k, n) == j
  {
    if i <= j {
      WalkUp(i, j - i, n);
      assert Walk(i, j - i, n) == j;
    } else {
      WalkSplit(i, n - i, j, n);
      WalkWraps(i, n);
      WalkUp(0, j, n);
      assert Walk(i, n - i + j, n) == j;
    }
  }

  // ---------------------------------------------------------------------
  // One iteration of the loop

  /** The first index whose flag is set: the list-order scan that stops at the first match. */
  function FirstFlagged(f: seq<bool>): (r: Option<nat>)
    ensures r.Some? ==> r.value < |f| && f[r.value] && forall j | 0 <= j < r.value :: !f[j]
    ensures r.None? ==> forall j | 0 <= j < |f| :: !f[j]
  {
    if |f| == 0 then None
    else if f[0] then Some(0)
    else match FirstFlagged(f[1..])
      case None => None
      case Some(k) => Some(k + 1)
  }

  /** A flagged index with no flag before it is the first flagged one. */
  lemma FirstFlaggedAt(f: seq<bool>, k: nat)
    requires k < |f| && f[k] && forall j | 0 <= j < k :: !f[j]
    ensures FirstFlagged(f) == Some(k)
  {
  }

  function Flags(rs: seq<RoadView>): (f: seq<bool>)
    ensures |f| == |rs| && forall i | 0 <= i < |rs| :: f[i] == rs[i].emergency.flag
  {
    seq(|rs|, i requires 0 <= i < |rs| => rs[i].emergency.flag)
  }

  /** On the first iteration both refresh timers start at `now`. */
  function StartTimers(s: State, now: real): (r: State)
    ensures r.roads == s.roads && r.active == s.active && r.startTime == s.startTime
    ensures r.roadTs == (if s.roadTs.None? then Some(now) else s.roadTs)
    ensures r.camTs == (if s.camTs.None? then Some(now) else s.camTs)
  {
    s.(roadTs := if s.roadTs.None? then Some(now) else s.roadTs,
       camTs := if s.camTs.None? then Some(now) else s.camTs)
  }

  /** The active road turns red, road `k` becomes active and green, and its phase starts now. */
  function Switch(s: State, k: nat, now: real): (r: State)
    requires Wf(s) && k < |s.roads|
    ensures Wf(r) && r.active == k && r.startTime == now
    ensures r.roadTs == s.roadTs && r.camTs == s.camTs && LightsOnly(s.roads, r.roads)
    ensures r.roads[k].isGreen
    ensures forall i | 0 <= i < |s.roads| && i != k && i != s.active :: r.roads[i] == s.roads[i]
    ensures s.active != k ==> !r.roads[s.active].isGreen
    ensures OthersRed(s) ==> OneGreen(r)
  {
    var red := s.roads[s.active := TurnRed(s.roads[s.active])];
    s.(roads := red[k := TurnGreen(red[k])], active := k, startTime := now)
  }

  /** The active phase has run strictly longer than the active road's green time. */
  predicate RotationDue(s: State, now: real)
    requires Wf(s)
  {
    now - s.startTime > s.roads[s.active].greenTime
  }

  /** Round-robin rotation on timeout. */
  function Rotate(s: State, now: real): (r: State)
    requires Wf(s)
    ensures Wf(r) && LightsOnly(s.roads, r.roads) && r.roadTs == s.roadTs && r.camTs == s.camTs
    ensures RotationDue(s, now) ==>
      r.active == Next(s.active, |s.roads|) && r.startTime == now && (OthersRed(s) ==> OneGreen(r))
    ensures !RotationDue(s, now) ==> r == s
  {
    if RotationDue(s, now) then Switch(s, Next(s.active, |s.roads|), now) else s
  }

  /**
   * Emergency preemption: the first flagged road in list order wins; if it is
   * already active nothing happens, and flagged roads after it are ignored.
   */
  function Preempt(s: State, now: real): (r: State)
    requires Wf(s)
    ensures Wf(r) && LightsOnly(s.roads, r.roads) && r.roadTs == s.roadTs && r.camTs == s.camTs
    ensures FirstFlagged(Flags(s.roads)).None? ==> r == s
    ensures FirstFlagged(Flags(s.roads)) == Some(s.active) ==> r == s
    ensures FirstFlagged(Flags(s.roads)).Some? ==> r.active == FirstFlagged(Flags(s.roads)).value
    ensures r != s ==> r.startTime == now && (OthersRed(s) ==> OneGreen(r))
  {
    match FirstFlagged(Flags(s.roads))
    case None => s
    case Some(k) => if k == s.active then s else Switch(s, k, now)
  }

  predicate DrawsOk(s: State, draws: seq<Draw>) {
    |draws| == |s.roads| && forall i | 0 <= i < |draws| :: DrawOk(draws[i])
  }

  /** Every road refreshed with its own draws. */
  function UpdateAll(rs: seq<RoadView>, draws: seq<Draw>, now: real): (r: seq<RoadView>)
    requires |draws| == |rs|
    requires forall i | 0 <= i < |rs| :: rs[i].capacity != 0 && DrawOk(draws[i])
    ensures |r| == |rs|
    ensures forall i | 0 <= i < |rs| :: r[i] == Update(rs[i], draws[i], now)
    // hence every road keeps its light and setup, tracks its count, and any open window is bounded
    ensures forall i | 0 <= i < |rs| ::
      SameSetup(rs[i], r[i]) && r[i].isGreen == rs[i].isGreen && Tracks(r[i])
      && (Truthy(r[i].emergency.since) ==> now - r[i].emergency.since.value <= EmergencyDuration)
  {
    seq(|rs|, i requires 0 <= i < |rs| => Update(rs[i], draws[i], now))
  }

  /** Every road overwritten with its own detector reading. */
  function CamUpdateAll(rs: seq<RoadView>, readings: seq<Reading>): (r: seq<RoadView>)
    requires |readings| == |rs|
    ensures |r| == |rs|
    ensures forall i | 0 <= i < |rs| :: r[i] == CamUpdate(rs[i], readings[i])
    // hence the count and flag come from the reading; green time, window and light are kept
    ensures forall i | 0 <= i < |rs| ::
      r[i].vehicleCount == readings[i].count && r[i].emergency.flag == readings[i].emergency
      && r[i].greenTime == rs[i].greenTime && r[i].emergency.since == rs[i].emergency.since
      && SameSetup(rs[i], r[i]) && r[i].isGreen == rs[i].isGreen
  {
    seq(|rs|, i requires 0 <= i < |rs| => CamUpdate(rs[i], readings[i]))
  }

  /** The fast refresh: more than a second after the last one, update every road. */
  function FastRefresh(s: State, now: real, draws: seq<Draw>): (r: State)
    requires Wf(s) && s.roadTs.Some? && DrawsOk(s, draws)
    ensures Wf(r) && r.active == s.active && r.startTime == s.startTime && r.camTs == s.camTs
    ensures |r.roads| == |s.roads| && forall i | 0 <= i < |s.roads| :: r.roads[i].isGreen == s.roads[i].isGreen
    ensures now - s.roadTs.value > FastPeriod ==>
      r.roads == UpdateAll(s.roads, draws, now) && r.roadTs == Some(now)
      && forall i | 0 <= i < |s.roads| ::
           Tracks(r.roads[i])
           && (Truthy(r.roads[i].emergency.since) ==> now - r.roads[i].emergency.since.value <= EmergencyDuration)
    ensures now - s.roadTs.value <= FastPeriod ==> r == s
  {
    if now - s.roadTs.value > FastPeriod then
      s.(roads := UpdateAll(s.roads, draws, now), roadTs := Some(now))
    else s
  }

  /** The slow refresh: more than ten seconds after the last one, read every road's detector. */
  function SlowRefresh(s: State, now: real, readings: seq<Reading>): (r: State)
    requires Wf(s) && s.camTs.Some? && |readings| == |s.roads|
    ensures Wf(r) && r.active == s.active && r.startTime == s.startTime && r.roadTs == s.roadTs
    ensures |r.roads| == |s.roads| && forall i | 0 <= i < |s.roads| :: r.roads[i].isGreen == s.roads[i].isGreen
    ensures forall i | 0 <= i < |s.roads| ::
      r.roads[i].greenTime == s.roads[i].greenTime && r.roads[i].emergency.since == s.roads[i].emergency.since
      && SameSetup(s.roads[i], r.roads[i])
    ensures now - s.camTs.value > SlowPeriod ==>
      r.roads == CamUpdateAll(s.roads, readings) && r.camTs == Some(now)
      && forall i | 0 <= i < |s.roads| ::
           r.roads[i].vehicleCount == readings[i].count && r.roads[i].emergency.flag == readings[i].emergency
    ensures now - s.camTs.value <= SlowPeriod ==> r == s
  {
    if now - s.camTs.value > SlowPeriod then
      s.(roads := CamUpdateAll(s.roads, readings), camTs := Some(now))
    else s
  }

  /** The signal part of an iteration: timers started, rotation, then preemption. */
  function Signals(s: State, now: real): (r: State)
    requires Wf(s)
    ensures Wf(r) && LightsOnly(s.roads, r.roads) && r.roadTs.Some? && r.camTs.Some?
  {
    Preempt(Rotate(StartTimers(s, now), now), now)
  }

  /** One iteration of the controller loop at wall-clock time `now`. */
  function Step(s: State, now: real, draws: seq<Draw>, readings: seq<Reading>): (r: State)
    requires Wf(s) && DrawsOk(s, draws) && |readings| == |s.roads|
    ensures Wf(r) && |r.roads| == |s.roads|
  {
    SlowRefresh(FastRefresh(Signals(s, now), now, draws), now, readings)
  }
}
