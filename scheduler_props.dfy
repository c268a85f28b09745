/**
 * Properties of one controller iteration: the light invariant, which road
 * is active afterwards, the first-iteration timers, the green-time
 * tracking, and the rotate-then-preempt scenario.
 */
module SchedulerProperties {
  import opened Options
  import opened RoadLogic
  import opened Scheduler

  /** Roads that differ only in their lights carry the same emergency flags. */
  lemma LightsKeepFlags(a: seq<RoadView>, b: seq<RoadView>)
    requires LightsOnly(a, b)
    ensures Flags(a) == Flags(b)
  {
    forall i | 0 <= i < |a|
      ensures Flags(a)[i] == Flags(b)[i]
    {
      assert TurnRed(a[i]).emergency == TurnRed(b[i]).emergency;
    }
  }

  /** Each iteration keeps every road other than the active one red. */
  lemma StepKeepsOthersRed(s: State, now: real, draws: seq<Draw>, readings: seq<Reading>)
    requires Wf(s) && DrawsOk(s, draws) && |readings| == |s.roads|
    requires OthersRed(s)
    ensures OthersRed(Step(s, now, draws, readings))
  {
    var s2 := Rotate(StartTimers(s, now), now);
    var s3 := Signals(s, now);
    var s4 := FastRefresh(s3, now, draws);
    assert OthersRed(s2);
    assert OthersRed(s3);
    assert OthersRed(s4);
  }

  /** Once exactly one road is green, every later iteration keeps it so. */
  lemma StepKeepsOneGreen(s: State, now: real, draws: seq<Draw>, readings: seq<Reading>)
    requires Wf(s) && DrawsOk(s, draws) && |readings| == |s.roads|
    requires OneGreen(s)
    ensures OneGreen(Step(s, now, draws, readings))
  {
    var s2 := Rotate(StartTimers(s, now), now);
    var s3 := Signals(s, now);
    var s4 := FastRefresh(s3, now, draws);
    assert OneGreen(s2);
    assert OneGreen(s3);
    assert OneGreen(s4);
  }

  /**
   * An iteration whose rotation or preemption switches roads (even at the
   * instant the phase started, or back to the same road) leaves exactly one
   * road green, and from then on it stays so (initially none is).
   */
  lemma SwitchMakesOneGreen(s: State, now: real, draws: seq<Draw>, readings: seq<Reading>)
    requires Wf(s) && DrawsOk(s, draws) && |readings| == |s.roads|
    requires OthersRed(s)
    requires Signals(s, now) != StartTimers(s, now)
    ensures Step(s, now, draws, readings).startTime == Signals(s, now).startTime
    ensures OneGreen(Step(s, now, draws, readings))
  {
    var s1 := StartTimers(s, now);
    var s2 := Rotate(s1, now);
    var s3 := Signals(s, now);
    var s4 := FastRefresh(s3, now, draws);
    assert OthersRed(s2);
    if s3 == s2 {
      assert s2 != s1;
      assert OneGreen(s2);
    }
    assert OneGreen(s3);
    assert OneGreen(s4);
  }

  /**
   * The road active after an iteration: the first flagged road in list order
   * if there is one, whatever the phase clock says; otherwise the ring
   * successor when the phase timed out, else the same road.
   */
  lemma StepActive(s: State, now: real, draws: seq<Draw>, readings: seq<Reading>)
    requires Wf(s) && DrawsOk(s, draws) && |readings| == |s.roads|
    ensures Step(s, now, draws, readings).active ==
      match FirstFlagged(Flags(s.roads))
      case Some(k) => k
      case None => if RotationDue(s, now) then Next(s.active, |s.roads|) else s.active
  {
    var s1 := StartTimers(s, now);
    var s2 := Rotate(s1, now);
    LightsKeepFlags(s1.roads, s2.roads);
    assert RotationDue(s1, now) == RotationDue(s, now);
  }

  /** The first iteration starts both timers at `now` and refreshes nothing. */
  lemma FirstIterationSkipsRefresh(s: State, now: real, draws: seq<Draw>, readings: seq<Reading>)
    requires Wf(s) && DrawsOk(s, draws) && |readings| == |s.roads|
    requires s.roadTs.None? && s.camTs.None?
    ensures Step(s, now, draws, readings) == Preempt(Rotate(s.(roadTs := Some(now), camTs := Some(now)), now), now)
    ensures Step(s, now, draws, readings).roadTs == Some(now) && Step(s, now, draws, readings).camTs == Some(now)
  {
    assert StartTimers(s, now) == s.(roadTs := Some(now), camTs := Some(now));
  }

  /**
   * When the fast refresh runs and the slow one does not, every road's green
   * time agrees with its new count after the iteration.
   */
  lemma FastRefreshTracks(s: State, now: real, draws: seq<Draw>, readings: seq<Reading>)
    requires Wf(s) && DrawsOk(s, draws) && |readings| == |s.roads|
    requires s.roadTs.Some? && now - s.roadTs.value > FastPeriod
    requires s.camTs.Some? && now - s.camTs.value <= SlowPeriod
    ensures forall i | 0 <= i < |s.roads| :: Tracks(Step(s, now, draws, readings).roads[i])
  {
    var s3 := Signals(s, now);
    assert s3.roadTs == s.roadTs && s3.camTs == s.camTs;
  }

  /**
   * When both refreshes run in the same iteration, a detector count that
   * differs from the synthetic one leaves that road's green time stale.
   */
  lemma BothRefreshesLeaveStaleGreenTime(s: State, now: real, draws: seq<Draw>, readings: seq<Reading>, i: nat)
    requires Wf(s) && DrawsOk(s, draws) && |readings| == |s.roads|
    requires s.roadTs.Some? && now - s.roadTs.value > FastPeriod
    requires s.camTs.Some? && now - s.camTs.value > SlowPeriod
    requires i < |s.roads| && s.roads[i].totalTime != 0
    requires readings[i].count != Update(Signals(s, now).roads[i], draws[i], now).vehicleCount
    ensures !Tracks(Step(s, now, draws, readings).roads[i])
  {
    var s3 := Signals(s, now);
    var s4 := FastRefresh(s3, now, draws);
    assert s3.roadTs == s.roadTs && s3.camTs == s.camTs;
    assert TurnRed(s3.roads[i]) == TurnRed(s.roads[i]);
    assert s4.roads[i] == Update(s3.roads[i], draws[i], now);
    CameraLeavesGreenTimeStale(s4.roads[i], readings[i]);
  }

  /** An iteration changes no road's capacity, total time or arrival rate. */
  lemma StepKeepsSetup(s: State, now: real, draws: seq<Draw>, readings: seq<Reading>)
    requires Wf(s) && DrawsOk(s, draws) && |readings| == |s.roads|
    ensures forall i | 0 <= i < |s.roads| :: SameSetup(s.roads[i], Step(s, now, draws, readings).roads[i])
  {
    var s2 := Rotate(StartTimers(s, now), now);
    var s3 := Signals(s, now);
    forall i | 0 <= i < |s.roads|
      ensures SameSetup(s.roads[i], s3.roads[i])
    {
      assert TurnRed(s.roads[i]) == TurnRed(s2.roads[i]) == TurnRed(s3.roads[i]);
    }
  }


  /** An iteration whose fast refresh runs leaves no window open longer than the duration. */
  lemma StepBoundsWindows(s: State, now: real, draws: seq<Draw>, readings: seq<Reading>)
    requires Wf(s) && DrawsOk(s, draws) && |readings| == |s.roads|
    requires s.roadTs.Some? && now - s.roadTs.value > FastPeriod
    ensures var r := Step(s, now, draws, readings);
            r.roadTs == Some(now) && WindowsBounded(r)
  {
    var s3 := Signals(s, now);
    assert s3.roadTs == s.roadTs;
    var s4 := FastRefresh(s3, now, draws);
    var r := SlowRefresh(s4, now, readings);
    forall i | 0 <= i < |r.roads|
      ensures r.roads[i].emergency.since == s4.roads[i].emergency.since
    {
    }
  }

  /** Every iteration keeps the window bound, which holds initially (`Initial`). */
  lemma StepKeepsWindowsBounded(s: State, now: real, draws: seq<Draw>, readings: seq<Reading>)
    requires Wf(s) && DrawsOk(s, draws) && |readings| == |s.roads|
    requires WindowsBounded(s)
    ensures WindowsBounded(Step(s, now, draws, readings))
  {
    if s.roadTs.Some? && now - s.roadTs.value > FastPeriod {
      StepBoundsWindows(s, now, draws, readings);
    } else {
      var s3 := Signals(s, now);
      assert LightsOnly(s.roads, s3.roads);
      forall i | 0 <= i < |s.roads|
        ensures s3.roads[i].emergency == s.roads[i].emergency
      {
        assert TurnRed(s.roads[i]) == TurnRed(s3.roads[i]);
      }
      var s4 := FastRefresh(s3, now, draws);
      assert s4 == s3;
    }
  }

  /** None of the four configured roads ever clears a vehicle while green. */
  lemma ConfiguredRoadsNeverClear(now: real, i: nat, u: real)
    requires i < 4 && -ClearanceSpread <= u < ClearanceSpread
    ensures Clearance(Initial(now).roads[i].capacity, u) == 0
  {
    SmallCapacityNeverClears(Initial(now).roads[i].capacity, u);
  }

  // ---------------------------------------------------------------------
  // A four-road scenario: capacity 300 vehicles and 300 s per cycle, so
  // each road's green time in seconds equals its count: 40, 60, 70 and 30

  /** A red road of the scenario whose green time tracks `count`. */
  function ScenarioRoad(count: int): (v: RoadView)
    ensures Tracks(v) && v.greenTime == count as real
  {
    RoadView(300, 300, 1.0, count, count as real, false, Emergency(false, None))
  }

  /** Road 1 active from time 0, when the previous iteration also ran both refreshes. */
  function ScenarioStart(): State {
    State([ScenarioRoad(40), ScenarioRoad(60), ScenarioRoad(70), ScenarioRoad(30)],
          0, 0.0, Some(0.0), Some(0.0))
  }

  /** An emergency vehicle appears on road `k`. */
  function RaiseFlag(s: State, k: nat): State
    requires k < |s.roads|
  {
    s.(roads := s.roads[k := s.roads[k].(emergency := s.roads[k].emergency.(flag := true))])
  }

  /** At 41 s the first phase (40 s) has timed out: Road 2 is the one green road. */
  lemma ScenarioRotates(draws: seq<Draw>, readings: seq<Reading>)
    requires DrawsOk(ScenarioStart(), draws) && |readings| == 4
    requires forall i | 0 <= i < 4 :: TriggerProbability <= draws[i].trigger && !readings[i].emergency
    ensures var s1 := Step(ScenarioStart(), 41.0, draws, readings);
            s1.active == 1 && OneGreen(s1) && forall i | 0 <= i < 4 :: !s1.roads[i].emergency.flag
  {
    var s0 := ScenarioStart();
    StepActive(s0, 41.0, draws, readings);
    assert FirstFlagged(Flags(s0.roads)) == None;
    assert RotationDue(s0, 41.0);
    var s3 := Signals(s0, 41.0);
    assert s3.startTime == 41.0 && s3.camTs == Some(0.0);
    var s4 := FastRefresh(s3, 41.0, draws);
    var s5 := SlowRefresh(s4, 41.0, readings);
    assert s5 == Step(s0, 41.0, draws, readings);
    assert s4.camTs == Some(0.0);
    assert forall i | 0 <= i < 4 :: !s5.roads[i].emergency.flag;
    SwitchMakesOneGreen(s0, 41.0, draws, readings);
  }

  /**
   * Road 2's phase starts at 41 s, and since a capacity of 300 clears no
   * vehicle its green time stays 60 s through that iteration's fast refresh.
   */
  lemma ScenarioKeepsPhase(draws: seq<Draw>, readings: seq<Reading>)
    requires DrawsOk(ScenarioStart(), draws) && |readings| == 4
    requires forall i | 0 <= i < 4 :: TriggerProbability <= draws[i].trigger && !readings[i].emergency
    ensures var s1 := Step(ScenarioStart(), 41.0, draws, readings);
            s1.startTime == 41.0 && s1.roads[1].greenTime == 60.0
  {
    var s0 := ScenarioStart();
    assert FirstFlagged(Flags(s0.roads)) == None;
    assert RotationDue(s0, 41.0);
    var s2 := Rotate(StartTimers(s0, 41.0), 41.0);
    assert s2.active == 1 && s2.startTime == 41.0;
    var s3 := Signals(s0, 41.0);
    assert s3 == s2;
    assert s3.roads[1] == TurnGreen(s0.roads[1]);
    var s4 := FastRefresh(s3, 41.0, draws);
    SmallCapacityNeverClears(300, draws[1].clearance);
    assert s4.roads[1] == Update(s3.roads[1], draws[1], 41.0);
    assert s4.roads[1].vehicleCount == 60;
  }

  /**
   * Road 1 active from time 0: at 41 s the phase has timed out and Road 2 is
   * active; at 42 s Road 2's 60 s phase has not timed out, and an emergency
   * raised on Road 4 before that iteration makes Road 4 active and turns
   * Road 2 red.
   */
  lemma RotateThenPreempt(draws1: seq<Draw>, readings1: seq<Reading>, draws2: seq<Draw>, readings2: seq<Reading>)
    requires DrawsOk(ScenarioStart(), draws1) && DrawsOk(ScenarioStart(), draws2)
    requires |readings1| == 4 && |readings2| == 4
    requires forall i | 0 <= i < 4 :: TriggerProbability <= draws1[i].trigger && !readings1[i].emergency
    ensures Step(ScenarioStart(), 41.0, draws1, readings1).active == 1
    ensures var s1 := Step(ScenarioStart(), 41.0, draws1, readings1);
            !RotationDue(RaiseFlag(s1, 3), 42.0)
    ensures var s1 := Step(ScenarioStart(), 41.0, draws1, readings1);
            var s2 := Step(RaiseFlag(s1, 3), 42.0, draws2, readings2);
            s2.active == 3 && s2.roads[3].isGreen && !s2.roads[1].isGreen
  {
    ScenarioRotates(draws1, readings1);
    ScenarioKeepsPhase(draws1, readings1);
    var s1 := Step(ScenarioStart(), 41.0, draws1, readings1);
    var f := RaiseFlag(s1, 3);
    assert f.active == 1 && f.startTime == 41.0 && f.roads[1].greenTime == 60.0;
    assert Flags(f.roads) == [false, false, false, true];
    FirstFlaggedAt(Flags(f.roads), 3);
    StepActive(f, 42.0, draws2, readings2);
    assert OneGreen(f);
    StepKeepsOneGreen(f, 42.0, draws2, readings2);
  }
}
