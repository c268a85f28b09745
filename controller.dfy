/**
 * The controller loop over the four road objects: the active road, the
 * phase clock and the two refresh timestamps. One call of `Step` is one
 * iteration of the endless loop, and it is proved to follow
 * `Scheduler.Step`.
 */
module Controllers {
  import opened Options
  import opened RoadLogic
  import opened Roads
  import Scheduler

  class Controller {
    /** The roads in list order; road `i` is linked to road `Next(i)`. */
    const roads: array<Road>
    /** Index of the active road. */
    var active: nat
    /** Wall-clock time at which the active phase started. */
    var startTime: real
    /** Last fast and slow refresh times; `None` until the first iteration. */
    var roadTs: Option<real>
    var camTs: Option<real>

    /** The value of every road, kept in step with the road objects. */
    ghost var views: seq<RoadView>

    ghost function Model(): Scheduler.State
      reads this
    {
      Scheduler.State(views, active, startTime, roadTs, camTs)
    }

    ghost predicate Valid()
      reads this, roads, roads[..]
    {
      roads.Length == 4 && |views| == roads.Length
      && (forall i, j | 0 <= i < j < roads.Length :: roads[i] != roads[j])
      && (forall i | 0 <= i < roads.Length :: roads[i].View() == views[i])
      && Scheduler.Wf(Model()) && Scheduler.OthersRed(Model())
    }

    /** Builds the four roads, links them in a ring and makes Road 1 active (not yet green). */
    constructor (now: real)
      ensures Valid() && Model() == Scheduler.Initial(now)
    {
      var r1 := new Road("Road 1", 40, 1000, 300, 1.0, None);
      var r2 := new Road("Road 2", 60, 800, 300, 2.0, None);
      var r3 := new Road("Road 3", 70, 1100, 300, 1.7, None);
      var r4 := new Road("Road 4", 30, 700, 300, 1.2, None);
      var ring := new Road[4] [r1, r2, r3, r4];
      ghost var vs := [r1.View(), r2.View(), r3.View(), r4.View()];
      assert vs == Scheduler.Initial(now).roads;
      assert ring[..] == [r1, r2, r3, r4];
      roads := ring;
      active := 0;
      startTime := now;
      roadTs := None;
      camTs := None;
      views := vs;
    }

    /** The active road turns red, road `k` becomes active and green, and its phase starts now. */
    method SwitchTo(k: nat, now: real)
      requires Valid() && k < roads.Length
      modifies this, roads[..]
      ensures Valid() && Model() == Scheduler.Switch(old(Model()), k, now)
    {
      ghost var s := Model();
      roads[active].TurnRed();
      views := views[active := roads[active].View()];
      active := k;
      roads[active].TurnGreen();
      views := views[active := roads[active].View()];
      startTime := now;
      assert Model() == Scheduler.Switch(s, k, now);
    }

    /**
     * The emergency scan: the roads in list order, stopping at the first
     * flagged one; it becomes active unless it already is.
     */
    method Preempt(now: real)
      requires Valid()
      modifies this, roads[..]
      ensures Valid() && Model() == Scheduler.Preempt(old(Model()), now)
    {
      ghost var s := Model();
      var i := 0;
      while i < roads.Length
        invariant 0 <= i <= roads.Length
        invariant Valid() && Model() == s
        invariant forall j | 0 <= j < i :: !views[j].emergency.flag
      {
        if roads[i].hasEmergencyVehicle {
          assert views[i].emergency.flag;
          Scheduler.FirstFlaggedAt(Scheduler.Flags(s.roads), i);
          if i != active {
            SwitchTo(i, now);
          }
          break;
        }
        i := i + 1;
      }
    }

    /** The fast refresh: every road runs its synthetic update, in list order. */
    method RefreshRoads(now: real, draws: seq<Draw>)
      requires Valid() && |draws| == roads.Length && forall i | 0 <= i < |draws| :: DrawOk(draws[i])
      modifies this, roads[..]
      ensures Valid()
      ensures Model() == old(Model()).(roads := Scheduler.UpdateAll(old(views), draws, now))
    {
      ghost var v0 := views;
      var i := 0;
      while i < roads.Length
        invariant 0 <= i <= roads.Length
        invariant |views| == roads.Length
        invariant active == old(active) && startTime == old(startTime)
        invariant roadTs == old(roadTs) && camTs == old(camTs)
        invariant forall j | 0 <= j < roads.Length :: roads[j].View() == views[j]
        invariant forall j | 0 <= j < i :: views[j] == Update(v0[j], draws[j], now)
        invariant forall j | i <= j < roads.Length :: views[j] == v0[j]
      {
        roads[i].Update(now, draws[i]);
        views := views[i := roads[i].View()];
        i := i + 1;
      }
      assert views == Scheduler.UpdateAll(v0, draws, now);
    }

    /** The slow refresh: every road takes its detector reading, in list order. */
    method RefreshCameras(readings: seq<Reading>)
      requires Valid() && |readings| == roads.Length
      modifies this, roads[..]
      ensures Valid()
      ensures Model() == old(Model()).(roads := Scheduler.CamUpdateAll(old(views), readings))
    {
      ghost var v0 := views;
      var i := 0;
      while i < roads.Length
        invariant 0 <= i <= roads.Length
        invariant |views| == roads.Length
        invariant active == old(active) && startTime == old(startTime)
        invariant roadTs == old(roadTs) && camTs == old(camTs)
        invariant forall j | 0 <= j < roads.Length :: roads[j].View() == views[j]
        invariant forall j | 0 <= j < i :: views[j] == CamUpdate(v0[j], readings[j])
        invariant forall j | i <= j < roads.Length :: views[j] == v0[j]
      {
        roads[i].CamUpdate(readings[i]);
        views := views[i := roads[i].View()];
        i := i + 1;
      }
      assert views == Scheduler.CamUpdateAll(v0, readings);
    }

    /** On the first iteration both refresh timestamps start at `now`. */
    method StartTimers(now: real)
      requires Valid()
      modifies this
      ensures Valid() && Model() == Scheduler.StartTimers(old(Model()), now)
    {
      if roadTs.None? {
        roadTs := Some(now);
      }
      if camTs.None? {
        camTs := Some(now);
      }
    }

    /** Round-robin rotation: once the phase outlasts the active road's green time, move to its successor. */
    method Rotate(now: real)
      requires Valid()
      modifies this, roads[..]
      ensures Valid() && Model() == Scheduler.Rotate(old(Model()), now)
    {
      if now - startTime > roads[active].greenTime {
        SwitchTo(Scheduler.Next(active, roads.Length), now);
      }
    }

    /** More than a second after the last fast refresh, refresh every road and restart the timer. */
    method FastRefresh(now: real, draws: seq<Draw>)
      requires Valid() && roadTs.Some? && Scheduler.DrawsOk(Model(), draws)
      modifies this, roads[..]
      ensures Valid() && Model() == Scheduler.FastRefresh(old(Model()), now, draws)
    {
      if now - roadTs.value > Scheduler.FastPeriod {
        RefreshRoads(now, draws);
        roadTs := Some(now);
      }
    }

    /** More than ten seconds after the last slow refresh, read every detector and restart the timer. */
    method SlowRefresh(now: real, readings: seq<Reading>)
      requires Valid() && camTs.Some? && |readings| == roads.Length
      modifies this, roads[..]
      ensures Valid() && Model() == Scheduler.SlowRefresh(old(Model()), now, readings)
    {
      if now - camTs.value > Scheduler.SlowPeriod {
        RefreshCameras(readings);
        camTs := Some(now);
      }
    }

    /**
     * One iteration of the loop at wall-clock time `now`, with the random
     * draws of each road's update and each road's detector reading.
     */
    method Step(now: real, draws: seq<Draw>, readings: seq<Reading>)
      requires Valid() && Scheduler.DrawsOk(Model(), draws) && |readings| == roads.Length
      modifies this, roads[..]
      ensures Valid() && Model() == Scheduler.Step(old(Model()), now, draws, readings)
    {
      ghost var s := Model();
      StartTimers(now);
      Rotate(now);
      Preempt(now);
      ghost var s3 := Model();
      assert s3 == Scheduler.Signals(s, now);
      FastRefresh(now, draws);
      ghost var s4 := Model();
      assert s4 == Scheduler.FastRefresh(s3, now, draws);
      SlowRefresh(now, readings);
      assert Model() == Scheduler.SlowRefresh(s4, now, readings);
    }
  }
}
