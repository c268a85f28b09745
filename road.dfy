/**
 * One approach of the intersection. The fields stand for the road's row in
 * the road store (count, capacity, total time, green time, emergency flag,
 * data-source path) together with the in-memory light state and the start
 * of the emergency window.
 */
module Roads {
  import opened Options
  import opened RoadLogic

  class Road {
    const name: string
    const capacity: int
    const totalTime: int
    const rateOfIncrease: real
    const filePath: Option<string>

    var vehicleCount: int
    var greenTime: real
    var hasEmergencyVehicle: bool
    var isGreen: bool
    var emergencyTriggeredAt: Option<real>

    /** The road's state as a value. */
    function View(): RoadView
      reads this
    {
      RoadView(capacity, totalTime, rateOfIncrease, vehicleCount, greenTime, isGreen,
               Emergency(hasEmergencyVehicle, emergencyTriggeredAt))
    }

    constructor (name: string, vehicleCount: int, capacity: int, totalTime: int, rateOfIncrease: real,
                 filePath: Option<string>)
      requires capacity != 0
      ensures View() == NewRoad(vehicleCount, capacity, totalTime, rateOfIncrease)
      ensures this.name == name && this.filePath == filePath
    {
      this.name := name;
      this.capacity := capacity;
      this.totalTime := totalTime;
      this.rateOfIncrease := rateOfIncrease;
      this.filePath := filePath;
      this.vehicleCount := vehicleCount;
      this.greenTime := GreenTime(vehicleCount, capacity, totalTime);
      this.hasEmergencyVehicle := false;
      this.isGreen := false;
      this.emergencyTriggeredAt := None;
    }

    method TurnRed()
      modifies this`isGreen
      ensures !isGreen
      ensures View() == RoadLogic.TurnRed(old(View()))
    {
      isGreen := false;
    }

    method TurnGreen()
      modifies this`isGreen
      ensures isGreen
      ensures View() == RoadLogic.TurnGreen(old(View()))
    {
      isGreen := true;
    }

    /**
     * The fast refresh: the demand step on the count, the green time
     * recomputed from the new count, then the emergency trigger and clear.
     * `now` is the wall-clock time and `d` the random draws of this call.
     */
    method Update(now: real, d: Draw)
      requires capacity != 0 && DrawOk(d)
      modifies this`vehicleCount, this`greenTime, this`hasEmergencyVehicle, this`emergencyTriggeredAt
      ensures greenTime == GreenTime(vehicleCount, capacity, totalTime)
      ensures View() == RoadLogic.Update(old(View()), d, now)
    {
      ghost var v := View();
      var count := vehicleCount;
      if isGreen {
        count := count - Clearance(capacity, d.clearance);
      } else {
        count := count + Arrivals(rateOfIncrease, d.arrival);
      }
      assert count == NextCount(v.vehicleCount, v.isGreen, capacity, rateOfIncrease, d);
      vehicleCount := count;

      greenTime := GreenTime(count, capacity, totalTime);

      if d.trigger < TriggerProbability && emergencyTriggeredAt.None? {
        hasEmergencyVehicle := true;
        emergencyTriggeredAt := Some(now);
      }

      if Truthy(emergencyTriggeredAt) {
        var elapsed := now - emergencyTriggeredAt.value;
        if elapsed > EmergencyDuration {
          hasEmergencyVehicle := false;
          emergencyTriggeredAt := None;
        }
      }
      assert Emergency(hasEmergencyVehicle, emergencyTriggeredAt) == EmergencyStep(v.emergency, d.trigger, now);
    }

    /**
     * The slow refresh: the detector's reading for this road's data source
     * overwrites the count and the emergency flag, and nothing else.
     */
    method CamUpdate(reading: Reading)
      modifies this`vehicleCount, this`hasEmergencyVehicle
      ensures vehicleCount == reading.count && hasEmergencyVehicle == reading.emergency
      ensures View() == RoadLogic.CamUpdate(old(View()), reading)
    {
      vehicleCount := reading.count;
      hasEmergencyVehicle := reading.emergency;
    }
  }
}
