# Smart traffic signal controller — Dafny model

This project models the signal-scheduling core of a simulated four-way
traffic controller. Four roads form a fixed ring. Exactly one of them, the
active road, may be green. The controller loop does four things in order:

- it rotates to the next road in the ring once the active phase has run
  longer than the active road's adaptive green time;
- it preempts for the first road, in list order, that reports an emergency
  vehicle;
- every second it refreshes each road's synthetic demand and its random
  emergency window;
- every ten seconds it overwrites each road's count and emergency flag with a
  detector reading.

Each road's green time is `vehicle_count / capacity * total_time`.

Files:

- `options.dfy`: the `Option` datatype.
- `road_logic.dfy` (module `RoadLogic`): the per-road rules as pure functions.
  These cover the green-time formula, Python `int()` truncation, the clearance
  and arrival step, the emergency window, and the state of a road as a value
  (`RoadView`).
- `road.dfy` (module `Roads`): class `Road`. Its fields stand for the road's
  store row plus the light state and the emergency window start. Each method
  is proved to produce the `RoadLogic` value of the new state.
- `scheduler.dfy` (module `Scheduler`): one iteration of the controller loop
  as a function `Step` on a `State` value. `Step` is made of `StartTimers`,
  `Rotate`, `Preempt`, `FastRefresh` and `SlowRefresh`. The file also defines
  the ring (`Next`, `Walk`) and its closure lemmas.
- `scheduler_props.dfy` (module `SchedulerProperties`): lemmas about `Step`.
  They cover the light invariant, which road is active afterwards, the
  first-iteration timers, green-time tracking, the emergency-window bound and
  a rotate-then-preempt scenario.
- `controller.dfy` (module `Controllers`): class `Controller`. It holds
  `roads: array<Road>`, the active index, the phase clock and the two refresh
  timestamps. A ghost `views` sequence mirrors the road objects. `Valid()`
  requires the roads to be distinct, mirrored by `views`, and every
  non-active road to be red. Each method is proved to follow its `Scheduler`
  function.

Inputs that are not program state become parameters:

- the wall-clock time `now`;
- per road, the three random draws (`Draw`): the clearance offset in
  [-0.1, 0.1), the arrival offset in [-0.2, 0.2) and the trigger draw in
  [0, 1);
- per road, the detector's `Reading`.

Behaviours of the code that the model keeps as written:

- The demand step has no lower clamp, so a green road's count can go below
  zero (`CountCanGoNegative`).
- The camera refresh runs for every road, not only for roads with a data
  source.
- The camera refresh does not recompute the green time, which can then be
  stale (`CameraLeavesGreenTimeStale`, `BothRefreshesLeaveStaleGreenTime`).
- A failed detector read returns `(0, False)`, and that reading overwrites
  the count like any other.
- At start-up Road 1 is active but no road is green. "Exactly one green" holds
  only from the first switch on (`Initial`, `SwitchMakesOneGreen`,
  `StepKeepsOneGreen`).
- A flag raised by the detector opens no emergency window of its own. It is
  cleared by the next detector reading, or when a synthetic window on the same
  road expires: the window check tests only whether a start time is recorded,
  so a window can still open on a flagged road, and its expiry resets the flag.
- The emergency check `if self.emergency_triggered_at:` uses Python
  truthiness, so a window stamped `0.0` is never cleared (`Truthy`,
  `EmergencyStep`).

## Model

| member | source | states |
|---|---|---|
| `RoadLogic.Trunc` | road.py:58 | Python `int()` truncates toward zero: for `x >= 0` the result is the largest integer not above `x`, and for `x < 0` the smallest integer not below `x` |
| `RoadLogic.GreenTime` | road.py:67 | the green time is zero for an empty road, equals the total time for a road at full capacity, and is non-negative for non-negative inputs |
| `RoadLogic.GreenTimeMonotone` | road.py:67 | a larger vehicle count never gives a shorter green time |
| `RoadLogic.GreenTimeInjective` | road.py:67 | with a non-zero total time, equal green times mean equal counts |
| `RoadLogic.Clearance` | road.py:58 | a green road's clearance lies between `int(capacity/3600*0.9)` and `int(capacity/3600*1.1)` |
| `RoadLogic.Arrivals` | road.py:61 | a red road's arrivals are non-negative and lie between `int(rate*0.8)` and `int(rate*1.2)` |
| `RoadLogic.NextCount` | road.py:56-61 | the count of a green road drops by a clearance in range, and the count of a red road rises by arrivals in range, with no clamp |
| `RoadLogic.SmallCapacityNeverClears` | road.py:58 | with a capacity of at most 3272 vehicles per hour, the clearance is always zero |
| `RoadLogic.CountCanGoNegative` | road.py:56-61 | a green road with capacity 7200 and count 0 ends at -2: the count is not clamped |
| `RoadLogic.EmergencyStep` | road.py:70-82 | a window opens, with the flag set and start `now`, exactly when none is open and the draw is below 0.005; a window opened in a call stays open in that call; an open window closes exactly when it is strictly older than 5 s; a window still open afterwards is at most 5 s old |
| `RoadLogic.NewRoad` | road.py:14-19 | a new road has its green time from the formula, is red and has no emergency flag or window |
| `RoadLogic.Update` | road.py:45-82 | the fast refresh keeps the static parameters and the light, applies the demand step and the emergency step, and leaves the green time matching the new count |
| `RoadLogic.CamUpdate` | road.py:90-93 | the detector reading sets the count and the flag; the green time, the window start and the light are unchanged |
| `RoadLogic.CameraLeavesGreenTimeStale` | road.py:90-93 | a reading that changes the count leaves the green time out of step with it |
| `RoadLogic.WindowExpiryClearsDetectorFlag` | road.py:70-93 | a detector flag on a road with no window opens none, and a synthetic window opened later on that road resets the flag to false once it is more than 5 s old |
| `Roads.Road.constructor` | road.py:7-19 | the new road object has the state given by `NewRoad` |
| `Roads.Road.TurnRed` | road.py:37-39 | the light is red and no other field changes: the view becomes `RoadLogic.TurnRed` of the old view |
| `Roads.Road.TurnGreen` | road.py:41-43 | the light is green and no other field changes: the view becomes `RoadLogic.TurnGreen` of the old view |
| `Roads.Road.Update` | road.py:45-82 | the object's new state is `RoadLogic.Update` of its old state, and the green time matches the new count |
| `Roads.Road.CamUpdate` | road.py:84-93 | the count and flag equal the reading, and the rest of the state is unchanged |
| `Scheduler.Initial` | main.py:8-23 | the four configured roads, with Road 1 active, start time `now` and no refresh timestamps; every road's green time matches its count, no road is green, and no road has an emergency flag or window (so the window bound holds) |
| `Scheduler.Next` | main.py:13-16 | the successor of road `i` is `(i + 1) mod n` |
| `Scheduler.Walk` | main.py:13-16 | following `next` any number of times stays inside the ring |
| `Scheduler.RingCloses` | main.py:13-16 | following `next` n times from any road returns to that road |
| `Scheduler.RingReachesAll` | main.py:13-16 | every road is reached from every road in fewer than n steps |
| `Scheduler.FirstFlagged` | main.py:45-54 | over the roads' emergency flags in list order, the scan result is the first flagged index, with no flag before it, or none when no road is flagged |
| `Scheduler.StartTimers` | main.py:29-34 | the refresh timestamps are set to `now` only when they are unset |
| `Scheduler.Switch` | main.py:48-52 | the old active road turns red and the new one becomes active and green, with the phase restarted; nothing else changes; if only the active road was allowed green before, exactly one road is green after |
| `Scheduler.Rotate` | main.py:37-42 | rotation happens only when `now - start_time` is strictly greater than the active road's green time; it moves to the ring successor and restarts the phase, and otherwise the state is unchanged |
| `Scheduler.Preempt` | main.py:45-54 | the first flagged road in list order becomes active; nothing changes when no road is flagged or the first flagged road is already active, even if later roads are flagged; any change restarts the phase |
| `Scheduler.UpdateAll` | main.py:59-60 | each road becomes its own `RoadLogic.Update` with its own draws; hence each keeps its light and setup, its green time matches its new count, and any window still open is at most 5 s old |
| `Scheduler.CamUpdateAll` | main.py:78-79 | each road becomes its own `RoadLogic.CamUpdate` with its own reading; hence its count and flag come from the reading and its green time, window start, light and setup are kept |
| `Scheduler.FastRefresh` | main.py:57-62 | the fast refresh runs only when more than 1 s has passed; then the roads are `UpdateAll` of the old ones, every green time matches its count, every open window is at most 5 s old, and the timestamp is `now`; otherwise nothing changes; the lights, the active road and the phase clock never change |
| `Scheduler.SlowRefresh` | main.py:76-81 | the slow refresh runs only when more than 10 s has passed; then the roads are `CamUpdateAll` of the old ones, every count and flag equal the reading, and the timestamp is `now`; otherwise nothing changes; green times, window starts, lights and setup never change |
| `Scheduler.Signals` | main.py:29-54 | the timers are started, the rotation check runs and then the preemption scan; only lights change among the roads |
| `Scheduler.Step` | main.py:26-81 | one loop iteration keeps the state well formed and the number of roads unchanged |
| `SchedulerProperties.StepKeepsOthersRed` | main.py:36-81 | each iteration keeps every road other than the active one red |
| `SchedulerProperties.StepKeepsOneGreen` | main.py:36-81 | once exactly one road, the active one, is green, every iteration keeps it so |
| `SchedulerProperties.SwitchMakesOneGreen` | main.py:37-54 | an iteration whose rotation or preemption switches roads (its signal phase differs from the timer start alone) keeps the phase start of the signal phase and leaves exactly one road green |
| `SchedulerProperties.StepActive` | main.py:37-54 | after an iteration the first flagged road is active, whatever the phase clock says; with no flagged road the active road is the ring successor if the phase timed out, and otherwise unchanged |
| `SchedulerProperties.FirstIterationSkipsRefresh` | main.py:29-81 | the first iteration sets both timestamps to `now` and runs neither refresh |
| `SchedulerProperties.FastRefreshTracks` | main.py:57-62 | after an iteration with only the fast refresh, every road's green time matches its count |
| `SchedulerProperties.BothRefreshesLeaveStaleGreenTime` | main.py:57-81 | when both refreshes run and the detector count differs from the synthetic one, that road's green time is stale |
| `SchedulerProperties.StepKeepsSetup` | main.py:36-81 | no iteration changes a road's capacity, total time or arrival rate |
| `SchedulerProperties.StepBoundsWindows` | main.py:57-62 | after an iteration whose fast refresh runs, the refresh timestamp is `now` and every open emergency window is at most 5 s old |
| `SchedulerProperties.StepKeepsWindowsBounded` | main.py:19-81 | every iteration keeps each open window at most 5 s older than the last fast refresh (the initial state has none, `Initial`) |
| `SchedulerProperties.ConfiguredRoadsNeverClear` | main.py:8-11 | none of the four configured roads ever clears a vehicle while green |
| `SchedulerProperties.ScenarioRoad` | road.py:67 | a scenario road with capacity 300 and total time 300 has a green time in seconds equal to its count, matching the formula |
| `SchedulerProperties.ScenarioRotates` | main.py:37-42 | with counts (and green times) 40, 60, 70 and 30 and Road 1 active from time 0, the iteration at 41 s makes Road 2 the one green road |
| `SchedulerProperties.ScenarioKeepsPhase` | main.py:37-62 | in that iteration Road 2's phase starts at 41 s and its green time stays 60 s through the fast refresh |
| `SchedulerProperties.RotateThenPreempt` | main.py:37-54 | in that scenario the iteration at 42 s finds Road 2's phase not timed out, and an emergency raised on Road 4 before it makes Road 4 active and green and turns Road 2 red |
| `Controllers.Controller.constructor` | main.py:8-23 | the controller starts in the state `Scheduler.Initial(now)`, with Road 1 active and no road green |
| `Controllers.Controller.StartTimers` | main.py:29-34 | the object's new state is `Scheduler.StartTimers` of the old one |
| `Controllers.Controller.SwitchTo` | main.py:48-52 | the object's new state is `Scheduler.Switch` of the old one |
| `Controllers.Controller.Rotate` | main.py:37-42 | the object's new state is `Scheduler.Rotate` of the old one |
| `Controllers.Controller.Preempt` | main.py:45-54 | the scan loop with its early exit yields `Scheduler.Preempt` of the old state |
| `Controllers.Controller.RefreshRoads` | main.py:59-61 | the loop over the roads yields `Scheduler.UpdateAll` of the old roads and changes nothing else |
| `Controllers.Controller.RefreshCameras` | main.py:78-80 | the loop over the roads yields `Scheduler.CamUpdateAll` of the old roads and changes nothing else |
| `Controllers.Controller.FastRefresh` | main.py:57-62 | the object's new state is `Scheduler.FastRefresh` of the old one |
| `Controllers.Controller.SlowRefresh` | main.py:76-81 | the object's new state is `Scheduler.SlowRefresh` of the old one |
| `Controllers.Controller.Step` | main.py:26-81 | one iteration keeps the invariant (distinct roads, every non-active road red) and yields `Scheduler.Step` of the old state |

## Left out

- The road store (database.py) is not modelled as SQL. The columns are fields of `Road`, and the one-column getters and setters (road.py:21-35) are field reads and writes. Column type affinity is not modelled either: the green time column is declared INTEGER but is given a float.
- The detector (detection.py) is not modelled: it is video I/O and an object-detection model. Its result is the `Reading` parameter of the slow refresh. Its `(0, False)` fallback is just one possible reading.
- Random numbers are not modelled as distributions. Each draw is a parameter restricted to its range.
- Wall-clock time is the parameter `now`. Every clock read within one loop iteration, including the two inside `update` (road.py:74, road.py:78), is taken to be the same instant. So the elapsed time checked in the `update` call that opens a window is exactly 0.
- Floating point is modelled as exact `real` arithmetic, so IEEE rounding of the green-time formula and of the draws is not captured.
- The endless `while True` loop, process start-up and every `print` are left out. One iteration is `Step`, and the invariants are proved for one step at a time.
- The `next` attribute of each road (road.py:12, main.py:13-16) is modelled as the successor index `Scheduler.Next` over the road array, not as an object reference.
- `name` and `filePath` are stored on `Road` but play no part in the model. The source uses them only for printing and as the detector argument.
- RoadLogic.GreenTime: requires a non-zero capacity. With zero capacity the source raises ZeroDivisionError, and that exception is not modelled.
