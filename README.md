# Traffic simulation core, modelled in Dafny

This project models the simulation engine of a small traffic simulator
written in Java. It has three independent, single-threaded parts, one Dafny
module each:

- `Intersection` (`intersection.dfy`) is the intersection checker
  `IntersectionNetwork`. The road has 3 lanes and 10 intersections, and
  only the first and third lanes have intersections. Each tracker holds a
  vehicle ID, a validated lane, an alternating interaction pattern, a
  cursor and an append-only activity log. `MoveThrough` passes, skips or
  fails at the next intersection. A failure still advances the cursor.
- `Signal` (`signal.dfy`) is `TrafficSignal`, a red → yellow → green
  cyclic machine with one positive duration per phase. It also holds the
  registry of every signal ever created.
- `Vehicles` (`vehicle.dfy`) is `Vehicle` with the speed constants of `Car`,
  `Truck` and `Bus` folded into `VehicleKind`. Each move adds the speed to
  the position and cycles the lane through 1, 2, 3. The second move reports
  a status snapshot.
- `Wrappers` (`wrappers.dfy`) holds `Option`, `Result` and `Outcome`. Java
  exceptions become these error values.

Each Java class whose fields change is a Dafny `class` with those fields.
`MoveThrough`, `Signal` and `Move` tie the new state to the pure
specification functions `Step`, `NextIndex` and `MoveSpec` of the old
state; the other mutating members state the new state directly. Lemmas about those functions and their iterates (`Run`,
`IndexAfter`, `Moves`) state what holds after `n` calls. A Java
constructor that throws becomes a Dafny constructor that assumes the
validated argument, plus a `Create` method that does the check and
returns a `Result`.

Java static state is passed in explicitly:
- The static `roadLayout` array is built by `NewRoadLayout` and handed to
  each tracker.
- The static `signals` list is a `SignalRegistry` object. The signal
  constructor appends the new signal to it, as the Java constructor does.
  `SignalRegistry.Listable` says every registered signal can be read by
  the listing. The registry constructor, the signal constructor and
  `Create` keep it, and `ShowTrafficSignal` requires it.

## Model

| member | source | states |
|---|---|---|
| `Intersection.NewRoadLayout` | comp9003/src/network/IntersectionNetwork.java:17-28 | the layout is 3 × 10, and a cell is 1 exactly on lanes 0 and 2 and 0 exactly on lane 1, at every index; the array is newly allocated |
| `Intersection.NewInteractionPattern` | comp9003/src/network/IntersectionNetwork.java:51-60 | the pattern has length 10 and is 1 exactly at even indices and 0 exactly at odd ones; the array is newly allocated, so no two trackers share one |
| `Intersection.Create` | comp9003/src/network/IntersectionNetwork.java:43-64 | construction fails with `IllegalLane` iff the lane is outside [0, 3); on success the tracker is fresh and valid, with cursor 0, an empty log and its own new pattern array |
| `Intersection.IntersectionNetwork.constructor` | comp9003/src/network/IntersectionNetwork.java:49-63 | for a valid lane, the tracker starts at cursor 0 with an empty log and the pattern and layout invariants hold |
| `Intersection.IntersectionNetwork.GetVehicleId` | comp9003/src/network/IntersectionNetwork.java:66-68 | returns the tracked vehicle's ID without changing anything |
| `Intersection.Step` | comp9003/src/network/IntersectionNetwork.java:74-102 | keeps lane, ID and 0 ≤ cursor ≤ 10, and the old log is a prefix of the new one. Before the end it advances the cursor by exactly 1 and appends exactly the expected entry. At the end the cursor stays and the completion entry is present, added at most once. It fails iff the expected entry is `NonExistent`, that is, the index is even and the lane has no intersection there; the error carries the 1-based intersection and lane |
| `Intersection.IntersectionNetwork.MoveThrough` | comp9003/src/network/IntersectionNetwork.java:74-102 | the new state and outcome are `Step` of the old state, including the failure path that advances the cursor once before throwing; the tracker stays valid |
| `Intersection.ExhaustedIsIdempotent` | comp9003/src/network/IntersectionNetwork.java:75-78 | once the cursor is 10, a call never fails and keeps the cursor, and a second call changes nothing |
| `Intersection.Run` | comp9003/src/network/IntersectionNetwork.java:74-102 | any number of calls keep the tracker reachable with the same lane and ID; the log only grows, the cursor never decreases, and there are at most as many failures as calls |
| `Intersection.RunFromCursor` | comp9003/src/network/IntersectionNetwork.java:84-101 | `n` calls from cursor `c` (with `c + n ≤ 10`) end at cursor `c + n` with the planned entries appended in order. The number of failures is the count of even indices in [c, c + n) on lane 1, and 0 on lanes 0 and 2 |
| `Intersection.FullPassage` | comp9003/src/network/IntersectionNetwork.java:135-156 | ten calls on a fresh tracker end at cursor 10 with one log entry per intersection and exactly 5 failures on lane 1 and none on lanes 0 and 2; log entry `i` records a failure iff the lane is 1 and `i` is even |
| `Intersection.PassAll` | comp9003/src/network/IntersectionNetwork.java:142-156 | the test driver loop that calls `MoveThrough` only while intersections remain and counts caught failures ends in the state and failure count of `Run` over the remaining intersections |
| `Signal.Create` | comp9003/src/signal/TrafficSignal.java:15-22 | fails with `InvalidSignalID` iff the ID is null or empty, and then leaves the registry unchanged. On success the signal is fresh and valid, at index 0 (red) with timers {10, 2, 15}, and appended exactly once at the end of the registry |
| `Signal.TrafficSignal.constructor` | comp9003/src/signal/TrafficSignal.java:15-22 | for a non-empty ID, the signal starts at index 0 with the default timers and appends itself to the registry |
| `Signal.NextIndex` | comp9003/src/signal/TrafficSignal.java:27-30 | the next index stays in [0, 3), is one more than the current index before the last phase, and wraps to 0 exactly from the last phase, so the order is red → yellow → green → red |
| `Signal.TrafficSignal.Signal` | comp9003/src/signal/TrafficSignal.java:27-30 | the index becomes `NextIndex` of the old index and the signal stays valid; it never fails |
| `Signal.IndexAfter` | comp9003/src/signal/TrafficSignal.java:27-30 | after any number of calls the index is in [0, 3) |
| `Signal.IndexAfterIsModulo` | comp9003/src/signal/TrafficSignal.java:27-30 | after `n` calls from construction the index is `n mod 3` |
| `Signal.ThreeSignalsReturnToRed` | comp9003/src/signal/TrafficSignal.java:10-30 | three calls return a new signal to "red" with the default duration 10 |
| `Signal.TrafficSignal.GetCurrentState` | comp9003/src/signal/TrafficSignal.java:43-45 | the result is "none" iff the index is negative, and otherwise the name of the current phase |
| `Signal.TrafficSignal.GetCurrentTimer` | comp9003/src/signal/TrafficSignal.java:47-49 | the result is the current phase's duration when the index is set, and 0 otherwise |
| `Signal.ConstructedSignalHasPhase` | comp9003/src/signal/TrafficSignal.java:43-49 | on a constructed signal the "none"/0 branch is unreachable: the state is a phase name and the timer is positive |
| `Signal.TrafficSignal.SetTimers` | comp9003/src/signal/TrafficSignal.java:51-58 | fails with `InvalidTimer` iff some argument is ≤ 0, and then leaves all three timers unchanged; otherwise sets the timers to exactly [red, yellow, green]; the phase index never changes |
| `Signal.TrafficSignal.GetSignalID` | comp9003/src/signal/TrafficSignal.java:60-62 | returns the signal's ID without changing anything |
| `Signal.SignalRegistry.constructor` | comp9003/src/signal/TrafficSignal.java:13 | the registry starts empty, so every registered signal is listable |
| `Signal.SignalRegistry.ShowTrafficSignal` | comp9003/src/signal/TrafficSignal.java:35-41 | one status line per registered signal, in registration order, each with the ID, the current state and the current timer, including the "none"/0 case; it requires only that the registry is listable |
| `Vehicles.Speed` | comp9003/src/vehicle/Car.java:8-11 | the speed per interval of each kind (Car 100 here; Truck 90 and Bus 80 at Truck.java:8-11 and Bus.java:8-11) is positive, so every move strictly advances the position |
| `Vehicles.VelocityIsWhole` | comp9003/src/vehicle/Vehicle.java:22-26 | each speed is a whole multiple of the 5-unit interval, so the velocity computed from it is a whole number and exact |
| `Vehicles.Vehicle.constructor` | comp9003/src/vehicle/Vehicle.java:14-17 | a new vehicle is at position 0 in lane index 0 (lane 1) with move count 0 and velocity speed / 5 |
| `Vehicles.Vehicle.CalculateVelocity` | comp9003/src/vehicle/Vehicle.java:22-26 | stores and returns a velocity that, times the 5-unit interval, is the vehicle's speed; nothing else changes |
| `Vehicles.MoveSpec` | comp9003/src/vehicle/Vehicle.java:28-37 | one move adds 1 to the move count and the speed to the position, and sets velocity × interval = speed. The lane label goes 1 → 2 → 3 → 1. A snapshot is reported iff this is the second move, and it shows the lane from before the lane change with the new position and velocity |
| `Vehicles.Vehicle.Move` | comp9003/src/vehicle/Vehicle.java:28-37 | the new state and the reported snapshot are `MoveSpec` of the old state; there is no failure outcome |
| `Vehicles.Vehicle.ChangeLane` | comp9003/src/vehicle/Vehicle.java:39-42 | the lane label advances cyclically 1 → 2 → 3 → 1; nothing else changes |
| `Vehicles.Moves` | comp9003/src/vehicle/Vehicle.java:28-42 | after any number of moves the lane index is in range |
| `Vehicles.MovesFromStart` | comp9003/src/vehicle/Vehicle.java:28-42 | after `n` moves the position is `n × speed`, the lane index is `n mod 3`, the move count is `n` and the velocity is speed / 5. Exactly one snapshot has been reported once `n ≥ 2`, none before, and it shows lane 2 and position `2 × speed` |
| `Vehicles.CarAfterThreeMoves` | comp9003/src/vehicle/Vehicle.java:22-42 | a car (speed 100) after three moves is at position 300 with velocity 20, back in lane 1 |
| `Vehicles.Vehicle.TrafficState` | comp9003/src/vehicle/Vehicle.java:44-52 | the snapshot reports the ID, the 1-based lane, the position and the velocity without changing anything |
| `Vehicles.Vehicle.GetCurrentLane` | comp9003/src/vehicle/Vehicle.java:58-60 | the lane label is in 1..3 and is the lane index plus one |
| `Vehicles.Vehicle.GetVehicleID` | comp9003/src/vehicle/Vehicle.java:54-56 | returns the vehicle's ID without changing anything |
| `Vehicles.Vehicle.GetCurrentPosition` | comp9003/src/vehicle/Vehicle.java:62-64 | returns the position of the vehicle's current motion state without changing anything |

## Left out

- Console output is not modelled: `showIntersectionStatus`, `showTrafficSignal` and `showTrafficState`. The listing, the snapshot and the log are returned as values (`SignalStatus`, `Snapshot`, `LogEntry`), not as formatted strings. Log entries keep 0-based index and lane; the 1-based rendering is left to the text.
- `LogEntry` leaves out the vehicle ID that prefixes every log line. All entries of one tracker share that ID, so the completion check `statusLog.contains(endMsg)` is modelled as `AllProcessed in statusLog`.
- The menu in `comp9003/src/Main.java` and its 60-step `runSimulation` loop are not modelled; they only call into the core. The `main` test drivers of `IntersectionNetwork` and `TrafficSignal` print and are left out. `PassAll` keeps only the per-tracker loop of the intersection driver.
- IEEE double rounding in `Vehicle` is not modelled. Position and velocity are exact reals. Every speed divides exactly by the interval 5.0, so `velocity × 5 == speed` holds exactly.
- Java `int` overflow is not modelled. `moveCount` is a `nat`, and the timers and indices are unbounded integers.
- A null vehicle ID for `IntersectionNetwork` and `Vehicle` is not modelled; those constructors never check it. A null signal ID is modelled as `None`.
- The comments on `signal()` and in `TrafficSignal.main` say that a fourth call throws. The code never throws there, so no such failure is modelled.
- The exception classes are the constructors of `IllegalLane`, `InvalidIntersection` and `SignalError`, without message text. `SimulationException`, declared on `move()`, is not part of this model; `move()` never throws it.
- The `states` array of `TrafficSignal` is never written, so it is the module constant `States`.
- `timeInterval` is never written, so it is the constant `TimeInterval`.
- Registry removal does not exist in the source, and the model has none. `SignalRegistry.signals` changes only in the signal constructor, by one append.
