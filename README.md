# Simulus simulation controller: population and tick bookkeeping

Simulus is a tile-based road-traffic simulator. Its `SimulationController`
runs an animation loop. On every `spawnDelay`-th tick the loop asks the map
for at most one new vehicle. The choice tries to reach a configured car/truck
ratio and a reckless/normal ratio, and stops at a maximum number of cars.
The controller also counts trucks, reckless-or-semi cars and ambulances. It
caps ambulance requests at five, lowers the right counter when a vehicle is
removed, and zeroes everything on reset.

This project models that bookkeeping in Dafny and proves its properties:

- `JavaNumbers` (`java_numbers.dfy`) covers Java `int` and `long`. It models
  the wrap-around of `++`/`--` and the truncating `%`.
- `Vehicles` (`vehicles.dfy`) has the vehicle kinds (car, truck, emergency
  car) and their behaviours (cautious, semi, reckless). Its census gives the
  live count of trucks, risky cars and ambulances in a fleet.
- `Population` (`population.dfy`) holds the spawn rule (`Decide`) and the
  counter updates for a spawn, an ambulance request and a removal. It also
  proves that the counters keep matching the census of the live fleet.
- `Clock` (`clock.dfy`) models one loop iteration and a whole run as pure
  functions. It proves how the tick counter wraps and when spawns can
  happen.
- `Controller` (`controller.dfy`) holds the class `SimulationController`.
  Its fields are the source's fields, and its methods update them in place.
  Each method is proved against the functions above. `Run` is the animation
  loop.

Inputs that the source reads from collaborators are parameters here. The
map's vehicle count and the value of `Math.random()` arrive once per
iteration, as an `Observation`. A run is given the iterations it performs
before it is interrupted.

Behaviours of the code that the model keeps and proves:

- Both deficit tests compare against `ratio * vehicleCount` with a strict
  `<`. With no vehicles on the map and all counters at zero, neither holds,
  so the first spawn is a cautious car (`FirstSpawnIsCautious`).
- `removeVehicle` checks nothing about the map. It lowers by one the counter
  of whatever vehicle it is given, with `int` wrap-around below the smallest
  value (`Removed`).
- Besides spawns and removals, the public `incTruckCount` also changes a
  counter (`IncTruckCount`).
- A spawn delay of 0 makes `tickCount % spawnDelay` throw an
  `ArithmeticException`. The loop catches only `InterruptedException`, so
  the exception ends the loop in its first iteration (`ZeroDelayCrashes`).
- A tick time of -1 or less makes `Thread.sleep((long) tickTime)` throw an
  `IllegalArgumentException`, which the loop does not catch either. The loop
  ends at the sleep of its first iteration, after that iteration's spawn
  evaluation (`NegativeSleepCrashes`).
- The ambulance cap is on the counter, not on the number of live
  ambulances. The two agree while the counters mirror the fleet
  (`AmbulanceKeepsCensus`).

## Model

| member | source | states |
|---|---|---|
| JavaNumbers.Inc32 | Simulus/src/com/simulus/controller/SimulationController.java:114 | `x++` on an `int`: one more, and the largest value wraps to the smallest |
| JavaNumbers.Dec32 | Simulus/src/com/simulus/controller/SimulationController.java:162 | `x--` on an `int`: one less, and the smallest value wraps to the largest |
| JavaNumbers.DecUndoesInc | Simulus/src/com/simulus/controller/SimulationController.java:159-171 | a decrement undoes an increment and the reverse, also across the wrap-around |
| JavaNumbers.JavaRem | Simulus/src/com/simulus/controller/SimulationController.java:109 | Java's `%`: its magnitude is below the divisor's, it has the dividend's sign, and it is zero exactly when the divisor divides the dividend |
| JavaNumbers.RemZeroExactlyAtMultiples | Simulus/src/com/simulus/controller/SimulationController.java:109 | in each block of `|spawnDelay|` consecutive ticks starting at a multiple, only the first tick has remainder zero |
| JavaNumbers.TruncateReal | Simulus/src/com/simulus/controller/SimulationController.java:135 | Java's `(long)` cast of a double: the result is the value truncated toward zero, and it is negative exactly when the double is at most -1 |
| Population.Decide | Simulus/src/com/simulus/controller/SimulationController.java:110-125 | nothing is spawned exactly when the map holds at least `maxCars` vehicles; a truck exactly when there is room and a truck deficit; a semi or reckless car exactly when there is room, no truck deficit and a reckless deficit, with semi exactly when the coin is below 0.3; otherwise a cautious car |
| Population.Spawn | Simulus/src/com/simulus/controller/SimulationController.java:112-123 | the counters once a decision is dispatched: `ambulanceCount` never moves, and the counters stay the same exactly when nothing or a cautious car is spawned |
| Population.FirstSpawnIsCautious | Simulus/src/com/simulus/controller/SimulationController.java:112-123 | with no vehicles and all counters at zero, the first spawn is a cautious car and no counter moves, whatever the ratios |
| Population.SpawnMovesOneCounter | Simulus/src/com/simulus/controller/SimulationController.java:112-123 | a truck bumps only `truckCount`, a semi or reckless car only `recklessCount`, and a cautious car or no spawn changes nothing; `ambulanceCount` never changes |
| Population.SaneRatiosDoNotWrap | Simulus/src/com/simulus/controller/SimulationController.java:112-121 | with both ratios between 0 and 1, a spawn raises each counter by 0 or 1 and never wraps |
| Population.AddAmbulance | Simulus/src/com/simulus/controller/SimulationController.java:177-182 | an ambulance request adds one while fewer than five are counted, changes nothing otherwise, never takes the count above five from below, and leaves the other counters alone |
| Population.AmbulanceCalls | Simulus/src/com/simulus/controller/SimulationController.java:177-182 | `n` ambulance requests in a row never lower the ambulance count, never take it above five from at most five, and leave the other counters alone |
| Population.AmbulanceCap | Simulus/src/com/simulus/controller/SimulationController.java:177-182 | from at most five, `n` requests in a row leave exactly `min(5, start + n)` ambulances counted |
| Population.SixthAmbulanceIsDropped | Simulus/src/com/simulus/controller/SimulationController.java:177-182 | from zero, five requests count five ambulances and a sixth request changes nothing |
| Population.CensusAddOne | Simulus/src/com/simulus/controller/SimulationController.java:109-125 | the census of a fleet grown by one vehicle adds that vehicle's own tally |
| Population.SpawnKeepsCensus | Simulus/src/com/simulus/controller/SimulationController.java:109-125 | when the counters match the live fleet, they still match after a dispatched spawn once the map adds the vehicle, barring a counter at the largest `int` |
| Population.UncountedSpawnKeepsCensus | Simulus/src/com/simulus/controller/SimulationController.java:123 | a cautious car or no spawn keeps the counters matching the fleet |
| Population.AmbulanceKeepsCensus | Simulus/src/com/simulus/controller/SimulationController.java:177-182 | an accepted ambulance request keeps the counters matching the fleet with the new ambulance; a dropped one keeps them matching the unchanged fleet |
| Population.RemovalKeepsCensus | Simulus/src/com/simulus/controller/SimulationController.java:159-171 | removing any live vehicle lowers exactly its own counter, so the counters keep matching the fleet |
| Population.RemoveUndoesSpawn | Simulus/src/com/simulus/controller/SimulationController.java:159-171 | removing the vehicle a spawn produced restores all three counters |
| Population.RemoveUndoesAmbulance | Simulus/src/com/simulus/controller/SimulationController.java:159-182 | removing an ambulance that was accepted restores all three counters |
| Population.ResetMatchesEmptyFleet | Simulus/src/com/simulus/controller/SimulationController.java:86-88 | zeroed counters match the census of an empty fleet |
| Population.Removed | Simulus/src/com/simulus/controller/SimulationController.java:159-171 | the counters after a removal: the counter of the vehicle's own sort goes down by one with `int` wrap-around (`Dec32`), the others keep their value, and the counters stay the same exactly when the vehicle is neither a truck, nor a semi or reckless car, nor an emergency car |
| Vehicles.CensusAppend | Simulus/src/com/simulus/controller/SimulationController.java:159-171 | counting a fleet in two parts gives the count of the whole |
| Vehicles.CensusRemoveAt | Simulus/src/com/simulus/controller/SimulationController.java:159-171 | taking one vehicle out of a fleet lowers exactly its own count by one |
| Vehicles.CensusCountsEachOnce | Simulus/src/com/simulus/controller/SimulationController.java:159-171 | the three live counts of a fleet together are at most its size: no vehicle is counted under two sorts |
| Clock.NextTick | Simulus/src/com/simulus/controller/SimulationController.java:132 | the tick update never makes a tick in range negative and always changes the tick |
| Clock.NextTickCountsModulo | Simulus/src/com/simulus/controller/SimulationController.java:132 | from a tick in `[0, Long.MAX_VALUE]` the next tick is in range again: one more, or 0 after `Long.MAX_VALUE`, which is counting modulo 2^63 |
| Clock.SpawnDue | Simulus/src/com/simulus/controller/SimulationController.java:109 | `tickCount % spawnDelay == 0` with Java's remainder holds exactly when the absolute spawn delay divides the tick |
| Clock.Iteration | Simulus/src/com/simulus/controller/SimulationController.java:104-132 | one iteration advances the tick, records exactly one request after the earlier ones and never touches `ambulanceCount`; on a due tick the request is `Decide` on the counters and observation and the counters become `Spawn` of it; on any other tick it records no spawn and changes no counter |
| Clock.RunFrom | Simulus/src/com/simulus/controller/SimulationController.java:103-139 | a run, however it ends, leaves `ambulanceCount` alone, keeps the earlier requests as a prefix and records at most one request per iteration |
| Clock.ZeroDelayCrashes | Simulus/src/com/simulus/controller/SimulationController.java:104-109 | with a zero spawn delay the loop ends in its first iteration, with nothing spawned |
| Clock.NegativeSleepCrashes | Simulus/src/com/simulus/controller/SimulationController.java:109-138 | with a non-zero spawn delay and a tick time of -1 or less the loop ends at the sleep of its first iteration, in the state that iteration left |
| Clock.RunTicks | Simulus/src/com/simulus/controller/SimulationController.java:103-139 | with a non-zero spawn delay and a tick time above -1 every iteration completes; the tick ends at start plus iterations modulo 2^63 and is never negative; one request per iteration is appended; `ambulanceCount` is untouched |
| Clock.RunSpawnsOnlyWhenDue | Simulus/src/com/simulus/controller/SimulationController.java:109-126 | an iteration whose tick is not a multiple of the spawn delay requests no spawn |
| Clock.RunSpawnsWhenDue | Simulus/src/com/simulus/controller/SimulationController.java:109-125 | an iteration whose tick is a multiple of the spawn delay requests what `Decide` gives for the counters the earlier iterations left and for that iteration's observation |
| Controller.SimulationController.constructor | Simulus/src/com/simulus/controller/SimulationController.java:27-36 | the defaults: 50 ms ticks, spawn delay 25, 25 cars, speed 50, ratios 0.7 and 0.3, zero counters, debug off |
| Controller.SimulationController.ResetSimulation | Simulus/src/com/simulus/controller/SimulationController.java:85-93 | all three counters are zero and the debug flag is off, so the intersection-path branch is never taken |
| Controller.SimulationController.SpawnStep | Simulus/src/com/simulus/controller/SimulationController.java:110-125 | the decision is `Decide` on the counters before the call, and the counters become `Spawn` of that decision |
| Controller.SimulationController.Run | Simulus/src/com/simulus/controller/SimulationController.java:102-139 | the loop's result, including an end by a zero spawn delay or a negative sleep, and the counters after it are those of `RunFrom` from tick 0 and the counters before the run |
| Controller.SimulationController.RemoveVehicle | Simulus/src/com/simulus/controller/SimulationController.java:159-171 | the counters become `Removed` of the old counters and the vehicle |
| Controller.SimulationController.SpawnAmbulance | Simulus/src/com/simulus/controller/SimulationController.java:177-182 | the counters become `AddAmbulance` of the old ones; the count ends at most five, or unchanged |
| Controller.SimulationController.IncTruckCount | Simulus/src/com/simulus/controller/SimulationController.java:292-294 | `truckCount` goes up by one, with `int` wrap-around, and nothing else changes |
| Controller.SimulationController.SetDebugFlag | Simulus/src/com/simulus/controller/SimulationController.java:197-198 | only the debug flag changes |
| Controller.SimulationController.SetTickTime | Simulus/src/com/simulus/controller/SimulationController.java:232-234 | only the tick time changes |
| Controller.SimulationController.SetSpawnRate | Simulus/src/com/simulus/controller/SimulationController.java:240-242 | only the spawn delay changes |
| Controller.SimulationController.SetMaxCars | Simulus/src/com/simulus/controller/SimulationController.java:248-250 | only the car cap changes |
| Controller.SimulationController.SetMaxCarSpeed | Simulus/src/com/simulus/controller/SimulationController.java:256-258 | only the maximum speed changes |
| Controller.SimulationController.SetCarTruckRatio | Simulus/src/com/simulus/controller/SimulationController.java:268-270 | only the car/truck ratio changes |
| Controller.SimulationController.SetRecklessNormalRatio | Simulus/src/com/simulus/controller/SimulationController.java:272-274 | only the reckless/normal ratio changes |

## Left out

- Decide: compares in exact real arithmetic. The source compares Java doubles (`(1 - carTruckRatio) * vehicleCount`, `Math.random() < 0.3`), so results can differ from the source when a product rounds across a counter value.
- Threading: `startSimulation`, `interrupt`, `isAlive`, the duration of `Thread.sleep` and the replacement of the animation thread are concurrency and timing. A run is given the number of iterations it performs before it is interrupted. The exception that a negative sleep time raises is modelled.
- Controller.SimulationController.Run: the run, like `Clock.RunFrom`, lets nothing else touch the controller between iterations. In the source, `removeVehicle`, `spawnAmbulance`, `incTruckCount`, `resetSimulation` and the setters run on other threads and can interleave with the loop; each of them is modelled as its own method, but their interleaving with a run is not.
- JavaNumbers.TruncateReal: does not model that `(long)` saturates at the ends of the `long` range and maps NaN to 0, because only the sign of the result matters to the loop and those values are not negative unless the double is at most -1.
- Deferred work: `Platform.runLater` hands spawns and `updateMap` to the UI thread. The model records the spawn requests in order (`LoopState.requests`) and does not model when the map carries them out.
- Vehicle count: the source calls `map.getVehicleCount()` up to three times per evaluation. The model reads it once per iteration, so it leaves out the map changing between those calls.
- Statistics sampling at line 106 is a floating-point test that only triggers a chart update. It has no effect on the bookkeeping.
- UI calls: `MainApp` button states, `resetCanvas`, `resetSettings`, `updateCharts`, and the ambulance-button re-enable in `removeVehicle`.
- Controller.SimulationController.ResetSimulation: keeps `Config()` unchanged. The source's documentation of `resetSimulation` (lines 68-71) says a reset also restores the settings to their defaults, which it does through the controls panel's `resetSettings` (line 84); that panel is not part of this model, so the model does not promise the six parameters are back at their defaults after a reset. With `reloadMap` false, lines 75-79 keep the map and its vehicles while lines 86-88 zero the counters, so `ResetMatchesEmptyFleet` restores the counters-match-fleet invariant only when the fleet really is empty.
- Debug rendering in `setDebugFlag`: intersection paths, area-of-effect opacity and lane redraws are presentation only. Only the flag is modelled.
- Map handling: the `reloadMap` branch of `resetSimulation`, `map.removeVehicle`, the map's spawn methods, `drawMap`, `setMap`/`getMap` and `setLastLoadedMap`/`getLastLoadedMap`. The `Map` class is not part of this model. A truck's behaviour is left to the map.
- Class hierarchy: the model treats car, truck and emergency car as disjoint kinds, because the `Vehicle` classes are not part of this model. If `EmergencyCar` or `Truck` were subclasses of `Car`, `removeVehicle` could also lower `recklessCount` for them.
- Singleton: `getInstance` and `init`. The model constructs the controller directly.
- Getters: `isDebug`, `getTickTime`, `getSpawnRate`, `getMaxCars`, `getMaxCarSpeed`, `getAmbulanceCount`, `getCarTruckRatio`, `getTruckCount`, `getRecklessNormalRatio` and `getRecklessCount` return a field. The model's fields are read directly. `getAnimationThread` belongs to threading.
