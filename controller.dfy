/** The simulation controller: the simulation parameters, the population
    counters, the debug flag, and the operations that change them, with the
    animation loop as a method. */
module Controller {
  import opened JavaNumbers
  import opened Vehicles
  import opened Population
  import opened Clock

  class SimulationController {
    // simulation parameters
    var tickTime: real
    var spawnDelay: int32
    var maxCars: int32
    var maxCarSpeed: int32
    var carTruckRatio: real
    var recklessNormalRatio: real
    // population counters
    var recklessCount: int32
    var truckCount: int32
    var ambulanceCount: int32
    var debugFlag: bool

    function Counts(): Counters
      reads this
    {
      Counters(truckCount, recklessCount, ambulanceCount)
    }

    function Config(): Settings
      reads this
    {
      Settings(tickTime, spawnDelay, maxCars, maxCarSpeed, carTruckRatio, recklessNormalRatio)
    }

    constructor ()
      ensures Config() == DEFAULT_SETTINGS
      ensures Counts() == NO_VEHICLES && !debugFlag
    {
      tickTime, spawnDelay, maxCars, maxCarSpeed := 50.0, 25, 25, 50;
      carTruckRatio, recklessNormalRatio := 0.7, 0.3;
      recklessCount, truckCount, ambulanceCount := 0, 0, 0;
      debugFlag := false;
    }

    /** The counter part of a reset: the debug flag is cleared first, so the
        intersection paths are never shown again afterwards (`pathsShown`). */
    method ResetSimulation() returns (pathsShown: bool)
      modifies this`debugFlag, this`truckCount, this`recklessCount, this`ambulanceCount
      ensures Counts() == NO_VEHICLES && !debugFlag
      ensures !pathsShown
    {
      SetDebugFlag(false);
      truckCount := 0;
      recklessCount := 0;
      ambulanceCount := 0;
      pathsShown := false;
      if debugFlag {
        pathsShown := true;
      }
    }

    /** One spawn evaluation, on a tick where one is due: the decision goes to
        the map and the counters move at once. */
    method SpawnStep(vehicleCount: int32, coin: real) returns (d: Decision)
      modifies this`truckCount, this`recklessCount
      ensures d == Decide(old(Counts()), Config(), vehicleCount, coin)
      ensures Counts() == Spawn(old(Counts()), d)
    {
      d := NoSpawn;
      if vehicleCount < maxCars {
        if (truckCount as real) < (1.0 - carTruckRatio) * (vehicleCount as real) {
          d := SpawnTruck;
          truckCount := Inc32(truckCount);
        } else if (recklessCount as real) < recklessNormalRatio * (vehicleCount as real) {
          d := SpawnCar(if coin < SEMI_SHARE then Semi else Reckless);
          recklessCount := Inc32(recklessCount);
        } else {
          d := SpawnCar(Cautious);
        }
      }
    }

    /** The animation loop, run for one iteration per observation before it is
        interrupted. */
    method Run(obs: seq<Observation>) returns (result: RunResult)
      modifies this`truckCount, this`recklessCount
      ensures result == RunFrom(old(Config()), LoopState(old(Counts()), 0, []), obs)
      ensures Counts() == result.final.counters
    {
      var tickCount: int64 := 0;
      var requests: seq<Decision> := [];
      var i := 0;
      while i < |obs|
        invariant 0 <= i <= |obs|
        invariant 0 <= tickCount
        invariant Config() == old(Config())
        invariant RunFrom(Config(), LoopState(Counts(), tickCount, requests), obs[i..])
               == RunFrom(old(Config()), LoopState(old(Counts()), 0, []), obs)
      {
        if spawnDelay == 0 {
          // the remainder by zero throws, and the exception ends the thread
          return Crashed(LoopState(Counts(), tickCount, requests));
        }
        var d := NoSpawn;
        if JavaRem(tickCount as int, spawnDelay as int) == 0 {
          d := SpawnStep(obs[i].vehicleCount, obs[i].coin);
        }
        requests := requests + [d];
        NextTickCountsModulo(tickCount);
        tickCount := NextTick(tickCount);
        if TruncateReal(tickTime) < 0 {
          // `Thread.sleep` rejects a negative time, and the exception ends the thread
          return Crashed(LoopState(Counts(), tickCount, requests));
        }
        assert obs[i..][1..] == obs[i + 1..];
        i := i + 1;
      }
      result := Interrupted(LoopState(Counts(), tickCount, requests));
    }

    /** Removes a vehicle: each type test that holds lowers its own counter. */
    method RemoveVehicle(v: Vehicle)
      modifies this`truckCount, this`recklessCount, this`ambulanceCount
      ensures Counts() == Removed(old(Counts()), v)
    {
      if v.kind == Truck {
        truckCount := Dec32(truckCount);
      }
      if v.kind == Emergency {
        ambulanceCount := Dec32(ambulanceCount);
      }
      if v.kind == Car {
        if v.behaviour == Semi || v.behaviour == Reckless {
          recklessCount := Dec32(recklessCount);
        }
      }
    }

    /** Asks for an ambulance unless five are counted already. */
    method SpawnAmbulance()
      modifies this`ambulanceCount
      ensures Counts() == AddAmbulance(old(Counts()))
      ensures ambulanceCount <= MAX_AMBULANCES || ambulanceCount == old(ambulanceCount)
    {
      if ambulanceCount < MAX_AMBULANCES {
        ambulanceCount := ambulanceCount + 1;
      }
    }

    method IncTruckCount()
      modifies this`truckCount
      ensures truckCount == Inc32(old(truckCount))
    {
      truckCount := Inc32(truckCount);
    }

    /** Switches debug mode; a presentation toggle that changes nothing else. */
    method SetDebugFlag(flag: bool)
      modifies this`debugFlag
      ensures debugFlag == flag
    {
      debugFlag := flag;
    }

    method SetTickTime(value: real)
      modifies this`tickTime
      ensures Config() == old(Config()).(tickTime := value)
    {
      tickTime := value;
    }

    method SetSpawnRate(value: int32)
      modifies this`spawnDelay
      ensures Config() == old(Config()).(spawnDelay := value)
    {
      spawnDelay := value;
    }

    method SetMaxCars(value: int32)
      modifies this`maxCars
      ensures Config() == old(Config()).(maxCars := value)
    {
      maxCars := value;
    }

    method SetMaxCarSpeed(value: int32)
      modifies this`maxCarSpeed
      ensures Config() == old(Config()).(maxCarSpeed := value)
    {
      maxCarSpeed := value;
    }

    method SetCarTruckRatio(value: real)
      modifies this`carTruckRatio
      ensures Config() == old(Config()).(carTruckRatio := value)
    {
      carTruckRatio := value;
    }

    method SetRecklessNormalRatio(value: real)
      modifies this`recklessNormalRatio
      ensures Config() == old(Config()).(recklessNormalRatio := value)
    {
      recklessNormalRatio := value;
    }
  }
}
