/** The population bookkeeping of the simulation controller: which vehicle a
    spawn evaluation asks the map for, how the truck, reckless and ambulance
    counters move with spawns and removals, and why they keep matching the
    live fleet. */
module Population {
  import opened JavaNumbers
  import opened Vehicles

  /** The controller's counters: `truckCount`, `recklessCount`, `ambulanceCount`. */
  datatype Counters = Counters(trucks: int32, riskyCars: int32, ambulances: int32)

  /** The simulation parameters, doubles taken as reals. */
  datatype Settings = Settings(
    tickTime: real,
    spawnDelay: int32,
    maxCars: int32,
    maxCarSpeed: int32,
    carTruckRatio: real,
    recklessNormalRatio: real)

  /** What one spawn evaluation asks the map to spawn. */
  datatype Decision = NoSpawn | SpawnTruck | SpawnCar(behaviour: Behaviour)

  const DEFAULT_SETTINGS := Settings(50.0, 25, 25, 50, 0.7, 0.3)

  /** Share of the non-cautious cars that get the semi behaviour. */
  const SEMI_SHARE: real := 0.3

  /** No ambulance is spawned while this many have been counted. */
  const MAX_AMBULANCES: int32 := 5

  const NO_VEHICLES := Counters(0, 0, 0)

  /** Fewer trucks than the car/truck ratio asks for, among `vehicleCount` vehicles. */
  predicate TruckDeficit(c: Counters, s: Settings, vehicleCount: int32)
  {
    (c.trucks as real) < (1.0 - s.carTruckRatio) * (vehicleCount as real)
  }

  /** Fewer semi and reckless cars than the reckless/normal ratio asks for. */
  predicate RiskyDeficit(c: Counters, s: Settings, vehicleCount: int32)
  {
    (c.riskyCars as real) < s.recklessNormalRatio * (vehicleCount as real)
  }

  /** The spawn rule: at most one vehicle, chosen by the cap, then the truck
      deficit, then the reckless deficit, and a cautious car otherwise.
      `coin` is the uniform random draw that picks semi over reckless. */
  function Decide(c: Counters, s: Settings, vehicleCount: int32, coin: real): (d: Decision)
    ensures d == NoSpawn <==> vehicleCount >= s.maxCars
    ensures d == SpawnTruck <==> vehicleCount < s.maxCars && TruckDeficit(c, s, vehicleCount)
    ensures d.SpawnCar? && d.behaviour != Cautious <==>
      vehicleCount < s.maxCars && !TruckDeficit(c, s, vehicleCount) && RiskyDeficit(c, s, vehicleCount)
    ensures d == SpawnCar(Cautious) <==>
      vehicleCount < s.maxCars && !TruckDeficit(c, s, vehicleCount) && !RiskyDeficit(c, s, vehicleCount)
    ensures d.SpawnCar? && d.behaviour != Cautious ==> (d.behaviour == Semi <==> coin < SEMI_SHARE)
  {
    if vehicleCount >= s.maxCars then NoSpawn
    else if TruckDeficit(c, s, vehicleCount) then SpawnTruck
    else if RiskyDeficit(c, s, vehicleCount) then SpawnCar(if coin < SEMI_SHARE then Semi else Reckless)
    else SpawnCar(Cautious)
  }

  /** The counters once a decision has been dispatched: they are bumped at once,
      before the map has spawned anything. */
  function Spawn(c: Counters, d: Decision): (r: Counters)
    ensures r.ambulances == c.ambulances
    ensures r == c <==> d == NoSpawn || d == SpawnCar(Cautious)
  {
    match d
    case NoSpawn => c
    case SpawnTruck => c.(trucks := Inc32(c.trucks))
    case SpawnCar(b) => if b == Cautious then c else c.(riskyCars := Inc32(c.riskyCars))
  }

  /** The counters after `spawnAmbulance`. */
  function AddAmbulance(c: Counters): (r: Counters)
    ensures r.trucks == c.trucks && r.riskyCars == c.riskyCars
    ensures c.ambulances < MAX_AMBULANCES ==> r.ambulances == c.ambulances + 1
    ensures c.ambulances >= MAX_AMBULANCES ==> r == c
    ensures r.ambulances <= if c.ambulances < MAX_AMBULANCES then MAX_AMBULANCES else c.ambulances
  {
    if c.ambulances < MAX_AMBULANCES then c.(ambulances := c.ambulances + 1) else c
  }

  /** The counters after `n` calls of `spawnAmbulance` in a row. */
  function AmbulanceCalls(c: Counters, n: nat): (r: Counters)
    ensures r.trucks == c.trucks && r.riskyCars == c.riskyCars
    ensures c.ambulances <= MAX_AMBULANCES ==> r.ambulances <= MAX_AMBULANCES
    ensures c.ambulances <= r.ambulances
  {
    if n == 0 then c else AddAmbulance(AmbulanceCalls(c, n - 1))
  }

  /** The counters after `removeVehicle(v)`: the three type tests are independent. */
  function Removed(c: Counters, v: Vehicle): (r: Counters)
    ensures r == c <==> TallyOf(v) == Tally(0, 0, 0)
    ensures v.kind != Emergency ==> r.ambulances == c.ambulances
    ensures v.kind != Truck ==> r.trucks == c.trucks
    ensures !IsRiskyCar(v) ==> r.riskyCars == c.riskyCars
    ensures v.kind == Truck ==> r.trucks == Dec32(c.trucks)
    ensures IsRiskyCar(v) ==> r.riskyCars == Dec32(c.riskyCars)
    ensures v.kind == Emergency ==> r.ambulances == Dec32(c.ambulances)
  {
    Counters(
      if v.kind == Truck then Dec32(c.trucks) else c.trucks,
      if IsRiskyCar(v) then Dec32(c.riskyCars) else c.riskyCars,
      if v.kind == Emergency then Dec32(c.ambulances) else c.ambulances)
  }

  /** The counters agree with the live counts of a fleet. */
  predicate Mirrors(c: Counters, t: Tally)
  {
    c.trucks as int == t.trucks && c.riskyCars as int == t.riskyCars && c.ambulances as int == t.ambulances
  }

  /** `v` is a vehicle the map may spawn for decision `d`. The behaviour of a
      spawned truck is the map's choice. */
  predicate Realises(d: Decision, v: Vehicle)
  {
    match d
    case NoSpawn => false
    case SpawnTruck => v.kind == Truck
    case SpawnCar(b) => v == Vehicle(Car, b)
  }

  // ---- The spawn rule ----

  /** With no vehicles and all counters at zero, both deficit tests compare
      against zero and fail, so the first vehicle is a cautious car, whatever
      the ratios. */
  lemma FirstSpawnIsCautious(s: Settings, coin: real)
    requires 0 < s.maxCars
    ensures Decide(NO_VEHICLES, s, 0, coin) == SpawnCar(Cautious)
    ensures Spawn(NO_VEHICLES, Decide(NO_VEHICLES, s, 0, coin)) == NO_VEHICLES
  {
  }

  /** A spawn decision changes exactly the counter of what it spawns, by one
      (with Java's wrap-around), and nothing when it spawns nothing or a cautious car. */
  lemma SpawnMovesOneCounter(c: Counters, s: Settings, vehicleCount: int32, coin: real)
    ensures var d := Decide(c, s, vehicleCount, coin);
      var r := Spawn(c, d);
      && r.ambulances == c.ambulances
      && (d == SpawnTruck ==> r.trucks == Inc32(c.trucks) && r.riskyCars == c.riskyCars)
      && (d.SpawnCar? && d.behaviour != Cautious ==> r.riskyCars == Inc32(c.riskyCars) && r.trucks == c.trucks)
      && (d == NoSpawn || d == SpawnCar(Cautious) ==> r == c)
  {
  }

  /** A count below a share (between 0 and 1) of `n` is below `n`. */
  lemma BelowShareIsBelow(count: int32, share: real, n: int32)
    requires 0.0 <= share <= 1.0 && 0 <= n
    requires (count as real) < share * (n as real)
    ensures count < n
  {
    var m, rest := n as real, 1.0 - share;
    assert 0.0 <= rest * m;
    assert share * m <= m by {
      assert m - share * m == rest * m;
    }
  }

  /** With ratios between 0 and 1, a counter bumped by a spawn cannot be at
      Java's largest int, so the bump is a plain +1. */
  lemma SaneRatiosDoNotWrap(c: Counters, s: Settings, vehicleCount: int32, coin: real)
    requires 0.0 <= s.carTruckRatio <= 1.0 && 0.0 <= s.recklessNormalRatio <= 1.0
    requires 0 <= vehicleCount
    ensures var r := Spawn(c, Decide(c, s, vehicleCount, coin));
      && r.trucks as int <= c.trucks as int + 1 && r.riskyCars as int <= c.riskyCars as int + 1
      && r.trucks as int >= c.trucks as int && r.riskyCars as int >= c.riskyCars as int
  {
    var d := Decide(c, s, vehicleCount, coin);
    if d == SpawnTruck {
      assert TruckDeficit(c, s, vehicleCount) && vehicleCount < s.maxCars;
      BelowShareIsBelow(c.trucks, 1.0 - s.carTruckRatio, vehicleCount);
    } else if d.SpawnCar? && d.behaviour != Cautious {
      assert RiskyDeficit(c, s, vehicleCount) && vehicleCount < s.maxCars;
      BelowShareIsBelow(c.riskyCars, s.recklessNormalRatio, vehicleCount);
    }
  }

  // ---- The ambulance cap ----

  /** From at most five, `n` calls leave exactly `min(5, start + n)` ambulances
      counted and the other counters alone. */
  lemma {:induction false} AmbulanceCap(c: Counters, n: nat)
    requires c.ambulances <= MAX_AMBULANCES
    ensures AmbulanceCalls(c, n).ambulances as int ==
      if c.ambulances as int + n <= MAX_AMBULANCES as int then c.ambulances as int + n else MAX_AMBULANCES as int
    ensures AmbulanceCalls(c, n).trucks == c.trucks && AmbulanceCalls(c, n).riskyCars == c.riskyCars
  {
    if n > 0 {
      AmbulanceCap(c, n - 1);
    }
  }

  /** Six calls from none: five ambulances, and the sixth call changes nothing. */
  lemma SixthAmbulanceIsDropped(c: Counters)
    requires c.ambulances == 0
    ensures AmbulanceCalls(c, 5).ambulances == MAX_AMBULANCES
    ensures AmbulanceCalls(c, 6) == AmbulanceCalls(c, 5)
  {
    AmbulanceCap(c, 5);
  }

  // ---- Counters and the live fleet ----

  /** Adding one vehicle to a fleet adds its own tally. */
  lemma {:induction false} CensusAddOne(fleet: seq<Vehicle>, v: Vehicle)
    ensures Census(fleet + [v]) == Plus(Census(fleet), TallyOf(v))
  {
    CensusAppend(fleet, [v]);
    assert [v][1..] == [];
  }

  /** A spawn request adds the tally of the vehicle it realises to matching counters. */
  lemma SpawnAddsTally(c: Counters, t: Tally, d: Decision, v: Vehicle)
    requires Mirrors(c, t) && Realises(d, v)
    requires c.trucks as int < MAX_INT && c.riskyCars as int < MAX_INT
    ensures Mirrors(Spawn(c, d), Plus(t, TallyOf(v)))
  {
  }

  /** A cautious car adds nothing to the counted sorts, and its spawn changes no counter. */
  lemma CautiousAddsNothing(c: Counters, t: Tally)
    requires Mirrors(c, t)
    ensures Mirrors(Spawn(c, SpawnCar(Cautious)), Plus(t, TallyOf(Vehicle(Car, Cautious))))
  {
  }

  /** An accepted ambulance request adds an ambulance's tally to matching counters. */
  lemma AmbulanceAddsTally(c: Counters, t: Tally, b: Behaviour)
    requires Mirrors(c, t) && c.ambulances < MAX_AMBULANCES
    ensures Mirrors(AddAmbulance(c), Plus(t, TallyOf(Vehicle(Emergency, b))))
  {
  }

  /** Removing a vehicle takes its tally off matching counters. */
  lemma RemovalSubtractsTally(c: Counters, t: Tally, v: Vehicle)
    requires Mirrors(c, Plus(t, TallyOf(v)))
    ensures Mirrors(Removed(c, v), t)
  {
  }

  /** A dispatched spawn keeps the counters equal to the live counts, once the
      map has added the vehicle (as long as no counter is at Java's largest int). */
  lemma {:induction false} SpawnKeepsCensus(c: Counters, fleet: seq<Vehicle>, d: Decision, v: Vehicle)
    requires Mirrors(c, Census(fleet))
    requires Realises(d, v)
    requires c.trucks as int < MAX_INT && c.riskyCars as int < MAX_INT
    ensures Mirrors(Spawn(c, d), Census(fleet + [v]))
  {
    CensusAddOne(fleet, v);
    SpawnAddsTally(c, Census(fleet), d, v);
  }

  /** A cautious car, or no spawn, leaves the counters matching the fleet. */
  lemma {:induction false} UncountedSpawnKeepsCensus(c: Counters, fleet: seq<Vehicle>)
    requires Mirrors(c, Census(fleet))
    ensures Mirrors(Spawn(c, NoSpawn), Census(fleet))
    ensures Mirrors(Spawn(c, SpawnCar(Cautious)), Census(fleet + [Vehicle(Car, Cautious)]))
  {
    CensusAddOne(fleet, Vehicle(Car, Cautious));
    CautiousAddsNothing(c, Census(fleet));
  }

  /** An accepted ambulance request keeps the counters equal to the live counts
      once the map has added the ambulance; a dropped one changes neither. */
  lemma {:induction false} AmbulanceKeepsCensus(c: Counters, fleet: seq<Vehicle>, b: Behaviour)
    requires Mirrors(c, Census(fleet))
    ensures c.ambulances < MAX_AMBULANCES ==>
      Mirrors(AddAmbulance(c), Census(fleet + [Vehicle(Emergency, b)]))
    ensures c.ambulances >= MAX_AMBULANCES ==> Mirrors(AddAmbulance(c), Census(fleet))
  {
    CensusAddOne(fleet, Vehicle(Emergency, b));
    if c.ambulances < MAX_AMBULANCES {
      AmbulanceAddsTally(c, Census(fleet), b);
    }
  }

  /** Removing a live vehicle lowers exactly its own counter, so the counters
      keep matching the fleet. */
  lemma {:induction false} RemovalKeepsCensus(c: Counters, fleet: seq<Vehicle>, i: nat)
    requires i < |fleet|
    requires Mirrors(c, Census(fleet))
    ensures Mirrors(Removed(c, fleet[i]), Census(fleet[..i] + fleet[i + 1..]))
  {
    CensusRemoveAt(fleet, i);
    RemovalSubtractsTally(c, Census(fleet[..i] + fleet[i + 1..]), fleet[i]);
  }

  /** Removing the vehicle a spawn request produced restores the counters. */
  lemma RemoveUndoesSpawn(c: Counters, d: Decision, v: Vehicle)
    requires Realises(d, v)
    ensures Removed(Spawn(c, d), v) == c
  {
    DecUndoesInc(c.trucks);
    DecUndoesInc(c.riskyCars);
  }

  /** Removing an ambulance that `spawnAmbulance` accepted restores the counters. */
  lemma RemoveUndoesAmbulance(c: Counters, b: Behaviour)
    requires c.ambulances < MAX_AMBULANCES
    ensures Removed(AddAmbulance(c), Vehicle(Emergency, b)) == c
  {
  }

  /** Reset counters match an empty fleet. */
  lemma ResetMatchesEmptyFleet()
    ensures Mirrors(NO_VEHICLES, Census([]))
  {
  }
}
