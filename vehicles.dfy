/** The vehicles the controller keeps count of. The source tells them apart by
    class (`Truck`, `EmergencyCar`, `Car`) and reads a behaviour from every
    vehicle; here the class is a tag and the behaviour a field. */
module Vehicles {

  datatype Behaviour = Cautious | Semi | Reckless

  datatype Kind = Car | Truck | Emergency

  datatype Vehicle = Vehicle(kind: Kind, behaviour: Behaviour)

  /** A car that is not cautious: one the reckless counter is about. */
  predicate IsRiskyCar(v: Vehicle)
  {
    v.kind == Car && (v.behaviour == Semi || v.behaviour == Reckless)
  }

  /** How many vehicles of each counted sort a fleet holds. */
  datatype Tally = Tally(trucks: nat, riskyCars: nat, ambulances: nat)

  function Plus(a: Tally, b: Tally): Tally
  {
    Tally(a.trucks + b.trucks, a.riskyCars + b.riskyCars, a.ambulances + b.ambulances)
  }

  function TallyOf(v: Vehicle): Tally
  {
    Tally(if v.kind == Truck then 1 else 0,
          if IsRiskyCar(v) then 1 else 0,
          if v.kind == Emergency then 1 else 0)
  }

  /** The live counts of trucks, risky cars and ambulances in a fleet. */
  function Census(fleet: seq<Vehicle>): Tally
  {
    if fleet == [] then Tally(0, 0, 0)
    else Plus(TallyOf(fleet[0]), Census(fleet[1..]))
  }

  /** No vehicle is counted under two sorts: the three counts together are at
      most the size of the fleet. */
  lemma {:induction false} CensusCountsEachOnce(fleet: seq<Vehicle>)
    ensures Census(fleet).trucks + Census(fleet).riskyCars + Census(fleet).ambulances <= |fleet|
  {
    if fleet != [] {
      CensusCountsEachOnce(fleet[1..]);
    }
  }

  /** Counting a fleet in two parts gives the count of the whole. */
  lemma {:induction false} CensusAppend(a: seq<Vehicle>, b: seq<Vehicle>)
    ensures Census(a + b) == Plus(Census(a), Census(b))
  {
    if a == [] {
      assert a + b == b;
    } else {
      assert (a + b)[1..] == a[1..] + b;
      CensusAppend(a[1..], b);
    }
  }

  /** Taking the vehicle at index `i` out of a fleet lowers exactly its own count by one. */
  lemma {:induction false} CensusRemoveAt(fleet: seq<Vehicle>, i: nat)
    requires i < |fleet|
    ensures Plus(Census(fleet[..i] + fleet[i + 1..]), TallyOf(fleet[i])) == Census(fleet)
  {
    var before, v, after := fleet[..i], fleet[i], fleet[i + 1..];
    assert fleet == before + ([v] + after);
    CensusAppend(before, [v] + after);
    assert ([v] + after)[1..] == after;
    CensusAppend(before, after);
  }
}
