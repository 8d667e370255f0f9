/** The animation loop: one iteration per tick, a spawn evaluation on every
    `spawnDelay`-th tick, and a `long` tick counter that wraps to 0. */
module Clock {
  import opened JavaNumbers
  import opened Population

  /** The largest `long` plus one: the period of the tick counter. */
  const TICK_PERIOD: int := MAX_LONG + 1

  /** The tick counter after one iteration: one more, or 0 after `Long.MAX_VALUE`. */
  function NextTick(t: int64): (r: int64)
    ensures 0 <= t ==> 0 <= r
    ensures r != t
  {
    if t as int == MAX_LONG then 0 else t + 1
  }

  /** From a tick in range the next one is in range too: the counter counts
      modulo 2^63 and never goes negative or overflows. */
  lemma NextTickCountsModulo(t: int64)
    requires 0 <= t
    ensures 0 <= NextTick(t)
    ensures NextTick(t) as int == (t as int + 1) % TICK_PERIOD
    ensures t as int < MAX_LONG ==> NextTick(t) as int == t as int + 1
    ensures t as int == MAX_LONG ==> NextTick(t) == 0
  {
    if t as int == MAX_LONG {
      ModUnique(t as int + 1, TICK_PERIOD, 1, 0);
    } else {
      ModUnique(t as int + 1, TICK_PERIOD, 0, t as int + 1);
    }
  }

  /** `tickCount % spawnDelay == 0`, with Java's remainder. */
  predicate SpawnDue(tick: int64, spawnDelay: int32)
    requires spawnDelay != 0
    ensures SpawnDue(tick, spawnDelay) <==> tick as int % Abs(spawnDelay as int) == 0
  {
    JavaRem(tick as int, spawnDelay as int) == 0
  }

  /** `Thread.sleep((long) tickTime)` rejects a negative argument with an
      `IllegalArgumentException`. */
  predicate SleepThrows(tickTime: real)
  {
    TruncateReal(tickTime) < 0
  }

  /** What the loop sees of the world in one iteration: the map's vehicle count
      and the value `Math.random()` would return. */
  datatype Observation = Observation(vehicleCount: int32, coin: real)

  /** The loop's state: the controller's counters, the loop-local tick counter
      and the spawn requests dispatched to the map so far. */
  datatype LoopState = LoopState(counters: Counters, tick: int64, requests: seq<Decision>)

  /** How the loop ended: interrupted after the iterations it was given, or
      ended by an exception the loop does not catch (`ArithmeticException` from
      a remainder by a zero spawn delay, `IllegalArgumentException` from a
      negative sleep). */
  datatype RunResult = Interrupted(final: LoopState) | Crashed(final: LoopState)

  /** One iteration of the loop body, from the interrupt check to the tick update. */
  function Iteration(s: Settings, st: LoopState, o: Observation): (next: LoopState)
    requires s.spawnDelay != 0
    ensures next.tick == NextTick(st.tick)
    ensures |next.requests| == |st.requests| + 1 && next.requests[..|st.requests|] == st.requests
    ensures next.counters.ambulances == st.counters.ambulances
    ensures !SpawnDue(st.tick, s.spawnDelay) ==>
      next.requests[|st.requests|] == NoSpawn && next.counters == st.counters
    ensures SpawnDue(st.tick, s.spawnDelay) ==>
      next.requests[|st.requests|] == Decide(st.counters, s, o.vehicleCount, o.coin) &&
      next.counters == Spawn(st.counters, next.requests[|st.requests|])
  {
    var d := if SpawnDue(st.tick, s.spawnDelay) then Decide(st.counters, s, o.vehicleCount, o.coin) else NoSpawn;
    LoopState(Spawn(st.counters, d), NextTick(st.tick), st.requests + [d])
  }

  /** The loop run from `st` for as many iterations as there are observations,
      unless an exception ends it first. */
  function RunFrom(s: Settings, st: LoopState, obs: seq<Observation>): (r: RunResult)
    ensures r.final.counters.ambulances == st.counters.ambulances
    ensures |st.requests| <= |r.final.requests| <= |st.requests| + |obs|
    ensures r.final.requests[..|st.requests|] == st.requests
    decreases |obs|
  {
    if obs == [] then Interrupted(st)
    else if s.spawnDelay == 0 then Crashed(st)
    else
      var next := Iteration(s, st, obs[0]);
      if SleepThrows(s.tickTime) then Crashed(next)
      else RunFrom(s, next, obs[1..])
  }

  /** A zero spawn delay ends the loop in its first iteration, before anything is spawned. */
  lemma ZeroDelayCrashes(s: Settings, st: LoopState, obs: seq<Observation>)
    requires s.spawnDelay == 0 && obs != []
    ensures RunFrom(s, st, obs) == Crashed(st)
  {
  }

  /** A tick time of -1 or less ends the loop at the sleep of its first
      iteration, after that iteration's spawn evaluation and tick update. */
  lemma NegativeSleepCrashes(s: Settings, st: LoopState, obs: seq<Observation>)
    requires s.spawnDelay != 0 && s.tickTime <= -1.0 && obs != []
    ensures RunFrom(s, st, obs) == Crashed(Iteration(s, st, obs[0]))
  {
  }

  /** With a non-zero spawn delay and a tick time above -1 the loop completes
      every iteration: the tick counter advances by the number of iterations
      modulo 2^63, one request (possibly `NoSpawn`) is recorded per iteration
      after the earlier ones, and the ambulance counter is not touched. */
  lemma {:induction false} RunTicks(s: Settings, st: LoopState, obs: seq<Observation>)
    requires s.spawnDelay != 0 && s.tickTime > -1.0 && 0 <= st.tick
    ensures RunFrom(s, st, obs).Interrupted?
    ensures var f := RunFrom(s, st, obs).final;
      && 0 <= f.tick
      && f.tick as int == (st.tick as int + |obs|) % TICK_PERIOD
      && |f.requests| == |st.requests| + |obs|
      && f.requests[..|st.requests|] == st.requests
      && f.counters.ambulances == st.counters.ambulances
    decreases |obs|
  {
    if obs == [] {
      ModUnique(st.tick as int, TICK_PERIOD, 0, st.tick as int);
    } else {
      var next := Iteration(s, st, obs[0]);
      NextTickCountsModulo(st.tick);
      RunTicks(s, next, obs[1..]);
      ModOfSum(st.tick as int + 1, |obs| - 1, TICK_PERIOD);
      var f := RunFrom(s, next, obs[1..]).final;
      assert f.requests[..|st.requests|] == f.requests[..|next.requests|][..|st.requests|];
    }
  }

  /** Iteration `k` of a run (counting from 0) asks for a spawn only when its
      tick is a multiple of the spawn delay. */
  lemma {:induction false} RunSpawnsOnlyWhenDue(s: Settings, st: LoopState, obs: seq<Observation>, k: nat)
    requires s.spawnDelay != 0 && s.tickTime > -1.0 && 0 <= st.tick && k < |obs|
    requires JavaRem((st.tick as int + k) % TICK_PERIOD, s.spawnDelay as int) != 0
    ensures var f := RunFrom(s, st, obs).final;
      |st.requests| + k < |f.requests| && f.requests[|st.requests| + k] == NoSpawn
    decreases |obs|
  {
    RunTicks(s, st, obs);
    var next := Iteration(s, st, obs[0]);
    NextTickCountsModulo(st.tick);
    RunTicks(s, next, obs[1..]);
    var f := RunFrom(s, next, obs[1..]).final;
    if k == 0 {
      ModUnique(st.tick as int, TICK_PERIOD, 0, st.tick as int);
      assert f.requests[|st.requests|] == f.requests[..|next.requests|][|st.requests|];
    } else {
      ModOfSum(st.tick as int + 1, k - 1, TICK_PERIOD);
      RunSpawnsOnlyWhenDue(s, next, obs[1..], k - 1);
    }
  }

  /** Iteration `k` of a run whose tick is a multiple of the spawn delay records
      the spawn rule's decision for the counters the first `k` iterations left
      and for what that iteration observes. */
  lemma {:induction false} RunSpawnsWhenDue(s: Settings, st: LoopState, obs: seq<Observation>, k: nat)
    requires s.spawnDelay != 0 && s.tickTime > -1.0 && 0 <= st.tick && k < |obs|
    requires JavaRem((st.tick as int + k) % TICK_PERIOD, s.spawnDelay as int) == 0
    ensures var f := RunFrom(s, st, obs).final;
      var before := RunFrom(s, st, obs[..k]).final;
      |st.requests| + k < |f.requests| &&
      f.requests[|st.requests| + k] == Decide(before.counters, s, obs[k].vehicleCount, obs[k].coin)
    decreases |obs|
  {
    RunTicks(s, st, obs);
    var next := Iteration(s, st, obs[0]);
    NextTickCountsModulo(st.tick);
    RunTicks(s, next, obs[1..]);
    var f := RunFrom(s, next, obs[1..]).final;
    if k == 0 {
      ModUnique(st.tick as int, TICK_PERIOD, 0, st.tick as int);
      assert obs[..k] == [];
      assert f.requests[|st.requests|] == f.requests[..|next.requests|][|st.requests|];
    } else {
      ModOfSum(st.tick as int + 1, k - 1, TICK_PERIOD);
      RunSpawnsWhenDue(s, next, obs[1..], k - 1);
      assert obs[..k][0] == obs[0] && obs[..k][1..] == obs[1..][..k - 1];
      assert obs[1..][k - 1] == obs[k];
    }
  }
}
