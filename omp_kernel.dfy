/**
 * The per-vehicle update kernel of the array prototype
 * (src/backends/omp_cpu.py): one pass over the vehicle slots of a lane
 * that accelerates each vehicle, brakes it for a short headway and at a red
 * signal, counts its stops and moves it toward the stop line. The source
 * runs the pass as a parallel loop; here it is a sequential loop, and the
 * independence of its iterations is proved instead.
 */
module OmpKernel {
  import opened PyMath

  /** One vehicle slot: position before the stop line, speed, stop count and whether it is held at the line. */
  datatype Agent = Agent(x: real, v: real, stops: int, atStopline: bool)

  /** The kernel's scalar arguments. */
  datatype KernelParams = KernelParams(dt: real, vMax: real, isGreen: bool, safeGap: real)

  /** The distance within which a vehicle holds at a red signal. */
  const StopZone: real := 5.0

  /** The acceleration the kernel applies, in m/s^2. */
  const Accel: real := 2.0

  /**
   * The braking quotient `(d_lead - safe_gap) / dt` is evaluated only for a
   * close leader; a zero `dt` there raises ZeroDivisionError, so the kernel
   * is defined for a slot exactly when that cannot happen.
   */
  predicate BrakeDefined(headway: real, p: KernelParams)
  {
    p.dt != 0.0 || headway >= 2.0 * p.safeGap
  }

  /** The speed the kernel gives a vehicle of speed `v` whose slot is given the distance `headway`. */
  function NewSpeed(a: Agent, headway: real, p: KernelParams): real
    requires BrakeDefined(headway, p)
  {
    var free := Min(a.v + Accel * p.dt, p.vMax);
    var braked := if headway < 2.0 * p.safeGap then Min(free, Max(0.0, (headway - p.safeGap) / p.dt)) else free;
    if !p.isGreen && a.x < StopZone then 0.0 else braked
  }

  /** Loop iteration `i` of `update_agents`, on slot `i` and `headway[i]` alone. */
  function UpdateAgent(a: Agent, headway: real, p: KernelParams): (r: Agent)
    requires BrakeDefined(headway, p)
    ensures r.v == NewSpeed(a, headway, p)
    ensures r.x == a.x - r.v * p.dt
  {
    var v' := NewSpeed(a, headway, p);
    var held := !p.isGreen && a.x < StopZone;
    var stops' := if held && !a.atStopline then a.stops + 1 else a.stops;
    Agent(a.x - v' * p.dt, v', stops', held)
  }

  /**
   * With a non-negative speed, speed limit and time step, the new speed
   * lies between 0 and the limit and exceeds the old one by at most the
   * acceleration over one step, and the vehicle never moves backward.
   */
  lemma SpeedBounds(a: Agent, headway: real, p: KernelParams)
    requires BrakeDefined(headway, p)
    requires a.v >= 0.0 && p.vMax >= 0.0 && p.dt >= 0.0
    ensures 0.0 <= UpdateAgent(a, headway, p).v <= p.vMax
    ensures UpdateAgent(a, headway, p).v <= a.v + Accel * p.dt
    ensures UpdateAgent(a, headway, p).x <= a.x
  {
    var r := UpdateAgent(a, headway, p);
    assert r.v * p.dt >= 0.0;
  }

  /**
   * Behind a leader closer than twice the safe gap, the new speed is at most
   * what closes the distance down to the safe gap in one step, so a vehicle
   * at or beyond the safe gap does not advance past it.
   */
  lemma LeaderBrake(a: Agent, headway: real, p: KernelParams)
    requires p.dt > 0.0 && headway < 2.0 * p.safeGap
    ensures UpdateAgent(a, headway, p).v <= Max(0.0, (headway - p.safeGap) / p.dt)
    ensures headway >= p.safeGap ==> UpdateAgent(a, headway, p).v * p.dt <= headway - p.safeGap
  {
    var r := UpdateAgent(a, headway, p);
    if headway >= p.safeGap {
      var q := (headway - p.safeGap) / p.dt;
      assert q * p.dt == headway - p.safeGap;
      assert 0.0 <= r.v <= q || r.v <= 0.0;
      if r.v >= 0.0 {
        assert r.v * p.dt <= q * p.dt;
      }
    }
  }

  /**
   * At a red signal within the stop zone the vehicle halts where it is and
   * is held at the line, and its stop count grows exactly when it was not
   * already held; anywhere else it is released and its stop count is kept.
   */
  lemma RedSignalHold(a: Agent, headway: real, p: KernelParams)
    requires BrakeDefined(headway, p)
    ensures var r := UpdateAgent(a, headway, p);
      if !p.isGreen && a.x < StopZone then
        r.v == 0.0 && r.x == a.x && r.atStopline && r.stops == (if a.atStopline then a.stops else a.stops + 1)
      else
        !r.atStopline && r.stops == a.stops
  {
  }

  /** A vehicle kept waiting at a red signal is counted as stopping once, not once per step. */
  lemma WaitCountedOnce(a: Agent, h1: real, h2: real, p: KernelParams)
    requires BrakeDefined(h1, p) && BrakeDefined(h2, p)
    requires !p.isGreen && a.x < StopZone
    ensures UpdateAgent(UpdateAgent(a, h1, p), h2, p).stops == UpdateAgent(a, h1, p).stops
    ensures UpdateAgent(UpdateAgent(a, h1, p), h2, p).stops <= a.stops + 1
  {
    RedSignalHold(a, h1, p);
    RedSignalHold(UpdateAgent(a, h1, p), h2, p);
  }

  /** Every slot's headway admits the braking quotient. */
  predicate AllDefined(hs: seq<real>, p: KernelParams)
  {
    forall i :: 0 <= i < |hs| ==> BrakeDefined(hs[i], p)
  }

  /** The whole pass, slot by slot: slot `i` becomes iteration `i`'s result. */
  function UpdateAll(agents: seq<Agent>, hs: seq<real>, p: KernelParams): (r: seq<Agent>)
    requires |hs| >= |agents| && AllDefined(hs, p)
    ensures |r| == |agents|
    ensures forall i :: 0 <= i < |r| ==> r[i] == UpdateAgent(agents[i], hs[i], p)
  {
    seq(|agents|, i requires 0 <= i < |agents| => UpdateAgent(agents[i], hs[i], p))
  }

  /** The iterations carried out one after another in the order `order` lists the slots. */
  function ApplyInOrder(agents: seq<Agent>, hs: seq<real>, p: KernelParams, order: seq<nat>): seq<Agent>
    requires |hs| >= |agents| && AllDefined(hs, p)
    requires forall k :: 0 <= k < |order| ==> order[k] < |agents|
    decreases |order|
  {
    if order == [] then agents
    else
      var i := order[0];
      ApplyInOrder(agents[i := UpdateAgent(agents[i], hs[i], p)], hs, p, order[1..])
  }

  /**
   * Carrying out the iterations in any order that lists each slot at most
   * once updates exactly the listed slots, each from its own old value.
   */
  lemma {:induction false} ApplyInOrderSlots(agents: seq<Agent>, hs: seq<real>, p: KernelParams, order: seq<nat>)
    requires |hs| >= |agents| && AllDefined(hs, p)
    requires forall k :: 0 <= k < |order| ==> order[k] < |agents|
    requires forall k, l :: 0 <= k < l < |order| ==> order[k] != order[l]
    ensures |ApplyInOrder(agents, hs, p, order)| == |agents|
    ensures forall j :: 0 <= j < |agents| ==>
      ApplyInOrder(agents, hs, p, order)[j] == if j in order then UpdateAgent(agents[j], hs[j], p) else agents[j]
    decreases |order|
  {
    if order != [] {
      var i := order[0];
      var next := agents[i := UpdateAgent(agents[i], hs[i], p)];
      ApplyInOrderSlots(next, hs, p, order[1..]);
      assert i !in order[1..];
      forall j | 0 <= j < |agents|
        ensures j in order <==> j == i || j in order[1..]
      {
        assert order == [i] + order[1..];
      }
    }
  }

  /**
   * The iterations are independent: carried out in any order that visits
   * every slot once, they give the same lane as the slot-by-slot pass.
   */
  lemma AnyOrderSameResult(agents: seq<Agent>, hs: seq<real>, p: KernelParams, order: seq<nat>)
    requires |hs| >= |agents| && AllDefined(hs, p)
    requires forall k :: 0 <= k < |order| ==> order[k] < |agents|
    requires forall k, l :: 0 <= k < l < |order| ==> order[k] != order[l]
    requires forall j :: 0 <= j < |agents| ==> j in order
    ensures ApplyInOrder(agents, hs, p, order) == UpdateAll(agents, hs, p)
  {
    ApplyInOrderSlots(agents, hs, p, order);
  }

  /** The first `n` slots of the four per-vehicle arrays. */
  function Slots(x: array<real>, v: array<real>, stops: array<int>, atStopline: array<bool>, n: nat): (r: seq<Agent>)
    requires n <= x.Length && n <= v.Length && n <= stops.Length && n <= atStopline.Length
    reads x, v, stops, atStopline
    ensures |r| == n
    ensures forall i :: 0 <= i < n ==> r[i] == Agent(x[i], v[i], stops[i], atStopline[i])
  {
    seq(n, i reads x, v, stops, atStopline requires 0 <= i < n => Agent(x[i], v[i], stops[i], atStopline[i]))
  }

  /**
   * `update_agents`: every slot below `x`'s length is updated from its own
   * old value and headway, as the slot-by-slot pass says; the slots past
   * that length (and the lane length, which the kernel does not read) are
   * untouched.
   */
  method UpdateAgents(x: array<real>, v: array<real>, laneLen: real, dt: real, vMax: real, isGreen: bool,
                      safeGap: real, stops: array<int>, atStopline: array<bool>, headway: array<real>)
    requires v.Length >= x.Length && stops.Length >= x.Length && atStopline.Length >= x.Length
    requires headway.Length >= x.Length
    requires x != v && headway != x && headway != v
    requires AllDefined(headway[..x.Length], KernelParams(dt, vMax, isGreen, safeGap))
    modifies x, v, stops, atStopline
    ensures Slots(x, v, stops, atStopline, x.Length)
         == UpdateAll(old(Slots(x, v, stops, atStopline, x.Length)), headway[..x.Length], KernelParams(dt, vMax, isGreen, safeGap))
    ensures v[x.Length..] == old(v[x.Length..]) && stops[x.Length..] == old(stops[x.Length..])
    ensures atStopline[x.Length..] == old(atStopline[x.Length..])
  {
    var p := KernelParams(dt, vMax, isGreen, safeGap);
    ghost var before := Slots(x, v, stops, atStopline, x.Length);
    ghost var hs := headway[..x.Length];
    var n := x.Length;
    var i := 0;
    while i < n
      invariant 0 <= i <= n
      invariant forall j :: 0 <= j < i ==> Agent(x[j], v[j], stops[j], atStopline[j]) == UpdateAgent(before[j], hs[j], p)
      invariant forall j :: i <= j < n ==> Agent(x[j], v[j], stops[j], atStopline[j]) == before[j]
      invariant v[n..] == old(v[n..]) && stops[n..] == old(stops[n..]) && atStopline[n..] == old(atStopline[n..])
      invariant headway[..n] == hs
    {
      var a := UpdateAgent(Agent(x[i], v[i], stops[i], atStopline[i]), headway[i], p);
      x[i] := a.x;
      v[i] := a.v;
      stops[i] := a.stops;
      atStopline[i] := a.atStopline;
      i := i + 1;
    }
  }
}
