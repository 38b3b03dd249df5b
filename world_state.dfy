/**
 * The world (`WorldState` in traffic_sim/model/world_state.py): its vehicle
 * list, clock, id counter and random generator, and the step that spawns,
 * moves and retires vehicles. The seeded generator is modelled as the fixed
 * stream of its draws, `draw(0), draw(1), ...`, and a count of the draws
 * taken so far.
 */
module WorldStates {
  import opened Results
  import opened Vehicles
  import opened RoadNetworks
  import opened TrafficLights
  import opened WorldMetrics
  import opened Movement
  import opened Spawning

  /** A vehicle that has reached the end of its lane. */
  ghost predicate Reached(v: Vehicle, net: RoadNetwork)
    requires Complete(net)
  {
    v.position >= GetLane(net, v.direction).length
  }

  /** The vehicles that stay in the world after the finish phase, in list order. */
  function Survivors(vs: seq<Vehicle>, net: RoadNetwork): (r: seq<Vehicle>)
    requires Complete(net)
    ensures |r| <= |vs|
    ensures forall k :: 0 <= k < |r| ==> !Reached(r[k], net)
  {
    if vs == [] then []
    else
      var v := vs[|vs| - 1];
      Survivors(vs[..|vs| - 1], net) + (if v.position >= GetLane(net, v.direction).length then [] else [v])
  }

  /** The vehicles the finish phase retires, in list order, before they are marked. */
  function Finishers(vs: seq<Vehicle>, net: RoadNetwork): (r: seq<Vehicle>)
    requires Complete(net)
    ensures |r| <= |vs|
    ensures forall k :: 0 <= k < |r| ==> Reached(r[k], net)
  {
    if vs == [] then []
    else
      var v := vs[|vs| - 1];
      Finishers(vs[..|vs| - 1], net) + (if v.position >= GetLane(net, v.direction).length then [v] else [])
  }

  /** The travel times the metrics record for vehicles marked finished at `t`. */
  function TravelTimes(fs: seq<Vehicle>, t: real): (r: seq<real>)
    ensures |r| == |fs|
    ensures forall k :: 0 <= k < |fs| ==> r[k] == t - fs[k].spawnTime
  {
    if fs == [] then [] else TravelTimes(fs[..|fs| - 1], t) + [t - fs[|fs| - 1].spawnTime]
  }

  /** The stop counts the metrics record for retired vehicles. */
  function StopCounts(fs: seq<Vehicle>): (r: seq<nat>)
    ensures |r| == |fs|
    ensures forall k :: 0 <= k < |fs| ==> r[k] == fs[k].stopsCount
  {
    if fs == [] then [] else StopCounts(fs[..|fs| - 1]) + [fs[|fs| - 1].stopsCount]
  }

  /**
   * The finish phase splits the list: every vehicle either stays or is
   * retired, according to whether it has reached its lane's end, and none is
   * lost or duplicated.
   */
  lemma {:induction false} FinishPartition(vs: seq<Vehicle>, net: RoadNetwork)
    requires Complete(net)
    ensures |Survivors(vs, net)| + |Finishers(vs, net)| == |vs|
    ensures forall i :: 0 <= i < |vs| && !Reached(vs[i], net) ==> vs[i] in Survivors(vs, net)
    ensures forall i :: 0 <= i < |vs| && Reached(vs[i], net) ==> vs[i] in Finishers(vs, net)
    ensures forall v :: v in Survivors(vs, net) ==> v in vs
    ensures forall v :: v in Finishers(vs, net) ==> v in vs
    decreases |vs|
  {
    if vs != [] {
      var front, v := vs[..|vs| - 1], vs[|vs| - 1];
      FinishPartition(front, net);
      assert vs == front + [v];
    }
  }

  /** One more vehicle of the list either stays or is retired, and the recorded lists grow with it. */
  lemma FinishSnoc(vs: seq<Vehicle>, i: nat, net: RoadNetwork, t: real)
    requires Complete(net) && i < |vs|
    ensures var v, fs := vs[i], Finishers(vs[..i], net);
      && Survivors(vs[..i + 1], net) == Survivors(vs[..i], net) + (if Reached(v, net) then [] else [v])
      && Finishers(vs[..i + 1], net) == fs + (if Reached(v, net) then [v] else [])
      && TravelTimes(fs + [v], t) == TravelTimes(fs, t) + [t - v.spawnTime]
      && StopCounts(fs + [v]) == StopCounts(fs) + [v.stopsCount]
  {
    assert vs[..i + 1][..i] == vs[..i];
    var fs := Finishers(vs[..i], net);
    assert (fs + [vs[i]])[..|fs|] == fs;
  }

  /** Ids strictly increase along the list and stay below the next id to hand out. */
  ghost predicate IdsOrdered(vs: seq<Vehicle>, nextId: nat)
  {
    (forall i, j :: 0 <= i < j < |vs| ==> vs[i].id < vs[j].id) && (forall i :: 0 <= i < |vs| ==> vs[i].id < nextId)
  }

  /** The survivors keep their relative order: increasing ids stay increasing. */
  lemma {:induction false} SurvivorsKeepOrder(vs: seq<Vehicle>, net: RoadNetwork, nextId: nat)
    requires Complete(net) && IdsOrdered(vs, nextId)
    ensures IdsOrdered(Survivors(vs, net), nextId)
    decreases |vs|
  {
    if vs != [] {
      var front, v := vs[..|vs| - 1], vs[|vs| - 1];
      assert IdsOrdered(front, v.id);
      SurvivorsKeepOrder(front, net, v.id);
    }
  }

  /** Adding freshly numbered vehicles at the end keeps the ids ordered. */
  lemma {:induction false} AppendKeepsOrder(vs: seq<Vehicle>, nextId: nat, o: SpawnOutcome)
    requires IdsOrdered(vs, nextId)
    requires o.nextId == nextId + |o.added|
    requires forall k :: 0 <= k < |o.added| ==> o.added[k].id == nextId + k
    ensures IdsOrdered(vs + o.added, o.nextId)
  {
  }

  /** Growing the list by one vehicle adds its index to its own direction's lane only. */
  lemma LaneIndicesSnoc(vs: seq<Vehicle>, i: nat)
    requires i < |vs|
    ensures forall d: Direction ::
      LaneIndices(vs[..i + 1], d) == LaneIndices(vs[..i], d) + (if vs[i].direction == d then [i] else [])
  {
    assert vs[..i + 1][..i] == vs[..i];
  }

  /**
   * The vehicles of a world between steps: ids ordered, and each vehicle
   * unfinished and on its lane (not before its start, not yet at its end).
   */
  ghost predicate OnLanes(vs: seq<Vehicle>, net: RoadNetwork, nextId: nat)
    requires Complete(net)
  {
    && IdsOrdered(vs, nextId)
    && forall i :: 0 <= i < |vs| ==> !vs[i].finished && 0.0 <= vs[i].position < GetLane(net, vs[i].direction).length
  }

  /**
   * A spawn loop that has appended `added` to `base`, giving `vs`, and still
   * has the directions from `i` on to visit, on its way to `goal`.
   */
  ghost predicate SpawnRest(goal: SpawnOutcome, base: seq<Vehicle>, added: seq<Vehicle>, vs: seq<Vehicle>, i: nat,
                            p: SpawnParams, draw: nat -> real, cursor: nat, nextId: nat)
  {
    && i <= |AllDirections|
    && vs == base + added
    && goal == Prepend(added, SpawnFrom(AllDirections[i..], |vs|, p, draw, cursor, nextId))
  }

  /** One direction of the spawn loop, taken or skipped, keeps it on its way to the same outcome. */
  lemma SpawnRestStep(goal: SpawnOutcome, base: seq<Vehicle>, added: seq<Vehicle>, vs: seq<Vehicle>, i: nat,
                      p: SpawnParams, draw: nat -> real, cursor: nat, nextId: nat,
                      vs': seq<Vehicle>, cursor': nat, nextId': nat, d: Direction, prob: real)
    requires SpawnRest(goal, base, added, vs, i, p, draw, cursor, nextId)
    requires i < |AllDirections| && d == AllDirections[i] && |vs| < p.maxVehicles && prob == p.spawnProb
    requires draw(cursor) < prob ==>
      vs' == vs + [NewVehicle(nextId, d, TurnFromDraw(draw(cursor + 1)), 0.0, p.maxSpeed, p.maxSpeed, p.time)]
      && cursor' == cursor + 2 && nextId' == nextId + 1
    requires draw(cursor) >= prob ==> vs' == vs && cursor' == cursor + 1 && nextId' == nextId
    ensures draw(cursor) < prob ==> vs' != [] && SpawnRest(goal, base, added + [vs'[|vs'| - 1]], vs', i + 1, p, draw, cursor', nextId')
    ensures draw(cursor) >= prob ==> SpawnRest(goal, base, added, vs', i + 1, p, draw, cursor', nextId')
  {
    assert AllDirections[i..][0] == d && AllDirections[i..][1..] == AllDirections[i + 1..];
    if draw(cursor) < prob {
      SpawnTaken(goal, added, AllDirections[i..], |vs|, p, draw, cursor, nextId, vs'[|vs'| - 1]);
    } else {
      SpawnSkipped(goal, added, AllDirections[i..], |vs|, p, draw, cursor, nextId);
    }
  }

  /** Which lights are green at `t`, and the rest of the world the move phase needs. */
  function MoveParams(lights: TrafficLightConfig, net: RoadNetwork, safeGap: real, dt: real, t: real): (w: WorldParams)
    requires CycleDuration(lights) != 0.0 && Complete(net)
    ensures Ready(w)
  {
    WorldParams(GetState(lights, t), net, safeGap, dt)
  }

  class WorldState {
    const roadNetwork: RoadNetwork
    const lights: TrafficLightConfig
    const spawnRate: real
    const maxVehicles: int
    const maxSpeed: real
    const safeGap: real
    /** The draws of the generator seeded with the world's seed, in order. */
    const draw: nat -> real
    const metricsRaw: SimulationMetricsRaw

    var time: real
    var nextVehicleId: nat
    var vehicles: seq<Vehicle>
    /** How many draws the world has taken. */
    var drawn: nat

    /** Between steps: every lane exists, the metrics lists are consistent, and the vehicles are on their lanes. */
    ghost predicate Valid()
      reads this, metricsRaw
    {
      && metricsRaw.Valid()
      && Complete(roadNetwork)
      && OnLanes(vehicles, roadNetwork, nextVehicleId)
    }

    constructor (roadNetwork: RoadNetwork, lights: TrafficLightConfig, spawnRate: real, maxVehicles: int,
                 draw: nat -> real, maxSpeed: real, safeGap: real)
      requires Complete(roadNetwork)
      ensures Valid() && fresh(metricsRaw)
      ensures this.roadNetwork == roadNetwork && this.lights == lights && this.spawnRate == spawnRate
      ensures this.maxVehicles == maxVehicles && this.draw == draw
      ensures this.maxSpeed == maxSpeed && this.safeGap == safeGap
      ensures time == 0.0 && nextVehicleId == 0 && vehicles == [] && drawn == 0
      ensures metricsRaw.finishedCount == 0 && metricsRaw.finishedTravelTimes == [] && metricsRaw.finishedStops == []
    {
      this.roadNetwork := roadNetwork;
      this.lights := lights;
      this.spawnRate := spawnRate;
      this.maxVehicles := maxVehicles;
      this.maxSpeed := maxSpeed;
      this.safeGap := safeGap;
      this.draw := draw;
      time := 0.0;
      nextVehicleId := 0;
      vehicles := [];
      metricsRaw := new SimulationMetricsRaw();
      drawn := 0;
    }

    /** `rng.random()`: the next draw. */
    method Random() returns (r: real)
      modifies this
      ensures r == draw(old(drawn)) && drawn == old(drawn) + 1
      ensures time == old(time) && nextVehicleId == old(nextVehicleId) && vehicles == old(vehicles)
    {
      r := draw(drawn);
      drawn := drawn + 1;
    }

    /** `_create_vehicle(direction)`: a turn from one draw, the next id, at the lane's start at full speed. */
    method CreateVehicle(direction: Direction) returns (v: Vehicle)
      modifies this
      ensures v == NewVehicle(old(nextVehicleId), direction, TurnFromDraw(draw(old(drawn))), 0.0, maxSpeed, maxSpeed, time)
      ensures nextVehicleId == old(nextVehicleId) + 1 && drawn == old(drawn) + 1
      ensures time == old(time) && vehicles == old(vehicles)
    {
      var r := Random();
      var turn: TurnChoice;
      if r < 0.6 {
        turn := Straight;
      } else if r < 0.8 {
        turn := Right;
      } else {
        turn := Left;
      }
      var vid := nextVehicleId;
      nextVehicleId := nextVehicleId + 1;
      v := NewVehicle(vid, direction, turn, 0.0, maxSpeed, maxSpeed, time);
    }

    /** The spawn parameters of a step of length `dt` taken at time `t`. */
    function SpawnParamsAt(dt: real, t: real): (p: SpawnParams)
      ensures p.maxVehicles == maxVehicles && p.spawnProb == spawnRate * dt && p.maxSpeed == maxSpeed && p.time == t
    {
      SpawnParams(maxVehicles, spawnRate * dt, maxSpeed, t)
    }

    /** One direction of `_spawn_vehicles`: a draw below the spawn probability creates a vehicle there. */
    method SpawnDirection(direction: Direction, spawnProb: real)
      modifies this
      ensures time == old(time)
      ensures draw(old(drawn)) < spawnProb ==>
        && vehicles == old(vehicles) + [NewVehicle(old(nextVehicleId), direction, TurnFromDraw(draw(old(drawn) + 1)),
                                                   0.0, maxSpeed, maxSpeed, time)]
        && drawn == old(drawn) + 2 && nextVehicleId == old(nextVehicleId) + 1
      ensures draw(old(drawn)) >= spawnProb ==>
        vehicles == old(vehicles) && drawn == old(drawn) + 1 && nextVehicleId == old(nextVehicleId)
    {
      var r := Random();
      if r < spawnProb {
        var v := CreateVehicle(direction);
        vehicles := vehicles + [v];
      }
    }

    /** `_spawn_vehicles(dt)`: the spawn plan, drawn from the world's generator. */
    method SpawnVehicles(dt: real)
      modifies this
      ensures var o := Spawn(|old(vehicles)|, SpawnParamsAt(dt, old(time)), draw, old(drawn), old(nextVehicleId));
        vehicles == old(vehicles) + o.added && drawn == o.cursor && nextVehicleId == o.nextId
      ensures time == old(time)
    {
      if |vehicles| >= maxVehicles {
        return;
      }
      var spawnProb := spawnRate * dt;
      ghost var p := SpawnParamsAt(dt, time);
      ghost var goal := Spawn(|vehicles|, p, draw, drawn, nextVehicleId);
      ghost var added: seq<Vehicle> := [];
      var i := 0;
      while i < |AllDirections|
        invariant time == old(time)
        invariant SpawnRest(goal, old(vehicles), added, vehicles, i, p, draw, drawn, nextVehicleId)
      {
        if |vehicles| >= maxVehicles {
          break;
        }
        var direction := AllDirections[i];
        ghost var c0, n0, vs := drawn, nextVehicleId, vehicles;
        SpawnDirection(direction, spawnProb);
        SpawnRestStep(goal, old(vehicles), added, vs, i, p, draw, c0, n0, vehicles, drawn, nextVehicleId, direction, spawnProb);
        if draw(c0) < spawnProb {
          added := added + [vehicles[|vehicles| - 1]];
        }
        i := i + 1;
      }
    }

    /** The grouping step of `_update_vehicles`: each direction's lane as indices into the list, in list order. */
    method GroupByDirection() returns (byDir: map<Direction, seq<nat>>)
      ensures forall d: Direction :: d in byDir && byDir[d] == LaneIndices(vehicles, d)
    {
      byDir := map[North := [], East := [], South := [], West := []];
      var i := 0;
      forall d: Direction ensures d in byDir && byDir[d] == LaneIndices(vehicles[..0], d) {
        assert vehicles[..0] == [];
        assert d.North? || d.East? || d.South? || d.West?;
      }
      while i < |vehicles|
        invariant 0 <= i <= |vehicles|
        invariant forall d: Direction :: d in byDir && byDir[d] == LaneIndices(vehicles[..i], d)
      {
        var d := vehicles[i].direction;
        LaneIndicesSnoc(vehicles, i);
        byDir := byDir[d := byDir[d] + [i]];
        i := i + 1;
      }
      assert vehicles[..i] == vehicles;
    }

    /** `_update_vehicles(dt, light_state)`: group by direction, then each lane front to back. */
    method UpdateVehicles(dt: real, lightState: map<Direction, bool>)
      requires Complete(roadNetwork) && forall d: Direction :: d in lightState
      modifies this
      ensures vehicles == MovePhase(old(vehicles), WorldParams(lightState, roadNetwork, safeGap, dt))
      ensures time == old(time) && nextVehicleId == old(nextVehicleId) && drawn == old(drawn)
    {
      ghost var w := WorldParams(lightState, roadNetwork, safeGap, dt);
      ghost var vs0 := vehicles;
      var byDir := GroupByDirection();
      var k := 0;
      while k < |AllDirections|
        invariant 0 <= k <= |AllDirections|
        invariant |vehicles| == |vs0|
        invariant time == old(time) && nextVehicleId == old(nextVehicleId) && drawn == old(drawn)
        invariant MoveAll(vs0, vehicles, AllDirections[k..], w) == MovePhase(vs0, w)
      {
        var d := AllDirections[k];
        assert AllDirections[k..][0] == d && AllDirections[k..][1..] == AllDirections[k + 1..];
        ghost var next := LaneTurn(vs0, vehicles, d, w);
        assert MoveAll(vs0, vehicles, AllDirections[k..], w) == MoveAll(vs0, next, AllDirections[k + 1..], w);
        var lane := byDir[d];
        if lane != [] {
          var p := LaneParams(lightState[d], GetLane(roadNetwork, d), safeGap, dt);
          assert p == ParamsFor(w, d);
          MoveLaneInPlace(lane, p);
        }
        assert vehicles == next;
        k := k + 1;
      }
    }

    /**
     * One lane: sort its vehicles front first, then update each with the
     * already-updated position of the one before it as its leader.
     */
    method MoveLaneInPlace(lane: seq<nat>, p: LaneParams)
      requires forall k :: 0 <= k < |lane| ==> lane[k] < |vehicles|
      modifies this
      ensures vehicles == MoveLane(old(vehicles), lane, p)
      ensures time == old(time) && nextVehicleId == old(nextVehicleId) && drawn == old(drawn)
    {
      var order := FrontFirst(vehicles, lane);
      ghost var start := vehicles;
      FrontFirstInRange(vehicles, lane);
      var front: Option<real> := None;
      var j := 0;
      while j < |order|
        invariant 0 <= j <= |order| && |vehicles| == |start|
        invariant time == old(time) && nextVehicleId == old(nextVehicleId) && drawn == old(drawn)
        invariant FollowLane(vehicles, order[j..], front, p) == FollowLane(start, order, None, p)
      {
        var idx := order[j];
        FollowLaneStep(vehicles, order[j..], front, p);
        assert order[j..][0] == idx && order[j..][1..] == order[j + 1..];
        var moved := MoveOne(vehicles[idx], front, p);
        vehicles := vehicles[idx := moved];
        front := Some(moved.position);
        j := j + 1;
      }
    }

    /**
     * `_remove_finished_and_update_metrics(t_next)`: the vehicles at or past
     * their lane's end are marked finished at `t_next`, recorded and dropped;
     * the others stay, in order.
     */
    method RemoveFinishedAndUpdateMetrics(tNext: real)
      requires Complete(roadNetwork) && metricsRaw.Valid()
      modifies this, metricsRaw
      ensures metricsRaw.Valid()
      ensures vehicles == Survivors(old(vehicles), roadNetwork)
      ensures var fs := Finishers(old(vehicles), roadNetwork);
        && metricsRaw.finishedCount == old(metricsRaw.finishedCount) + |fs|
        && metricsRaw.finishedTravelTimes == old(metricsRaw.finishedTravelTimes) + TravelTimes(fs, tNext)
        && metricsRaw.finishedStops == old(metricsRaw.finishedStops) + StopCounts(fs)
      ensures time == old(time) && nextVehicleId == old(nextVehicleId) && drawn == old(drawn)
    {
      var remaining: seq<Vehicle> := [];
      var i := 0;
      assert vehicles[..0] == [];
      while i < |vehicles|
        invariant 0 <= i <= |vehicles| && vehicles == old(vehicles)
        invariant time == old(time) && nextVehicleId == old(nextVehicleId) && drawn == old(drawn)
        invariant metricsRaw.Valid()
        invariant remaining == Survivors(vehicles[..i], roadNetwork)
        invariant var fs := Finishers(vehicles[..i], roadNetwork);
          && metricsRaw.finishedCount == old(metricsRaw.finishedCount) + |fs|
          && metricsRaw.finishedTravelTimes == old(metricsRaw.finishedTravelTimes) + TravelTimes(fs, tNext)
          && metricsRaw.finishedStops == old(metricsRaw.finishedStops) + StopCounts(fs)
      {
        var v := vehicles[i];
        ghost var fs := Finishers(vehicles[..i], roadNetwork);
        FinishSnoc(vehicles, i, roadNetwork, tNext);
        var lane := GetLane(roadNetwork, v.direction);
        if v.position >= lane.length {
          var finished := MarkFinished(v, tNext);
          assert finished.finishTime == Some(tNext) && finished.spawnTime == v.spawnTime && finished.stopsCount == v.stopsCount;
          metricsRaw.RecordFinished(finished, tNext);
          assert Finishers(vehicles[..i + 1], roadNetwork) == fs + [v];
        } else {
          remaining := remaining + [v];
          assert Finishers(vehicles[..i + 1], roadNetwork) == fs;
        }
        i := i + 1;
      }
      assert vehicles[..i] == vehicles;
      vehicles := remaining;
    }

    /** `get_metrics_summary(total_sim_time)`. */
    function GetMetricsSummary(totalSimTime: real): (s: Summary)
      reads this, metricsRaw
      requires metricsRaw.Valid()
      requires metricsRaw.finishedCount > 0 ==> totalSimTime != 0.0
      ensures s.count == metricsRaw.finishedCount
    {
      metricsRaw.ComputeSummary(totalSimTime)
    }

    /**
     * `step(dt)`: the lights at the current time, then spawn, move and
     * finish, and the clock advances by `dt`. A world within capacity stays
     * within it, and the world's invariant is kept.
     */
    method Step(dt: real)
      requires Valid() && CycleDuration(lights) != 0.0
      modifies this, metricsRaw
      ensures Valid()
      ensures time == old(time) + dt
      ensures var o := Spawn(|old(vehicles)|, SpawnParamsAt(dt, old(time)), draw, old(drawn), old(nextVehicleId));
        var moved := MovePhase(old(vehicles) + o.added, MoveParams(lights, roadNetwork, safeGap, dt, old(time)));
        var fs := Finishers(moved, roadNetwork);
        && drawn == o.cursor && nextVehicleId == o.nextId
        && vehicles == Survivors(moved, roadNetwork)
        && metricsRaw.finishedCount == old(metricsRaw.finishedCount) + |fs|
        && metricsRaw.finishedTravelTimes == old(metricsRaw.finishedTravelTimes) + TravelTimes(fs, time)
        && metricsRaw.finishedStops == old(metricsRaw.finishedStops) + StopCounts(fs)
      ensures |old(vehicles)| <= maxVehicles ==> |vehicles| <= maxVehicles
    {
      var tNext := time + dt;
      var lightState := GetState(lights, time);
      ghost var w := MoveParams(lights, roadNetwork, safeGap, dt, time);
      ghost var p := SpawnParamsAt(dt, time);
      ghost var before, id0, cursor0 := vehicles, nextVehicleId, drawn;
      SpawnVehicles(dt);
      UpdateVehicles(dt, lightState);
      RemoveFinishedAndUpdateMetrics(tNext);
      time := tNext;
      StepOnLanes(before, roadNetwork, id0, p, draw, cursor0, w);
    }
  }

  /** A step keeps the vehicles on their lanes, and a world within capacity within it. */
  lemma StepOnLanes(before: seq<Vehicle>, net: RoadNetwork, nextId: nat, p: SpawnParams,
                    draw: nat -> real, cursor: nat, w: WorldParams)
    requires Complete(net) && OnLanes(before, net, nextId)
    requires Ready(w) && w.net == net
    ensures var o := Spawn(|before|, p, draw, cursor, nextId);
      var after := Survivors(MovePhase(before + o.added, w), net);
      && OnLanes(after, net, o.nextId)
      && (|before| <= p.maxVehicles ==> |after| <= p.maxVehicles)
  {
    var o := Spawn(|before|, p, draw, cursor, nextId);
    SpawnedFresh(before, nextId, o, p, draw, cursor);
    assert Unfinished(before);
    AppendUnfinished(before, o.added);
    var moved := MovePhase(before + o.added, w);
    MovedKeepsOrder(before + o.added, w, o.nextId);
    MovedUnfinished(before + o.added, w);
    SurvivorsOnLanes(moved, net, o.nextId);
    FinishPartition(moved, net);
  }

  /** Vehicles not yet finished and not before their lane's start. */
  ghost predicate Unfinished(vs: seq<Vehicle>)
  {
    forall i :: 0 <= i < |vs| ==> !vs[i].finished && 0.0 <= vs[i].position
  }

  lemma AppendUnfinished(a: seq<Vehicle>, b: seq<Vehicle>)
    requires Unfinished(a) && Unfinished(b)
    ensures Unfinished(a + b)
  {
  }

  /** The finish phase leaves exactly the vehicles before their lane's end, so on their lanes. */
  lemma SurvivorsOnLanes(vs: seq<Vehicle>, net: RoadNetwork, nextId: nat)
    requires Complete(net) && IdsOrdered(vs, nextId) && Unfinished(vs)
    ensures OnLanes(Survivors(vs, net), net, nextId)
  {
    var after := Survivors(vs, net);
    SurvivorsKeepOrder(vs, net, nextId);
    FinishPartition(vs, net);
    forall i | 0 <= i < |after|
      ensures !after[i].finished && 0.0 <= after[i].position
    {
      assert after[i] in vs;
    }
  }

  /**
   * What the spawn phase leaves behind: the new vehicles are numbered after
   * the old ones, unfinished and at position 0, and a world within capacity
   * stays within it.
   */
  lemma {:induction false} SpawnedFresh(before: seq<Vehicle>, nextId: nat, o: SpawnOutcome, p: SpawnParams,
                                        draw: nat -> real, cursor: nat)
    requires IdsOrdered(before, nextId)
    requires o == Spawn(|before|, p, draw, cursor, nextId)
    ensures IdsOrdered(before + o.added, o.nextId)
    ensures Unfinished(o.added)
    ensures |before| <= p.maxVehicles ==> |before + o.added| <= p.maxVehicles
  {
    if |before| < p.maxVehicles {
      SpawnFromCounters(AllDirections, |before|, p, draw, cursor, nextId);
      SpawnFromFresh(AllDirections, |before|, p, draw, cursor, nextId);
      SpawnFromCapacity(AllDirections, |before|, p, draw, cursor, nextId);
    }
  }

  /** The move phase keeps every vehicle's identity, so it keeps the ids ordered. */
  lemma {:induction false} MovedKeepsOrder(vs: seq<Vehicle>, w: WorldParams, nextId: nat)
    requires Ready(w) && IdsOrdered(vs, nextId)
    ensures KeepsIdentities(vs, MovePhase(vs, w))
    ensures IdsOrdered(MovePhase(vs, w), nextId)
  {
    var r := MovePhase(vs, w);
    forall j | 0 <= j < |r|
      ensures SameIdentity(vs[j], r[j])
    {
      MovePhaseVehicle(vs, w, j);
    }
  }

  /** The move phase finishes no vehicle and sends none before its lane's start. */
  lemma MovedUnfinished(vs: seq<Vehicle>, w: WorldParams)
    requires Ready(w) && Unfinished(vs)
    ensures Unfinished(MovePhase(vs, w))
  {
    var r := MovePhase(vs, w);
    forall j | 0 <= j < |r|
      ensures !r[j].finished && 0.0 <= r[j].position
    {
      MovePhaseVehicle(vs, w, j);
    }
  }
}
