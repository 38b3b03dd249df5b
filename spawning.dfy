/**
 * The spawn phase of a world step (`_spawn_vehicles` and `_create_vehicle` in
 * traffic_sim/model/world_state.py) as a pure plan over the random draws. The
 * draws are a stream `draw(0), draw(1), ...` and a cursor into it: each
 * direction consumes one draw for the spawn decision and, when it spawns, one
 * more for the turn.
 */
module Spawning {
  import opened Vehicles

  /** `_create_vehicle`'s turn rule: straight below 0.6, right below 0.8, left otherwise. */
  function TurnFromDraw(r: real): (turn: TurnChoice)
    ensures turn == Straight <==> r < 0.6
    ensures turn == Right <==> 0.6 <= r < 0.8
    ensures turn == Left <==> 0.8 <= r
  {
    if r < 0.6 then Straight
    else if r < 0.8 then Right
    else Left
  }

  /** The vehicles a spawn phase adds, and where the draw cursor and the id counter end up. */
  datatype SpawnOutcome = SpawnOutcome(added: seq<Vehicle>, cursor: nat, nextId: nat)

  /** What spawning one vehicle needs besides the draws and the counters. */
  datatype SpawnParams = SpawnParams(maxVehicles: int, spawnProb: real, maxSpeed: real, time: real)

  /**
   * The directions `todo` in turn, `count` vehicles already in the world:
   * stop once the world is full; otherwise draw, and on a draw below the
   * spawn probability create a vehicle whose turn takes the next draw.
   */
  function SpawnFrom(todo: seq<Direction>, count: nat, p: SpawnParams,
                     draw: nat -> real, cursor: nat, nextId: nat): (o: SpawnOutcome)
    decreases |todo|
  {
    if todo == [] || count >= p.maxVehicles then SpawnOutcome([], cursor, nextId)
    else if draw(cursor) < p.spawnProb then
      var v := NewVehicle(nextId, todo[0], TurnFromDraw(draw(cursor + 1)), 0.0, p.maxSpeed, p.maxSpeed, p.time);
      var rest := SpawnFrom(todo[1..], count + 1, p, draw, cursor + 2, nextId + 1);
      SpawnOutcome([v] + rest.added, rest.cursor, rest.nextId)
    else
      SpawnFrom(todo[1..], count, p, draw, cursor + 1, nextId)
  }

  /** `added` in front of an outcome's own vehicles. */
  function Prepend(added: seq<Vehicle>, o: SpawnOutcome): (r: SpawnOutcome)
  {
    SpawnOutcome(added + o.added, o.cursor, o.nextId)
  }

  /** A spawn loop that has produced `added` and still has `todo` to visit, when its draw spawns. */
  lemma SpawnTaken(goal: SpawnOutcome, added: seq<Vehicle>, todo: seq<Direction>, count: nat, p: SpawnParams,
                   draw: nat -> real, cursor: nat, nextId: nat, v: Vehicle)
    requires goal == Prepend(added, SpawnFrom(todo, count, p, draw, cursor, nextId))
    requires todo != [] && count < p.maxVehicles && draw(cursor) < p.spawnProb
    requires v == NewVehicle(nextId, todo[0], TurnFromDraw(draw(cursor + 1)), 0.0, p.maxSpeed, p.maxSpeed, p.time)
    ensures goal == Prepend(added + [v], SpawnFrom(todo[1..], count + 1, p, draw, cursor + 2, nextId + 1))
  {
  }

  /** The same loop when its draw does not spawn. */
  lemma SpawnSkipped(goal: SpawnOutcome, added: seq<Vehicle>, todo: seq<Direction>, count: nat, p: SpawnParams,
                     draw: nat -> real, cursor: nat, nextId: nat)
    requires goal == Prepend(added, SpawnFrom(todo, count, p, draw, cursor, nextId))
    requires todo != [] && count < p.maxVehicles && draw(cursor) >= p.spawnProb
    ensures goal == Prepend(added, SpawnFrom(todo[1..], count, p, draw, cursor + 1, nextId))
  {
  }

  /**
   * `_spawn_vehicles`: a full world spawns nothing and draws nothing;
   * otherwise the four directions in enumeration order.
   */
  function Spawn(count: nat, p: SpawnParams, draw: nat -> real, cursor: nat, nextId: nat): (o: SpawnOutcome)
  {
    if count >= p.maxVehicles then SpawnOutcome([], cursor, nextId)
    else SpawnFrom(AllDirections, count, p, draw, cursor, nextId)
  }

  /** A world that was within capacity stays within it, and no more vehicles come than directions were visited. */
  lemma {:induction false} SpawnFromCapacity(todo: seq<Direction>, count: nat, p: SpawnParams,
                                             draw: nat -> real, cursor: nat, nextId: nat)
    requires count <= p.maxVehicles
    ensures var o := SpawnFrom(todo, count, p, draw, cursor, nextId);
      count + |o.added| <= p.maxVehicles && |o.added| <= |todo|
    decreases |todo|
  {
    if todo != [] && count < p.maxVehicles {
      if draw(cursor) < p.spawnProb {
        SpawnFromCapacity(todo[1..], count + 1, p, draw, cursor + 2, nextId + 1);
      } else {
        SpawnFromCapacity(todo[1..], count, p, draw, cursor + 1, nextId);
      }
    }
  }

  /**
   * The id counter rises by exactly the number of vehicles added, and the
   * cursor by one draw per visited direction plus one per vehicle. A full
   * world draws nothing; a world with room for every direction visits them
   * all; a direction is left without its draw only once the world is full.
   */
  lemma {:induction false} SpawnFromCounters(todo: seq<Direction>, count: nat, p: SpawnParams,
                                             draw: nat -> real, cursor: nat, nextId: nat)
    ensures var o := SpawnFrom(todo, count, p, draw, cursor, nextId);
      o.nextId == nextId + |o.added| && cursor + |o.added| <= o.cursor <= cursor + |todo| + |o.added|
    ensures var o := SpawnFrom(todo, count, p, draw, cursor, nextId);
      count >= p.maxVehicles ==> o.added == [] && o.cursor == cursor
    ensures var o := SpawnFrom(todo, count, p, draw, cursor, nextId);
      count + |todo| <= p.maxVehicles ==> o.cursor == cursor + |todo| + |o.added|
    ensures var o := SpawnFrom(todo, count, p, draw, cursor, nextId);
      o.cursor < cursor + |todo| + |o.added| ==> count + |o.added| >= p.maxVehicles
    decreases |todo|
  {
    if todo != [] && count < p.maxVehicles {
      if draw(cursor) < p.spawnProb {
        SpawnFromCounters(todo[1..], count + 1, p, draw, cursor + 2, nextId + 1);
      } else {
        SpawnFromCounters(todo[1..], count, p, draw, cursor + 1, nextId);
      }
    }
  }

  /**
   * Fresh vehicles at the start of lanes among `todo`: consecutive ids from
   * `nextId`, position 0, speed and top speed `max_speed`, spawned now.
   */
  ghost predicate FreshFrom(added: seq<Vehicle>, todo: seq<Direction>, p: SpawnParams, nextId: nat)
  {
    forall k :: 0 <= k < |added| ==>
      && added[k] == NewVehicle(nextId + k, added[k].direction, added[k].turnChoice, 0.0, p.maxSpeed, p.maxSpeed, p.time)
      && added[k].direction in todo
  }

  /** Each vehicle added is a fresh vehicle at the start of one of the visited lanes. */
  lemma {:induction false} SpawnFromFresh(todo: seq<Direction>, count: nat, p: SpawnParams,
                                          draw: nat -> real, cursor: nat, nextId: nat)
    ensures FreshFrom(SpawnFrom(todo, count, p, draw, cursor, nextId).added, todo, p, nextId)
    decreases |todo|
  {
    if todo != [] && count < p.maxVehicles {
      var added := SpawnFrom(todo, count, p, draw, cursor, nextId).added;
      if draw(cursor) < p.spawnProb {
        var rest := SpawnFrom(todo[1..], count + 1, p, draw, cursor + 2, nextId + 1).added;
        SpawnFromFresh(todo[1..], count + 1, p, draw, cursor + 2, nextId + 1);
        assert added == [added[0]] + rest;
      } else {
        SpawnFromFresh(todo[1..], count, p, draw, cursor + 1, nextId);
      }
    }
  }

  /** Directions listed in strictly increasing enumeration order. */
  ghost predicate Increasing(ds: seq<Direction>)
  {
    forall i, j :: 0 <= i < j < |ds| ==> ds[i].Index() < ds[j].Index()
  }

  /** The directions of a list of vehicles, in list order. */
  function Directions(vs: seq<Vehicle>): (ds: seq<Direction>)
    ensures |ds| == |vs| && forall k :: 0 <= k < |vs| ==> ds[k] == vs[k].direction
  {
    if vs == [] then [] else [vs[0].direction] + Directions(vs[1..])
  }

  /** No direction of `ds` comes before `d` in enumeration order. */
  ghost predicate NotBefore(ds: seq<Direction>, d: Direction)
  {
    forall k :: 0 <= k < |ds| ==> d.Index() <= ds[k].Index()
  }

  /**
   * Visiting directions in increasing order adds vehicles in increasing order
   * of direction, none before the first direction visited.
   */
  lemma {:induction false} SpawnFromIncreasing(todo: seq<Direction>, count: nat, p: SpawnParams,
                                               draw: nat -> real, cursor: nat, nextId: nat)
    requires Increasing(todo)
    ensures Increasing(Directions(SpawnFrom(todo, count, p, draw, cursor, nextId).added))
    ensures todo != [] ==> NotBefore(Directions(SpawnFrom(todo, count, p, draw, cursor, nextId).added), todo[0])
    decreases |todo|
  {
    if todo != [] && count < p.maxVehicles {
      var ds := Directions(SpawnFrom(todo, count, p, draw, cursor, nextId).added);
      assert Increasing(todo[1..]);
      if draw(cursor) < p.spawnProb {
        var rest := Directions(SpawnFrom(todo[1..], count + 1, p, draw, cursor + 2, nextId + 1).added);
        SpawnFromIncreasing(todo[1..], count + 1, p, draw, cursor + 2, nextId + 1);
        assert ds == [todo[0]] + rest;
        ConsIncreasing(todo, rest);
      } else {
        SpawnFromIncreasing(todo[1..], count, p, draw, cursor + 1, nextId);
        ConsIncreasing(todo, ds);
      }
    }
  }

  /**
   * Directions that start after the first of an increasing list may follow
   * it, and none of them comes before it.
   */
  lemma ConsIncreasing(todo: seq<Direction>, rest: seq<Direction>)
    requires Increasing(todo) && todo != [] && Increasing(rest)
    requires |todo| > 1 ==> NotBefore(rest, todo[1])
    requires |todo| == 1 ==> rest == []
    ensures Increasing([todo[0]] + rest) && NotBefore([todo[0]] + rest, todo[0])
    ensures NotBefore(rest, todo[0])
  {
    if |todo| > 1 {
      assert todo[0].Index() < todo[1].Index();
    }
  }

  /**
   * A spawn phase adds at most one vehicle per direction, in the order
   * North, East, South, West, and keeps a world within capacity.
   */
  lemma {:induction false} SpawnOrder(count: nat, p: SpawnParams, draw: nat -> real, cursor: nat, nextId: nat)
    requires count <= p.maxVehicles
    ensures count + |Spawn(count, p, draw, cursor, nextId).added| <= p.maxVehicles
    ensures |Spawn(count, p, draw, cursor, nextId).added| <= 4
    ensures Increasing(Directions(Spawn(count, p, draw, cursor, nextId).added))
  {
    if count < p.maxVehicles {
      EnumerationOrder();
      SpawnFromCapacity(AllDirections, count, p, draw, cursor, nextId);
      SpawnFromIncreasing(AllDirections, count, p, draw, cursor, nextId);
    }
  }

  /** With the probability at one or above and room for all, each direction spawns one vehicle. */
  lemma {:induction false} SpawnCertain(count: nat, p: SpawnParams, draw: nat -> real, cursor: nat, nextId: nat)
    requires count + 4 <= p.maxVehicles
    requires p.spawnProb >= 1.0
    requires forall k :: 0.0 <= draw(k) < 1.0
    ensures |Spawn(count, p, draw, cursor, nextId).added| == 4
    ensures Spawn(count, p, draw, cursor, nextId).cursor == cursor + 8
    ensures Directions(Spawn(count, p, draw, cursor, nextId).added) == AllDirections
  {
    assert AllDirections[1..] == [East, South, West];
    assert AllDirections[1..][1..] == [South, West];
    assert AllDirections[1..][1..][1..] == [West];
    assert AllDirections[1..][1..][1..][1..] == [];
  }
}
