/**
 * The move phase of a world step (`_update_vehicles` in
 * traffic_sim/model/world_state.py) as pure functions: the rule for one
 * vehicle, a lane processed front to back, and the four lanes in turn.
 * A vehicle is identified by its index in the world's vehicle list.
 */
module Movement {
  import opened Results
  import opened PyMath
  import opened Sorting
  import opened Vehicles
  import opened RoadNetworks

  /** A clamped target within this distance of the current position means "stopped". */
  const Tolerance: real := 0.001
  /** A speed at most this is "standing" for stop counting. */
  const StandingSpeed: real := 0.1
  /** A red light holds a vehicle this far before the stop line. */
  const RedMargin: real := 0.5
  /** How far past the lane's end a position may run before it is clamped. */
  const EndMargin: real := 10.0

  /** What a lane update needs besides the vehicles: its light, geometry, gap and tick. */
  datatype LaneParams = LaneParams(isGreen: bool, lane: LaneGeometry, safeGap: real, dt: real)

  /**
   * One vehicle's update, given the already-updated position of the vehicle
   * in front (if any). Speed is binary, a stop is counted on the falling edge
   * of speed only, and the position is clamped to `[0, length + 10]`.
   */
  function MoveOne(v: Vehicle, leader: Option<real>, p: LaneParams): (r: Vehicle)
    ensures r.(position := v.position, speed := v.speed, stopsCount := v.stopsCount) == v
    ensures r.speed == 0.0 || r.speed == v.maxSpeed
    ensures 0.0 <= r.position && (p.lane.length + EndMargin >= 0.0 ==> r.position <= p.lane.length + EndMargin)
    ensures r.stopsCount == v.stopsCount || r.stopsCount == v.stopsCount + 1
    ensures r.stopsCount == v.stopsCount + 1 <==> v.speed > StandingSpeed && r.speed <= StandingSpeed
    ensures leader.Some? ==> r.position <= Max(0.0, leader.value - p.safeGap)
    ensures !p.isGreen && 0.0 <= v.position < p.lane.stopLinePos ==> r.position < p.lane.stopLinePos
  {
    var desired0 := v.position + v.maxSpeed * p.dt;
    // the vehicle in front caps the target
    var (desired1, stopped1) :=
      if leader.Some? && desired0 > leader.value - p.safeGap then
        (leader.value - p.safeGap, leader.value - p.safeGap <= v.position + Tolerance)
      else
        (desired0, false);
    // a red light holds a vehicle that would reach the stop line
    var (desired2, stopped2) :=
      if !p.isGreen && v.position < p.lane.stopLinePos && desired1 >= p.lane.stopLinePos then
        (p.lane.stopLinePos - RedMargin, stopped1 || p.lane.stopLinePos - RedMargin <= v.position + Tolerance)
      else
        (desired1, stopped1);
    var newSpeed := if stopped2 then 0.0 else v.maxSpeed;
    var stops := if v.speed > StandingSpeed && newSpeed <= StandingSpeed then v.stopsCount + 1 else v.stopsCount;
    v.(position := Max(0.0, Min(desired2, p.lane.length + EndMargin)), speed := newSpeed, stopsCount := stops)
  }

  /**
   * The red-light clamp can move a vehicle backwards: a vehicle at 44.9
   * behind a stop line at 45 that would reach 46.29 is put back to 44.5.
   */
  lemma {:induction false} RedClampMovesBackwards()
    ensures var lane := LaneGeometry(100.0, 45.0, 45.0, 55.0);
      var v := NewVehicle(0, North, Straight, 44.9, 13.9, 13.9, 0.0);
      MoveOne(v, None, LaneParams(false, lane, 5.0, 0.1)).position == 44.5
  {
  }

  /** `front_vehicle.position - safe_gap` can also lie behind a follower that sits too close. */
  lemma {:induction false} LeaderClampMovesBackwards()
    ensures var lane := LaneGeometry(100.0, 45.0, 45.0, 55.0);
      var v := NewVehicle(1, North, Straight, 20.0, 13.9, 13.9, 0.0);
      MoveOne(v, Some(22.0), LaneParams(true, lane, 5.0, 0.1)).position == 17.0
  {
  }

  /**
   * The lane's vehicles, processed in `order` (front first); each one sees the
   * updated position of the one processed just before it.
   */
  function FollowLane(vs: seq<Vehicle>, order: seq<nat>, leader: Option<real>, p: LaneParams): (r: seq<Vehicle>)
    requires forall k :: 0 <= k < |order| ==> order[k] < |vs|
    ensures |r| == |vs|
    decreases |order|
  {
    if order == [] then vs
    else
      var i := order[0];
      var moved := MoveOne(vs[i], leader, p);
      FollowLane(vs[i := moved], order[1..], Some(moved.position), p)
  }

  /** One step of a lane update: the first vehicle in `order` moves, the rest follow it. */
  lemma FollowLaneStep(vs: seq<Vehicle>, order: seq<nat>, leader: Option<real>, p: LaneParams)
    requires order != [] && forall k :: 0 <= k < |order| ==> order[k] < |vs|
    ensures var moved := MoveOne(vs[order[0]], leader, p);
      FollowLane(vs, order, leader, p) == FollowLane(vs[order[0] := moved], order[1..], Some(moved.position), p)
  {
  }

  /** Vehicles that the lane update does not visit are left as they were. */
  lemma {:induction false} FollowLaneFrame(vs: seq<Vehicle>, order: seq<nat>, leader: Option<real>, p: LaneParams, j: nat)
    requires forall k :: 0 <= k < |order| ==> order[k] < |vs|
    requires j < |vs| && j !in order
    ensures FollowLane(vs, order, leader, p)[j] == vs[j]
    decreases |order|
  {
    if order != [] {
      FollowLaneFrame(vs[order[0] := MoveOne(vs[order[0]], leader, p)], order[1..], Some(MoveOne(vs[order[0]], leader, p).position), p, j);
    }
  }

  /** The fields a move never touches. */
  ghost predicate SameIdentity(a: Vehicle, b: Vehicle)
  {
    b.(position := a.position, speed := a.speed, stopsCount := a.stopsCount) == a
  }

  /** `r` is `vs` with only positions, speeds and stop counts changed. */
  ghost predicate KeepsIdentities(vs: seq<Vehicle>, r: seq<Vehicle>)
  {
    |vs| == |r| && forall j :: 0 <= j < |vs| ==> SameIdentity(vs[j], r[j])
  }

  /** A lane update changes only positions, speeds and stop counts. */
  lemma {:induction false} FollowLaneIdentity(vs: seq<Vehicle>, order: seq<nat>, leader: Option<real>, p: LaneParams)
    requires forall k :: 0 <= k < |order| ==> order[k] < |vs|
    ensures KeepsIdentities(vs, FollowLane(vs, order, leader, p))
    decreases |order|
  {
    if order != [] {
      var moved := MoveOne(vs[order[0]], leader, p);
      FollowLaneIdentity(vs[order[0] := moved], order[1..], Some(moved.position), p);
    }
  }

  /**
   * `r` is `vs` after each vehicle of `order`, in turn, was updated once
   * behind the one updated just before it (behind `leader` for the first).
   */
  ghost predicate Followed(vs: seq<Vehicle>, r: seq<Vehicle>, order: seq<nat>, leader: Option<real>, p: LaneParams)
  {
    && |r| == |vs|
    && (forall k :: 0 <= k < |order| ==> order[k] < |vs|)
    && forall k :: 0 <= k < |order| ==>
         r[order[k]] == MoveOne(vs[order[k]], if k == 0 then leader else Some(r[order[k - 1]].position), p)
  }

  /**
   * Each visited vehicle gets exactly one update, whose leader is the vehicle
   * visited just before it, as already updated.
   */
  lemma {:induction false} FollowLaneEffect(vs: seq<Vehicle>, order: seq<nat>, leader: Option<real>, p: LaneParams)
    requires forall k :: 0 <= k < |order| ==> order[k] < |vs|
    requires Distinct(order)
    ensures Followed(vs, FollowLane(vs, order, leader, p), order, leader, p)
    decreases |order|
  {
    if order != [] {
      var i := order[0];
      var moved := MoveOne(vs[i], leader, p);
      var vs1 := vs[i := moved];
      var rest := order[1..];
      var r := FollowLane(vs, order, leader, p);
      assert r == FollowLane(vs1, rest, Some(moved.position), p);
      assert Distinct(rest);
      FollowLaneEffect(vs1, rest, Some(moved.position), p);
      assert Followed(vs1, r, rest, Some(moved.position), p);
      assert i !in rest by {
        forall k | 0 <= k < |rest| ensures rest[k] != i {
          assert rest[k] == order[k + 1];
        }
      }
      FollowLaneFrame(vs1, rest, Some(moved.position), p, i);
      assert r[i] == moved;
      forall k | 1 <= k < |order|
        ensures r[order[k]] == MoveOne(vs[order[k]], Some(r[order[k - 1]].position), p)
      {
        var k' := k - 1;
        assert order[k] == rest[k'];
        assert vs1[rest[k']] == vs[order[k]];
        assert r[rest[k']] == MoveOne(vs1[rest[k']], if k' == 0 then Some(moved.position) else Some(r[rest[k' - 1]].position), p);
        if k' > 0 {
          assert order[k - 1] == rest[k' - 1];
        }
      }
    }
  }

  /** The indices of the vehicles of direction `d`, in list order (`by_dir[d]`). */
  function LaneIndices(vs: seq<Vehicle>, d: Direction): (idx: seq<nat>)
    ensures forall k :: 0 <= k < |idx| ==> idx[k] < |vs| && vs[idx[k]].direction == d
    ensures forall i :: 0 <= i < |vs| && vs[i].direction == d ==> i in idx
    ensures forall k1, k2 :: 0 <= k1 < k2 < |idx| ==> idx[k1] < idx[k2]
  {
    if vs == [] then []
    else
      var last := |vs| - 1;
      var front := LaneIndices(vs[..last], d);
      front + (if vs[last].direction == d then [last] else [])
  }

  /** Sort key of `vehicles.sort(key=position, reverse=True)`: front vehicle first. */
  function FrontFirstKey(vs: seq<Vehicle>): nat -> real
  {
    (i: nat) => if i < |vs| then -vs[i].position else 0.0
  }

  /** The lane's vehicles sorted from the largest position to the smallest. */
  function FrontFirst(vs: seq<Vehicle>, idx: seq<nat>): (order: seq<nat>)
  {
    SortBy(idx, FrontFirstKey(vs))
  }

  /** Sorting a lane's indices keeps them indices of the list. */
  lemma FrontFirstInRange(vs: seq<Vehicle>, idx: seq<nat>)
    requires forall k :: 0 <= k < |idx| ==> idx[k] < |vs|
    ensures forall k :: 0 <= k < |FrontFirst(vs, idx)| ==> FrontFirst(vs, idx)[k] < |vs|
  {
    var order := FrontFirst(vs, idx);
    forall k | 0 <= k < |order| ensures order[k] < |vs| {
      assert order[k] in multiset(idx);
    }
  }

  /** The update of one lane: sort its vehicles front first, then follow front to back. */
  function MoveLane(vs: seq<Vehicle>, idx: seq<nat>, p: LaneParams): (r: seq<Vehicle>)
    requires forall k :: 0 <= k < |idx| ==> idx[k] < |vs|
    ensures |r| == |vs|
  {
    FrontFirstInRange(vs, idx);
    FollowLane(vs, FrontFirst(vs, idx), None, p)
  }

  /**
   * `order` lists each vehicle of direction `d` exactly once, and no other,
   * from the largest position to the smallest.
   */
  ghost predicate LaneOrder(vs: seq<Vehicle>, d: Direction, order: seq<nat>)
  {
    && Distinct(order)
    && (forall k :: 0 <= k < |order| ==> order[k] < |vs| && vs[order[k]].direction == d)
    && (forall i :: 0 <= i < |vs| && vs[i].direction == d ==> i in order)
    && (forall k :: 0 < k < |order| ==> vs[order[k - 1]].position >= vs[order[k]].position)
  }

  /** A lane's front-first order lists each of its vehicles exactly once, front to back. */
  lemma {:induction false} FrontFirstOrder(vs: seq<Vehicle>, d: Direction)
    ensures multiset(FrontFirst(vs, LaneIndices(vs, d))) == multiset(LaneIndices(vs, d))
    ensures LaneOrder(vs, d, FrontFirst(vs, LaneIndices(vs, d)))
  {
    var idx := LaneIndices(vs, d);
    SortByDistinct(idx, FrontFirstKey(vs));
    FrontFirstMembers(vs, d, idx, FrontFirst(vs, idx));
    FrontFirstDescending(vs, FrontFirst(vs, idx));
  }

  /** The sorted lane holds exactly the lane's vehicles. */
  lemma FrontFirstMembers(vs: seq<Vehicle>, d: Direction, idx: seq<nat>, order: seq<nat>)
    requires idx == LaneIndices(vs, d) && multiset(order) == multiset(idx)
    ensures forall k :: 0 <= k < |order| ==> order[k] < |vs| && vs[order[k]].direction == d
    ensures forall i :: 0 <= i < |vs| && vs[i].direction == d ==> i in order
  {
    forall k | 0 <= k < |order| ensures order[k] < |vs| && vs[order[k]].direction == d {
      assert order[k] in multiset(idx);
    }
    forall i | 0 <= i < |vs| && vs[i].direction == d ensures i in order {
      assert i in multiset(idx);
    }
  }

  /** The sorted lane runs from the largest position to the smallest. */
  lemma FrontFirstDescending(vs: seq<Vehicle>, order: seq<nat>)
    requires SortedBy(order, FrontFirstKey(vs))
    requires forall k :: 0 <= k < |order| ==> order[k] < |vs|
    ensures forall k :: 0 < k < |order| ==> vs[order[k - 1]].position >= vs[order[k]].position
  {
    forall k | 0 < k < |order| ensures vs[order[k - 1]].position >= vs[order[k]].position {
      assert FrontFirstKey(vs)(order[k - 1]) <= FrontFirstKey(vs)(order[k]);
    }
  }

  /** Two vehicle lists of one length that agree at every index of `idx`. */
  ghost predicate AgreeOn(vs: seq<Vehicle>, ws: seq<Vehicle>, idx: seq<nat>)
  {
    |vs| == |ws| && forall k :: 0 <= k < |idx| ==> idx[k] < |vs| && vs[idx[k]] == ws[idx[k]]
  }

  /** A lane update reads only the vehicles it visits. */
  lemma {:induction false} FollowLaneCongruent(vs: seq<Vehicle>, ws: seq<Vehicle>, order: seq<nat>, leader: Option<real>, p: LaneParams)
    requires AgreeOn(vs, ws, order) && Distinct(order)
    ensures AgreeOn(FollowLane(vs, order, leader, p), FollowLane(ws, order, leader, p), order)
    decreases |order|
  {
    if order != [] {
      var i := order[0];
      var moved := MoveOne(vs[i], leader, p);
      var rest := order[1..];
      var vs1, ws1 := vs[i := moved], ws[i := moved];
      assert AgreeOn(vs1, ws1, rest) by {
        forall k | 0 <= k < |rest| ensures rest[k] < |vs1| && vs1[rest[k]] == ws1[rest[k]] {
          assert rest[k] == order[k + 1];
        }
      }
      FollowLaneCongruent(vs1, ws1, rest, Some(moved.position), p);
      assert i !in rest by {
        forall k | 0 <= k < |rest| ensures rest[k] != i {
          assert rest[k] == order[k + 1];
        }
      }
      FollowLaneFrame(vs1, rest, Some(moved.position), p, i);
      FollowLaneFrame(ws1, rest, Some(moved.position), p, i);
      var r1, r2 := FollowLane(vs, order, leader, p), FollowLane(ws, order, leader, p);
      forall k | 0 <= k < |order| ensures order[k] < |r1| && r1[order[k]] == r2[order[k]] {
        if k > 0 {
          assert order[k] == rest[k - 1];
        }
      }
    }
  }

  /**
   * Updating one lane changes only that lane's vehicles, and what it does to
   * them depends only on them: the lanes do not interact.
   */
  lemma {:induction false} MoveLaneLocal(vs: seq<Vehicle>, ws: seq<Vehicle>, d: Direction, p: LaneParams)
    requires |vs| == |ws|
    requires forall i :: 0 <= i < |vs| ==> vs[i].direction == ws[i].direction
    requires AgreeOn(vs, ws, LaneIndices(vs, d))
    ensures forall j :: 0 <= j < |vs| && vs[j].direction != d ==> MoveLane(vs, LaneIndices(vs, d), p)[j] == vs[j]
    ensures forall j :: 0 <= j < |vs| && vs[j].direction == d ==>
      MoveLane(vs, LaneIndices(vs, d), p)[j] == MoveLane(ws, LaneIndices(vs, d), p)[j]
  {
    var idx := LaneIndices(vs, d);
    var order := FrontFirst(vs, idx);
    FrontFirstOrder(vs, d);
    SortByCongruent(idx, FrontFirstKey(vs), FrontFirstKey(ws));
    assert FrontFirst(ws, idx) == order;
    AgreeOnPermuted(vs, ws, idx, order);
    FollowLaneCongruent(vs, ws, order, None, p);
    OutsideLaneUnchanged(vs, d, order, p);
    forall j | 0 <= j < |vs| && vs[j].direction == d
      ensures MoveLane(vs, idx, p)[j] == MoveLane(ws, idx, p)[j]
    {
      var k :| 0 <= k < |order| && order[k] == j;
    }
  }

  /** Agreeing at the indices of `idx` is agreeing at the indices of any reordering of it. */
  lemma AgreeOnPermuted(vs: seq<Vehicle>, ws: seq<Vehicle>, idx: seq<nat>, order: seq<nat>)
    requires AgreeOn(vs, ws, idx) && multiset(order) == multiset(idx)
    ensures AgreeOn(vs, ws, order)
  {
    forall k | 0 <= k < |order| ensures order[k] < |vs| && vs[order[k]] == ws[order[k]] {
      assert order[k] in multiset(idx);
      var m :| 0 <= m < |idx| && idx[m] == order[k];
    }
  }

  /** A lane update leaves the vehicles of the other directions as they were. */
  lemma OutsideLaneUnchanged(vs: seq<Vehicle>, d: Direction, order: seq<nat>, p: LaneParams)
    requires LaneOrder(vs, d, order)
    ensures forall j :: 0 <= j < |vs| && vs[j].direction != d ==> FollowLane(vs, order, None, p)[j] == vs[j]
  {
    forall j | 0 <= j < |vs| && vs[j].direction != d
      ensures FollowLane(vs, order, None, p)[j] == vs[j]
    {
      FollowLaneFrame(vs, order, None, p, j);
    }
  }

  /** Everything the move phase needs to know about the world besides its vehicles. */
  datatype WorldParams = WorldParams(lights: map<Direction, bool>, net: RoadNetwork, safeGap: real, dt: real)

  ghost predicate Ready(w: WorldParams)
  {
    (forall d: Direction :: d in w.lights) && Complete(w.net)
  }

  /** The parameters of direction `d`'s lane. */
  function ParamsFor(w: WorldParams, d: Direction): LaneParams
    requires Ready(w)
  {
    LaneParams(w.lights[d], GetLane(w.net, d), w.safeGap, w.dt)
  }

  /** The update of one lane on its own, from the vehicles as they were before the move phase. */
  function LaneAlone(vs: seq<Vehicle>, d: Direction, w: WorldParams): (r: seq<Vehicle>)
    requires Ready(w)
    ensures |r| == |vs|
  {
    MoveLane(vs, LaneIndices(vs, d), ParamsFor(w, d))
  }

  /**
   * The move phase: the lanes in the order `todo`, each grouped from the
   * vehicles `vs0` as they were when the phase began and sorted by the
   * positions at the time its turn comes. An empty lane is skipped.
   */
  /** Direction `d`'s turn in the move phase: its lane grouped from `vs0`, sorted and followed on `vs`. */
  function LaneTurn(vs0: seq<Vehicle>, vs: seq<Vehicle>, d: Direction, w: WorldParams): (r: seq<Vehicle>)
    requires Ready(w) && |vs| == |vs0|
    ensures |r| == |vs|
  {
    var idx := LaneIndices(vs0, d);
    if idx == [] then vs else MoveLane(vs, idx, ParamsFor(w, d))
  }

  function MoveAll(vs0: seq<Vehicle>, vs: seq<Vehicle>, todo: seq<Direction>, w: WorldParams): (r: seq<Vehicle>)
    requires Ready(w) && |vs| == |vs0|
    ensures |r| == |vs|
    decreases |todo|
  {
    if todo == [] then vs
    else MoveAll(vs0, LaneTurn(vs0, vs, todo[0], w), todo[1..], w)
  }

  /**
   * One lane's turn, at one vehicle: a vehicle of that lane becomes what the
   * lane's update alone makes it, any other vehicle is left as it was.
   */
  lemma {:induction false} LaneTurnAt(vs0: seq<Vehicle>, vs: seq<Vehicle>, d: Direction, w: WorldParams, j: nat)
    requires Ready(w) && |vs| == |vs0| && j < |vs0|
    requires forall i :: 0 <= i < |vs0| ==> vs[i].direction == vs0[i].direction
    requires forall i :: 0 <= i < |vs0| && vs0[i].direction == d ==> vs[i] == vs0[i]
    ensures var r := LaneTurn(vs0, vs, d, w);
      && r[j].direction == vs0[j].direction
      && r[j] == if vs0[j].direction == d then LaneAlone(vs0, d, w)[j] else vs[j]
  {
    var idx := LaneIndices(vs0, d);
    var p := ParamsFor(w, d);
    LaneIndicesByDirection(vs, vs0, d);
    assert AgreeOn(vs, vs0, idx);
    MoveLaneLocal(vs, vs0, d, p);
    FollowLaneIdentity(vs, FrontFirst(vs, idx), None, p) by {
      FrontFirstOrder(vs, d);
    }
    if vs0[j].direction == d {
      assert j in idx;
    }
  }

  /**
   * Part way through the move phase: the lanes of `todo` have not had their
   * turn yet, and every other vehicle is what its own lane's update alone
   * makes it.
   */
  ghost predicate Pending(vs0: seq<Vehicle>, vs: seq<Vehicle>, todo: seq<Direction>, w: WorldParams)
    requires Ready(w)
  {
    && |vs| == |vs0|
    && forall j :: 0 <= j < |vs0| ==>
         && vs[j].direction == vs0[j].direction
         && vs[j] == if vs0[j].direction in todo then vs0[j] else LaneAlone(vs0, vs0[j].direction, w)[j]
  }

  /** One lane's turn moves it from pending to done. */
  lemma LaneTurnPending(vs0: seq<Vehicle>, vs: seq<Vehicle>, todo: seq<Direction>, w: WorldParams)
    requires Ready(w) && todo != [] && todo[0] !in todo[1..] && Pending(vs0, vs, todo, w)
    ensures Pending(vs0, LaneTurn(vs0, vs, todo[0], w), todo[1..], w)
  {
    var d, rest := todo[0], todo[1..];
    var vs1 := LaneTurn(vs0, vs, d, w);
    forall j | 0 <= j < |vs0|
      ensures vs1[j].direction == vs0[j].direction
      ensures vs1[j] == if vs0[j].direction in rest then vs0[j] else LaneAlone(vs0, vs0[j].direction, w)[j]
    {
      LaneTurnAt(vs0, vs, d, w, j);
      assert vs0[j].direction in todo <==> vs0[j].direction == d || vs0[j].direction in rest;
    }
  }

  /**
   * Processing the lanes one after another gives every vehicle exactly what
   * its own lane's update, done alone, gives it.
   */
  lemma {:induction false} MoveAllGeneral(vs0: seq<Vehicle>, vs: seq<Vehicle>, todo: seq<Direction>, w: WorldParams)
    requires Ready(w) && Distinct(todo) && Pending(vs0, vs, todo, w)
    ensures Pending(vs0, MoveAll(vs0, vs, todo, w), [], w)
    decreases |todo|
  {
    if todo != [] {
      var d, rest := todo[0], todo[1..];
      assert d !in rest by {
        forall k | 0 <= k < |rest| ensures rest[k] != d {
          assert rest[k] == todo[k + 1];
        }
      }
      LaneTurnPending(vs0, vs, todo, w);
      MoveAllGeneral(vs0, LaneTurn(vs0, vs, d, w), rest, w);
    }
  }

  /** The grouping depends only on the directions. */
  lemma {:induction false} LaneIndicesByDirection(vs: seq<Vehicle>, ws: seq<Vehicle>, d: Direction)
    requires |vs| == |ws| && forall j :: 0 <= j < |vs| ==> vs[j].direction == ws[j].direction
    ensures LaneIndices(vs, d) == LaneIndices(ws, d)
    decreases |vs|
  {
    if vs != [] {
      LaneIndicesByDirection(vs[..|vs| - 1], ws[..|ws| - 1], d);
    }
  }

  /** The whole move phase, from the list as it was when the phase began. */
  function MovePhase(vs: seq<Vehicle>, w: WorldParams): (r: seq<Vehicle>)
    requires Ready(w)
    ensures |r| == |vs|
  {
    MoveAll(vs, vs, AllDirections, w)
  }

  /** Lane independence: after the move phase each vehicle is what its own lane's update alone makes it. */
  lemma {:induction false} MovePhaseIsPerLane(vs: seq<Vehicle>, w: WorldParams)
    requires Ready(w)
    ensures forall j :: 0 <= j < |vs| ==> MovePhase(vs, w)[j] == LaneAlone(vs, vs[j].direction, w)[j]
  {
    EnumerationOrder();
    assert Pending(vs, vs, AllDirections, w);
    MoveAllGeneral(vs, vs, AllDirections, w);
  }

  /**
   * After the move phase, the vehicle at position `k` of its lane's
   * front-first order has had exactly one update, whose leader is the vehicle
   * at `k - 1`, already updated (none for the front vehicle).
   */
  lemma {:induction false} MovePhaseAt(vs: seq<Vehicle>, w: WorldParams, d: Direction, k: nat)
    requires Ready(w)
    requires k < |FrontFirst(vs, LaneIndices(vs, d))|
    ensures var order := FrontFirst(vs, LaneIndices(vs, d));
      var r := MovePhase(vs, w);
      && order[k] < |vs| && vs[order[k]].direction == d
      && (k > 0 ==> order[k - 1] < |vs| && vs[order[k - 1]].direction == d)
      && r[order[k]] == MoveOne(vs[order[k]], if k == 0 then None else Some(r[order[k - 1]].position), ParamsFor(w, d))
  {
    MovePhaseIsPerLane(vs, w);
    FrontFirstOrder(vs, d);
    var order := FrontFirst(vs, LaneIndices(vs, d));
    FollowLaneEffect(vs, order, None, ParamsFor(w, d));
  }

  /**
   * What the move phase promises of every vehicle: the same identity, a
   * binary speed, a clamped position, a stop counted on a falling edge of
   * speed only, and no crossing of a red stop line from behind.
   */
  lemma {:induction false} MovePhaseVehicle(vs: seq<Vehicle>, w: WorldParams, j: nat)
    requires Ready(w) && j < |vs|
    ensures var v, r, p := vs[j], MovePhase(vs, w)[j], ParamsFor(w, vs[j].direction);
      && r.(position := v.position, speed := v.speed, stopsCount := v.stopsCount) == v
      && (r.speed == 0.0 || r.speed == v.maxSpeed)
      && 0.0 <= r.position && (p.lane.length + EndMargin >= 0.0 ==> r.position <= p.lane.length + EndMargin)
      && (r.stopsCount == v.stopsCount || r.stopsCount == v.stopsCount + 1)
      && (r.stopsCount == v.stopsCount + 1 <==> v.speed > StandingSpeed && r.speed <= StandingSpeed)
      && (!p.isGreen && 0.0 <= v.position < p.lane.stopLinePos ==> r.position < p.lane.stopLinePos)
  {
    var leader := MovePhaseMovesOnce(vs, w, j);
  }

  /** After the move phase every vehicle is the result of one update of itself, behind some leader or none. */
  lemma MovePhaseMovesOnce(vs: seq<Vehicle>, w: WorldParams, j: nat) returns (leader: Option<real>)
    requires Ready(w) && j < |vs|
    ensures MovePhase(vs, w)[j] == MoveOne(vs[j], leader, ParamsFor(w, vs[j].direction))
  {
    var d := vs[j].direction;
    FrontFirstOrder(vs, d);
    var order := FrontFirst(vs, LaneIndices(vs, d));
    var k :| 0 <= k < |order| && order[k] == j;
    MovePhaseAt(vs, w, d, k);
    leader := if k == 0 then None else Some(MovePhase(vs, w)[order[k - 1]].position);
  }

  /** Vehicle `i` of `r` stays the safe gap behind vehicle `lead`, or stands at the lane's start. */
  ghost predicate KeepsGap(r: seq<Vehicle>, i: nat, lead: nat, gap: real)
  {
    i < |r| && lead < |r| && r[i].position <= Max(0.0, r[lead].position - gap)
  }

  /** In one lane's update every vehicle but the front one keeps the gap behind the one before it. */
  lemma {:induction false} LaneAloneFollower(vs: seq<Vehicle>, w: WorldParams, d: Direction, k: nat)
    requires Ready(w)
    requires 0 < k < |FrontFirst(vs, LaneIndices(vs, d))|
    ensures var order := FrontFirst(vs, LaneIndices(vs, d));
      KeepsGap(LaneAlone(vs, d, w), order[k], order[k - 1], w.safeGap)
  {
    FrontFirstOrder(vs, d);
    var order := FrontFirst(vs, LaneIndices(vs, d));
    var p := ParamsFor(w, d);
    FollowLaneEffect(vs, order, None, p);
    var r := FollowLane(vs, order, None, p);
    assert r == LaneAlone(vs, d, w);
    BehindLeader(r[order[k]], vs[order[k]], r[order[k - 1]].position, p);
  }

  /** The leader clamp of `MoveOne`, on a vehicle already known to be its result. */
  lemma {:induction false} BehindLeader(m: Vehicle, v: Vehicle, leader: real, p: LaneParams)
    requires m == MoveOne(v, Some(leader), p)
    ensures m.position <= Max(0.0, leader - p.safeGap)
  {
  }

  /**
   * Within a lane, after the move phase, each vehicle is no further than
   * `max(0, leader - safe_gap)`, its leader being the next vehicle in front
   * (front-first order, ties in list order) at its already-updated position.
   */
  lemma {:induction false} MovePhaseFollower(vs: seq<Vehicle>, w: WorldParams, d: Direction, k: nat)
    requires Ready(w)
    requires 0 < k < |FrontFirst(vs, LaneIndices(vs, d))|
    ensures var order := FrontFirst(vs, LaneIndices(vs, d));
      KeepsGap(MovePhase(vs, w), order[k], order[k - 1], w.safeGap)
  {
    FrontFirstOrder(vs, d);
    LaneAloneFollower(vs, w, d, k);
    MovePhaseIsPerLane(vs, w);
  }
}
