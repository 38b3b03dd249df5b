/**
 * The vehicle record of the traffic model and the compass directions of
 * its four approach lanes (traffic_sim/model/vehicles.py).
 */
module Vehicles {
  import opened Results

  /** The approach directions; their declaration order is the iteration order. */
  datatype Direction = North | East | South | West
  {
    /** The integer value of the enumeration member. */
    function Index(): (i: nat)
      ensures i < 4
      ensures this == AllDirections[i]
    {
      match this
      case North => 0
      case East => 1
      case South => 2
      case West => 3
    }
  }

  /** `list(Direction)`: the enumeration in its fixed order. */
  const AllDirections: seq<Direction> := [North, East, South, West]

  /** The enumeration lists each direction exactly once, at its own index. */
  lemma EnumerationOrder()
    ensures |AllDirections| == 4
    ensures forall i :: 0 <= i < 4 ==> AllDirections[i].Index() == i
    ensures forall d: Direction :: d in AllDirections
    ensures forall i, j :: 0 <= i < j < 4 ==> AllDirections[i] != AllDirections[j]
  {
    forall d: Direction ensures d in AllDirections {
      assert AllDirections[d.Index()] == d;
    }
  }

  /** A map with the four compass keys has every direction as a key. */
  lemma KeysCoverDirections<V>(m: map<Direction, V>)
    requires North in m && East in m && South in m && West in m
    ensures forall d: Direction :: d in m
  {
    forall d: Direction ensures d in m {
      match d
      case North =>
      case East =>
      case South =>
      case West =>
    }
  }

  /** The bookkeeping-only turning intention: exactly straight, left or right. */
  datatype TurnChoice = Straight | Left | Right

  /**
   * One vehicle. The source declares `turn_choice` without a type annotation,
   * which makes it a class attribute rather than a field of the record, while
   * its creator passes it as a field; the model makes it the intended field.
   * The source's finish-time field is spelled `finihsed_time`, and the reader
   * of finished vehicles asks for `finish_time`; the model has one field.
   */
  datatype Vehicle = Vehicle(
    id: nat,
    direction: Direction,
    turnChoice: TurnChoice,
    position: real,
    speed: real,
    maxSpeed: real,
    spawnTime: real,
    stopsCount: nat,
    finished: bool,
    finishTime: Option<real>)

  /** The record as its constructor builds it, with the defaulted fields at their defaults. */
  function NewVehicle(id: nat, direction: Direction, turn: TurnChoice, position: real,
                      speed: real, maxSpeed: real, spawnTime: real): (v: Vehicle)
    ensures v.stopsCount == 0 && !v.finished && v.finishTime == None
  {
    Vehicle(id, direction, turn, position, speed, maxSpeed, spawnTime, 0, false, None)
  }

  /**
   * `mark_finished(t)`: raises the finished flag and records the finish time,
   * leaving every other field as it was. The source assigns the misspelled
   * attributes `finihsed` and `finihsed_time`, so its `finished` flag never
   * changes; the model sets the flag it evidently means.
   */
  function MarkFinished(v: Vehicle, t: real): (r: Vehicle)
    ensures r.finished && r.finishTime == Some(t)
    ensures r.(finished := v.finished, finishTime := v.finishTime) == v
  {
    v.(finished := true, finishTime := Some(t))
  }
}
