/**
 * The static lane geometry (traffic_sim/model/road_network.py): one lane per
 * direction, all four with the same geometry, derived from the lane length,
 * the stop line's distance from the centre and the intersection's width.
 */
module RoadNetworks {
  import opened Vehicles

  /** Frozen once built (a frozen dataclass in the source). */
  datatype LaneGeometry = LaneGeometry(
    length: real,
    stopLinePos: real,
    intersectionStart: real,
    intersectionEnd: real)

  datatype RoadNetwork = RoadNetwork(laneLength: real, lanes: map<Direction, LaneGeometry>)

  /** Every direction has a lane. */
  ghost predicate Complete(net: RoadNetwork)
  {
    forall d: Direction :: d in net.lanes
  }

  /** The geometry that the constructor derives from its three parameters. */
  function Geometry(laneLength: real, stopLineFromCenter: real, intersectionWidth: real): (g: LaneGeometry)
    ensures g.length == laneLength
    ensures g.stopLinePos + stopLineFromCenter == laneLength / 2.0
    ensures g.intersectionEnd - g.intersectionStart == intersectionWidth
    ensures g.intersectionStart + g.intersectionEnd == laneLength
    ensures stopLineFromCenter >= intersectionWidth / 2.0 <==> g.stopLinePos <= g.intersectionStart
  {
    var center := laneLength / 2.0;
    LaneGeometry(
      laneLength,
      center - stopLineFromCenter,
      center - intersectionWidth / 2.0,
      center + intersectionWidth / 2.0)
  }

  /** `RoadNetwork(lane_length, stop_line_from_center, intersection_width)`. */
  function Build(laneLength: real, stopLineFromCenter: real, intersectionWidth: real): (net: RoadNetwork)
    ensures Complete(net)
    ensures forall d: Direction :: net.lanes[d] == Geometry(laneLength, stopLineFromCenter, intersectionWidth)
  {
    var geom := Geometry(laneLength, stopLineFromCenter, intersectionWidth);
    EnumerationOrder();
    RoadNetwork(laneLength, map d: Direction | d in AllDirections :: geom)
  }

  /** The constructor's default arguments. */
  function DefaultNetwork(): RoadNetwork
  {
    Build(100.0, 5.0, 10.0)
  }

  /**
   * `get_lane(direction)`: the dictionary lookup. In the source this function
   * is indented inside the constructor, so it is a local function there and
   * not a method of the network; the model gives it the intended meaning.
   */
  function GetLane(net: RoadNetwork, d: Direction): (g: LaneGeometry)
    requires d in net.lanes
  {
    net.lanes[d]
  }

  /** On a constructed network every direction's lane is the one shared geometry. */
  lemma GetLaneOfBuilt(laneLength: real, stopLineFromCenter: real, intersectionWidth: real, d1: Direction, d2: Direction)
    ensures var net := Build(laneLength, stopLineFromCenter, intersectionWidth);
      && GetLane(net, d1) == GetLane(net, d2)
      && GetLane(net, d1).stopLinePos == laneLength / 2.0 - stopLineFromCenter
      && GetLane(net, d1).intersectionStart == laneLength / 2.0 - intersectionWidth / 2.0
      && GetLane(net, d1).intersectionEnd == laneLength / 2.0 + intersectionWidth / 2.0
  {
  }

  /** With the defaults (100, 5, 10) the stop line sits at 45, the intersection start, and the intersection ends at 55. */
  lemma DefaultGeometry(d: Direction)
    ensures var g := GetLane(DefaultNetwork(), d);
      g.length == 100.0 && g.stopLinePos == 45.0 && g.intersectionStart == 45.0 && g.intersectionEnd == 55.0
  {
  }
}
