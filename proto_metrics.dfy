/**
 * The run metrics of the array prototype (src/model/metrics.py): counters
 * a run updates in place, the per-approach maximum queue lengths, and the
 * summary it reports at the end.
 */
module ProtoMetrics {
  /** The approach keys, in the order `update_queue` visits them. */
  const ApproachKeys: string := "NSEW"

  /** `queues.get(d, 0)`: a missing approach has an empty queue. */
  function QueueLen(queues: map<char, int>, d: char): int
  {
    if d in queues then queues[d] else 0
  }

  function MaxInt(a: int, b: int): int { if a >= b then a else b }

  /**
   * The maxima after `update_queue(queues)`: each approach key keeps the
   * larger of its old maximum and its current queue length; any other key
   * is left alone.
   */
  function RaisedMaxima(mq: map<char, int>, queues: map<char, int>): (r: map<char, int>)
  {
    map c | c in mq :: if c in ApproachKeys then MaxInt(mq[c], QueueLen(queues, c)) else mq[c]
  }

  /**
   * `update_queue` never lowers a maximum, reaches each current queue
   * length, and takes no value other than the old maximum or that length.
   */
  lemma RaisedMaximaBound(mq: map<char, int>, queues: map<char, int>, d: char)
    requires d in mq && d in ApproachKeys
    ensures d in RaisedMaxima(mq, queues)
    ensures RaisedMaxima(mq, queues)[d] >= mq[d]
    ensures RaisedMaxima(mq, queues)[d] >= QueueLen(queues, d)
    ensures RaisedMaxima(mq, queues)[d] == mq[d] || RaisedMaxima(mq, queues)[d] == QueueLen(queues, d)
  {
  }

  /** Raising twice with the same queues is raising once. */
  lemma RaisedMaximaIdempotent(mq: map<char, int>, queues: map<char, int>)
    ensures RaisedMaxima(RaisedMaxima(mq, queues), queues) == RaisedMaxima(mq, queues)
  {
    var once := RaisedMaxima(mq, queues);
    assert once.Keys == mq.Keys;
    forall c | c in once
      ensures RaisedMaxima(once, queues)[c] == once[c]
    {
    }
  }

  /** What `summary` returns. */
  datatype Summary = Summary(departures: int, throughputVehPerMin: real, avgTravelTimeS: real,
                             avgStopsPerVehicle: real, maxQueuePerApproach: map<char, int>)

  class Metrics {
    var departures: int
    var totalTravelTime: real
    var totalStops: int
    var maxQueue: map<char, int>

    /** Each of the four approach keys has a maximum (`update_queue` reads them all). */
    ghost predicate Valid()
      reads this
    {
      forall c :: c in ApproachKeys ==> c in maxQueue
    }

    /** A fresh record: no departures, zero totals, zero maxima for N, S, E and W. */
    constructor ()
      ensures departures == 0 && totalTravelTime == 0.0 && totalStops == 0
      ensures maxQueue == map['N' := 0, 'S' := 0, 'E' := 0, 'W' := 0]
      ensures Valid()
    {
      departures := 0;
      totalTravelTime := 0.0;
      totalStops := 0;
      maxQueue := map['N' := 0, 'S' := 0, 'E' := 0, 'W' := 0];
    }

    /** `record_departure`: one more departure, its travel time and its stops added to the totals. */
    method RecordDeparture(travelTime: real, stops: int)
      modifies this
      ensures departures == old(departures) + 1
      ensures totalTravelTime == old(totalTravelTime) + travelTime
      ensures totalStops == old(totalStops) + stops
      ensures maxQueue == old(maxQueue)
    {
      departures := departures + 1;
      totalTravelTime := totalTravelTime + travelTime;
      totalStops := totalStops + stops;
    }

    /** `update_queue`: for N, S, E and W in turn, the maximum is raised to the current queue length. */
    method UpdateQueue(queues: map<char, int>)
      requires Valid()
      modifies this
      ensures maxQueue == RaisedMaxima(old(maxQueue), queues)
      ensures departures == old(departures) && totalTravelTime == old(totalTravelTime)
      ensures totalStops == old(totalStops)
      ensures Valid()
    {
      var i := 0;
      while i < |ApproachKeys|
        invariant 0 <= i <= |ApproachKeys|
        invariant maxQueue.Keys == old(maxQueue).Keys
        invariant departures == old(departures) && totalTravelTime == old(totalTravelTime)
        invariant totalStops == old(totalStops)
        invariant forall c :: c in maxQueue ==>
          maxQueue[c] == if c in ApproachKeys[..i] then MaxInt(old(maxQueue)[c], QueueLen(queues, c)) else old(maxQueue)[c]
      {
        var d := ApproachKeys[i];
        assert ApproachKeys[..i + 1] == ApproachKeys[..i] + [d];
        maxQueue := maxQueue[d := MaxInt(maxQueue[d], QueueLen(queues, d))];
        i := i + 1;
      }
      assert ApproachKeys[..i] == ApproachKeys;
      assert maxQueue.Keys == RaisedMaxima(old(maxQueue), queues).Keys;
    }

    /**
     * `summary(sim_minutes)`: the mean travel time and stops per departed
     * vehicle (0.0 when none departed) and the departures per minute (0.0
     * unless the simulated time is positive).
     */
    function Summarize(simMinutes: real): (r: Summary)
      reads this
      ensures r.departures == departures && r.maxQueuePerApproach == maxQueue
      ensures departures == 0 ==> r.avgTravelTimeS == 0.0 && r.avgStopsPerVehicle == 0.0
      ensures departures != 0 ==> r.avgTravelTimeS == totalTravelTime / departures as real
      ensures departures != 0 ==> r.avgStopsPerVehicle == totalStops as real / departures as real
      ensures simMinutes > 0.0 ==> r.throughputVehPerMin == departures as real / simMinutes
      ensures simMinutes <= 0.0 ==> r.throughputVehPerMin == 0.0
    {
      var avgT := if departures == 0 then 0.0 else totalTravelTime / departures as real;
      var avgS := if departures == 0 then 0.0 else totalStops as real / departures as real;
      var throughput := if simMinutes > 0.0 then departures as real / simMinutes else 0.0;
      Summary(departures, throughput, avgT, avgS, maxQueue)
    }
  }

  /**
   * With non-negative totals every figure of the summary is non-negative:
   * the departures, the throughput and both averages.
   */
  lemma SummaryNonNegative(m: Metrics, simMinutes: real)
    requires m.departures >= 0 && m.totalTravelTime >= 0.0 && m.totalStops >= 0
    ensures var r := m.Summarize(simMinutes);
      && r.departures >= 0 && r.throughputVehPerMin >= 0.0
      && r.avgTravelTimeS >= 0.0 && r.avgStopsPerVehicle >= 0.0
  {
  }
}
