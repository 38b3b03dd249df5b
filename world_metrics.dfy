/**
 * The raw metrics a world keeps about its finished vehicles
 * (`SimulationMetricsRaw` in traffic_sim/model/world_state.py), and the
 * summary computed from them.
 */
module WorldMetrics {
  import opened Results
  import opened Sums
  import opened Vehicles

  /** `(finished_count, avg_travel, avg_stops, throughput_per_min)`. */
  datatype Summary = Summary(count: nat, avgTravel: real, avgStops: real, throughputPerMin: real)

  class SimulationMetricsRaw {
    var finishedTravelTimes: seq<real>
    var finishedStops: seq<nat>
    var finishedCount: nat

    /** Both lists hold one entry per finished vehicle. */
    ghost predicate Valid()
      reads this
    {
      |finishedTravelTimes| == finishedCount && |finishedStops| == finishedCount
    }

    constructor ()
      ensures Valid()
      ensures finishedTravelTimes == [] && finishedStops == [] && finishedCount == 0
    {
      finishedTravelTimes := [];
      finishedStops := [];
      finishedCount := 0;
    }

    /**
     * `record_finished(v, now)`: a vehicle without a finish time is ignored;
     * otherwise its travel time and stop count are appended and the count rises.
     */
    method RecordFinished(v: Vehicle, now: real)
      requires Valid()
      modifies this
      ensures Valid()
      ensures v.finishTime == None ==>
        && finishedCount == old(finishedCount)
        && finishedTravelTimes == old(finishedTravelTimes)
        && finishedStops == old(finishedStops)
      ensures v.finishTime != None ==>
        && finishedCount == old(finishedCount) + 1
        && finishedTravelTimes == old(finishedTravelTimes) + [v.finishTime.value - v.spawnTime]
        && finishedStops == old(finishedStops) + [v.stopsCount]
    {
      if v.finishTime == None {
        return;
      }
      finishedCount := finishedCount + 1;
      finishedTravelTimes := finishedTravelTimes + [v.finishTime.value - v.spawnTime];
      finishedStops := finishedStops + [v.stopsCount];
    }

    /**
     * `compute_summary(total_sim_time)`: all zeros when nothing finished,
     * otherwise the mean travel time, the mean stop count and the finished
     * vehicles per simulated minute. Dividing by a zero total time raises in
     * the source, which is excluded only where it happens (a non-zero count).
     */
    function ComputeSummary(totalSimTime: real): (s: Summary)
      reads this
      requires Valid()
      requires finishedCount > 0 ==> totalSimTime != 0.0
      ensures finishedCount == 0 ==> s == Summary(0, 0.0, 0.0, 0.0)
      ensures finishedCount > 0 ==>
        && s.count == finishedCount
        && s.avgTravel * finishedCount as real == Sum(finishedTravelTimes)
        && s.avgStops * finishedCount as real == SumInt(finishedStops) as real
        && s.throughputPerMin * (totalSimTime / 60.0) == finishedCount as real
    {
      if finishedCount == 0 then
        Summary(0, 0.0, 0.0, 0.0)
      else
        var n := finishedCount as real;
        Summary(
          finishedCount,
          Sum(finishedTravelTimes) / n,
          SumInt(finishedStops) as real / n,
          n / (totalSimTime / 60.0))
    }
  }
}
