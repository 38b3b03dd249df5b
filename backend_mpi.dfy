/**
 * The bookkeeping of the MPI backend (traffic_sim/backends/backend_mpi.py):
 * the round-robin assignment of directions to ranks, the per-rank seed, the
 * sum and max reductions of the per-rank metrics onto rank 0, the averages
 * rank 0 computes, and the broadcast that gives every rank rank 0's figures.
 * The collectives themselves are folds over the sequence of per-rank
 * records, indexed by rank.
 */
module MpiBackend {
  import opened Results
  import opened Sums
  import opened Vehicles
  import opened Spawning

  /** `max(size, 1)`: the modulus of the round-robin assignment. */
  function Modulus(size: int): (m: nat)
    ensures m >= 1 && m >= size
  {
    if size > 1 then size else 1
  }

  /** The rank that owns the direction at enumeration index `i`. */
  function Owner(i: nat, size: int): (r: nat)
    ensures r < Modulus(size) && r <= i
  {
    i % Modulus(size)
  }

  /**
   * The directions from enumeration index `i` on that `rank` owns, in
   * enumeration order.
   */
  function ActiveFrom(i: nat, size: int, rank: int): (ds: seq<Direction>)
    requires i <= 4
    ensures forall d :: d in ds <==> i <= d.Index() && Owner(d.Index(), size) == rank
    ensures Increasing(ds)
    ensures ds != [] ==> i <= ds[0].Index()
    decreases 4 - i
  {
    if i == 4 then []
    else if Owner(i, size) == rank then [AllDirections[i]] + ActiveFrom(i + 1, size, rank)
    else ActiveFrom(i + 1, size, rank)
  }

  /**
   * `active_dirs`: the directions whose enumeration index is congruent to
   * the rank modulo `max(size, 1)`, in enumeration order.
   */
  function ActiveDirections(size: int, rank: int): (ds: seq<Direction>)
    ensures forall d :: d in ds <==> Owner(d.Index(), size) == rank
    ensures Increasing(ds)
  {
    ActiveFrom(0, size, rank)
  }

  /** Among the ranks of a run, every direction is simulated by exactly one. */
  lemma EachDirectionOneOwner(size: int, d: Direction)
    requires size >= 1
    ensures exists r :: 0 <= r < size && d in ActiveDirections(size, r)
    ensures forall r1, r2 :: d in ActiveDirections(size, r1) && d in ActiveDirections(size, r2) ==> r1 == r2
  {
    assert d in ActiveDirections(size, Owner(d.Index(), size));
  }

  /** A single rank simulates the whole crossing, in enumeration order. */
  lemma SingleRankOwnsAll()
    ensures ActiveDirections(1, 0) == AllDirections
  {
    SingleRankFrom(0);
    assert AllDirections[0..] == AllDirections;
  }

  /** A single rank owns every direction from index `i` on. */
  lemma {:induction false} SingleRankFrom(i: nat)
    requires i <= 4
    ensures ActiveFrom(i, 1, 0) == AllDirections[i..]
    decreases 4 - i
  {
    if i < 4 {
      SingleRankFrom(i + 1);
      assert AllDirections[i..] == [AllDirections[i]] + AllDirections[i + 1..];
    }
  }

  /** With more ranks than directions, a rank numbered 4 or above simulates an empty world. */
  lemma {:induction false} IdleRanks(size: int, rank: int)
    requires rank >= 4
    ensures ActiveDirections(size, rank) == []
  {
    IdleFrom(0, size, rank);
  }

  /** No direction from index `i` on belongs to a rank numbered 4 or above. */
  lemma {:induction false} IdleFrom(i: nat, size: int, rank: int)
    requires i <= 4 && rank >= 4
    ensures ActiveFrom(i, size, rank) == []
    decreases 4 - i
  {
    if i < 4 {
      IdleFrom(i + 1, size, rank);
    }
  }

  /** `random_seed + rank`: the seed each rank gives its world. */
  function RankSeed(randomSeed: int, rank: nat): (s: int)
    ensures s >= randomSeed
  {
    randomSeed + rank
  }

  /** Different ranks draw from differently seeded streams. */
  lemma DistinctSeeds(randomSeed: int, r1: nat, r2: nat)
    requires r1 != r2
    ensures RankSeed(randomSeed, r1) != RankSeed(randomSeed, r2)
  {
  }

  /**
   * The world a rank would run spawns vehicles on its own directions only.
   * (The source passes the directions to the world as `active_directions`,
   * a parameter the world does not take; the spawn plan over the rank's
   * directions is the evident intent.)
   */
  lemma RankSpawnsOwnLanes(size: int, rank: int, count: nat, p: SpawnParams,
                           draw: nat -> real, cursor: nat, nextId: nat)
    ensures forall k :: 0 <= k < |SpawnFrom(ActiveDirections(size, rank), count, p, draw, cursor, nextId).added| ==>
      Owner(SpawnFrom(ActiveDirections(size, rank), count, p, draw, cursor, nextId).added[k].direction.Index(), size) == rank
  {
    SpawnFromFresh(ActiveDirections(size, rank), count, p, draw, cursor, nextId);
  }

  /**
   * What one rank contributes: its world's finished travel times and stop
   * counts, how many finished, how many it spawned, and its wall time.
   */
  datatype RankMetrics = RankMetrics(finished: nat, travelTimes: seq<real>, stops: seq<nat>, spawned: nat, wall: real)

  /** The reduced figures: four sums and a maximum. */
  datatype Totals = Totals(finished: nat, sumTravel: real, sumStops: real, spawned: nat, wall: real)

  /** One rank's local figures, before any reduction. */
  function Local(m: RankMetrics): (t: Totals)
    ensures t.finished == m.finished && t.spawned == m.spawned && t.wall == m.wall
    ensures t.sumTravel == Sum(m.travelTimes) && t.sumStops == SumInt(m.stops) as real
  {
    Totals(m.finished, Sum(m.travelTimes), SumInt(m.stops) as real, m.spawned, m.wall)
  }

  /** `MPI.SUM` on the counts and sums, `MPI.MAX` on the wall time. */
  function Combine(a: Totals, b: Totals): (c: Totals)
  {
    Totals(a.finished + b.finished, a.sumTravel + b.sumTravel, a.sumStops + b.sumStops,
           a.spawned + b.spawned, if a.wall >= b.wall then a.wall else b.wall)
  }

  /** The reduction onto rank 0 over ranks `0 .. |ranks| - 1`. */
  function Reduce(ranks: seq<RankMetrics>): (t: Totals)
    requires |ranks| > 0
  {
    if |ranks| == 1 then Local(ranks[0])
    else Combine(Reduce(ranks[..|ranks| - 1]), Local(ranks[|ranks| - 1]))
  }

  /** All ranks' travel times, rank after rank. */
  function AllTravel(ranks: seq<RankMetrics>): (xs: seq<real>)
  {
    if ranks == [] then [] else AllTravel(ranks[..|ranks| - 1]) + ranks[|ranks| - 1].travelTimes
  }

  /** All ranks' stop counts, rank after rank. */
  function AllStops(ranks: seq<RankMetrics>): (xs: seq<nat>)
  {
    if ranks == [] then [] else AllStops(ranks[..|ranks| - 1]) + ranks[|ranks| - 1].stops
  }

  /** A rank whose finished count is the length of its lists. */
  ghost predicate Consistent(ranks: seq<RankMetrics>)
  {
    forall k :: 0 <= k < |ranks| ==>
      ranks[k].finished == |ranks[k].travelTimes| && ranks[k].finished == |ranks[k].stops|
  }

  /**
   * The reduced sums are the sums of the merged per-rank lists, so the
   * distributed run accounts for every finished vehicle exactly once.
   */
  lemma {:induction false} ReduceMerged(ranks: seq<RankMetrics>)
    requires |ranks| > 0
    ensures Reduce(ranks).sumTravel == Sum(AllTravel(ranks))
    ensures Reduce(ranks).sumStops == SumInt(AllStops(ranks)) as real
    ensures Consistent(ranks) ==>
      Reduce(ranks).finished == |AllTravel(ranks)| && Reduce(ranks).finished == |AllStops(ranks)|
    decreases |ranks|
  {
    var n := |ranks|;
    if n == 1 {
      assert ranks[..0] == [];
      assert AllTravel(ranks) == ranks[0].travelTimes by {
        assert AllTravel(ranks) == [] + ranks[0].travelTimes;
      }
      assert AllStops(ranks) == ranks[0].stops by {
        assert AllStops(ranks) == [] + ranks[0].stops;
      }
    } else {
      var front := ranks[..n - 1];
      ReduceMerged(front);
      SumConcat(AllTravel(front), ranks[n - 1].travelTimes);
      SumIntConcat(AllStops(front), ranks[n - 1].stops);
      if Consistent(ranks) {
        assert Consistent(front);
      }
    }
  }

  /** The reduced wall time is the slowest rank's: no rank exceeds it and some rank attains it. */
  lemma {:induction false} ReduceWallIsMax(ranks: seq<RankMetrics>)
    requires |ranks| > 0
    ensures forall k :: 0 <= k < |ranks| ==> ranks[k].wall <= Reduce(ranks).wall
    ensures exists k :: 0 <= k < |ranks| && ranks[k].wall == Reduce(ranks).wall
    decreases |ranks|
  {
    var n := |ranks|;
    if n == 1 {
      assert ranks[0].wall == Reduce(ranks).wall;
    } else {
      var front := ranks[..n - 1];
      ReduceWallIsMax(front);
      var j :| 0 <= j < |front| && front[j].wall == Reduce(front).wall;
      if Reduce(front).wall >= ranks[n - 1].wall {
        assert ranks[j].wall == Reduce(ranks).wall;
      } else {
        assert ranks[n - 1].wall == Reduce(ranks).wall;
      }
    }
  }

  /** Adding ranks extends the reduction by combining: the fold does not depend on how ranks are grouped. */
  lemma {:induction false} ReduceAppend(a: seq<RankMetrics>, b: seq<RankMetrics>)
    requires |a| > 0 && |b| > 0
    ensures Reduce(a + b) == Combine(Reduce(a), Reduce(b))
    decreases |b|
  {
    var ab := a + b;
    if |b| == 1 {
      assert ab[..|ab| - 1] == a;
    } else {
      var b' := b[..|b| - 1];
      assert ab[..|ab| - 1] == a + b';
      ReduceAppend(a, b');
    }
  }

  /** `(global_finished, avg_travel, avg_stops, throughput, global_spawned, global_wall)`. */
  datatype GlobalData = GlobalData(completed: nat, avgTravel: real, avgStops: real, throughput: real,
                                   spawned: nat, wall: real)

  /**
   * Rank 0's figures: with nothing finished all three rates are 0.0;
   * otherwise the mean travel time, the mean stop count, and the finished
   * vehicles per simulated minute. The division by a zero total time
   * raises in the source and is excluded only where it happens.
   */
  function RootData(t: Totals, totalTime: real): (g: GlobalData)
    requires t.finished > 0 ==> totalTime != 0.0
    ensures g.completed == t.finished && g.spawned == t.spawned && g.wall == t.wall
    ensures t.finished == 0 ==> g.avgTravel == 0.0 && g.avgStops == 0.0 && g.throughput == 0.0
    ensures t.finished > 0 ==>
      && g.avgTravel * t.finished as real == t.sumTravel
      && g.avgStops * t.finished as real == t.sumStops
      && g.throughput * (totalTime / 60.0) == t.finished as real
  {
    if t.finished > 0 then
      var n := t.finished as real;
      GlobalData(t.finished, t.sumTravel / n, t.sumStops / n, n / (totalTime / 60.0), t.spawned, t.wall)
    else
      GlobalData(t.finished, 0.0, 0.0, 0.0, t.spawned, t.wall)
  }

  /**
   * What each rank holds before the broadcast: `reduce` delivers the totals
   * on rank 0 only, so only rank 0 has figures worth sending.
   */
  function BeforeBroadcast(rank: nat, ranks: seq<RankMetrics>, totalTime: real): (g: Option<GlobalData>)
    requires |ranks| > 0
    requires Reduce(ranks).finished > 0 ==> totalTime != 0.0
    ensures rank == 0 <==> g.Some?
    ensures rank == 0 ==> g.value == RootData(Reduce(ranks), totalTime)
  {
    if rank == 0 then Some(RootData(Reduce(ranks), totalTime)) else None
  }

  /** `bcast(root=0)`: every rank ends up with the root's value. */
  function Broadcast<T>(held: seq<T>): (got: seq<T>)
    requires |held| > 0
    ensures |got| == |held| && forall k :: 0 <= k < |got| ==> got[k] == held[0]
  {
    seq(|held|, k => held[0])
  }

  /** The `SimulationResult` one rank returns, with its debug counters. */
  datatype RankResult = RankResult(backend: string, wallTime: real, totalSimulatedTime: real,
                                   completed: nat, avgTravel: real, avgStops: real, throughput: real,
                                   numRanks: nat, rank: nat, localSpawned: nat, localFinished: nat,
                                   globalSpawned: nat)

  /** Rank `r`'s result from the broadcast figures and its own counters. */
  function ResultOn(r: nat, size: nat, m: RankMetrics, g: GlobalData, totalTime: real): (res: RankResult)
    ensures res.rank == r && res.numRanks == size && res.backend == "mpi"
    ensures res.localSpawned == m.spawned && res.localFinished == m.finished
    ensures res.completed == g.completed && res.wallTime == g.wall && res.globalSpawned == g.spawned
    ensures res.avgTravel == g.avgTravel && res.avgStops == g.avgStops && res.throughput == g.throughput
    ensures res.totalSimulatedTime == totalTime
  {
    RankResult("mpi", g.wall, totalTime, g.completed, g.avgTravel, g.avgStops, g.throughput,
               size, r, m.spawned, m.finished, g.spawned)
  }

  /** The results of all ranks of a run: each rank's own counters around the broadcast figures. */
  function RunResults(ranks: seq<RankMetrics>, totalTime: real): (rs: seq<RankResult>)
    requires |ranks| > 0
    requires Reduce(ranks).finished > 0 ==> totalTime != 0.0
    ensures |rs| == |ranks|
    ensures forall r :: 0 <= r < |rs| ==>
      rs[r] == ResultOn(r, |ranks|, ranks[r], RootData(Reduce(ranks), totalTime), totalTime)
  {
    var held := seq(|ranks|, r requires 0 <= r < |ranks| => BeforeBroadcast(r, ranks, totalTime));
    var got := Broadcast(held);
    seq(|ranks|, r requires 0 <= r < |ranks| => ResultOn(r, |ranks|, ranks[r], got[r].value, totalTime))
  }

  /** Two results carry the same global figures. */
  ghost predicate SameGlobal(a: RankResult, b: RankResult)
  {
    && a.completed == b.completed && a.avgTravel == b.avgTravel && a.avgStops == b.avgStops
    && a.throughput == b.throughput && a.wallTime == b.wallTime && a.globalSpawned == b.globalSpawned
  }

  /**
   * Every rank reports rank 0's figures: the global completed count, the
   * averages, the throughput, the slowest wall time and the global spawn
   * count; only the debug counters are the rank's own.
   */
  lemma AllRanksReportRoot(ranks: seq<RankMetrics>, totalTime: real, r: nat)
    requires |ranks| > 0
    requires Reduce(ranks).finished > 0 ==> totalTime != 0.0
    requires r < |ranks|
    ensures SameGlobal(RunResults(ranks, totalTime)[r], RunResults(ranks, totalTime)[0])
    ensures RunResults(ranks, totalTime)[r].rank == r
    ensures RunResults(ranks, totalTime)[r].localFinished == ranks[r].finished
    ensures RunResults(ranks, totalTime)[r].localSpawned == ranks[r].spawned
    ensures RunResults(ranks, totalTime)[r].completed == Reduce(ranks).finished
    ensures RunResults(ranks, totalTime)[r].wallTime == Reduce(ranks).wall
    ensures RunResults(ranks, totalTime)[r].globalSpawned == Reduce(ranks).spawned
  {
  }

  /**
   * When every rank is consistent and something finished, the reported
   * averages are those of the merged lists: the same figures one world
   * holding all the finished vehicles would summarise.
   */
  lemma {:induction false} ReportedAveragesMerged(ranks: seq<RankMetrics>, totalTime: real, r: nat)
    requires |ranks| > 0 && Consistent(ranks)
    requires Reduce(ranks).finished > 0 && totalTime != 0.0
    requires r < |ranks|
    ensures |AllTravel(ranks)| == Reduce(ranks).finished && |AllStops(ranks)| == Reduce(ranks).finished
    ensures RunResults(ranks, totalTime)[r].completed == |AllTravel(ranks)|
    ensures RunResults(ranks, totalTime)[r].avgTravel == Sum(AllTravel(ranks)) / |AllTravel(ranks)| as real
    ensures RunResults(ranks, totalTime)[r].avgStops == SumInt(AllStops(ranks)) as real / |AllStops(ranks)| as real
  {
    var t := Reduce(ranks);
    var g := RootData(t, totalTime);
    ReduceMerged(ranks);
    assert RunResults(ranks, totalTime)[r] == ResultOn(r, |ranks|, ranks[r], g, totalTime);
    assert g.avgTravel == t.sumTravel / t.finished as real;
    assert g.avgStops == t.sumStops / t.finished as real;
  }
}
