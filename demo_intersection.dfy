/**
 * The `Intersection` object of demo_intersection.py: the queues, counters
 * and lights it updates in place, one method per method of the source.
 * Each method is proved to leave the state that the rules of module
 * IntersectionRules prescribe; what those rules guarantee (first-in
 * first-out departures, admissible movement lists, the invariant of the
 * counters) is proved there. `random.random()` is the stream `draw`, read
 * at the cursor `drawn`; it stands for the stream `random.seed(cfg.seed)`
 * starts.
 */
module DemoIntersection {
  import opened Vehicles
  import opened Sorting
  import opened Sums
  import opened IntersectionRules

  class Intersection {
    const cfg: SimConfig
    const draw: nat -> real
    var t: int
    var queues: Queues
    var totalDepartures: int
    var waitTimes: seq<int>
    var maxQLen: PerApproach<int>
    var currentPhase: Phase
    var phaseTimer: int
    var drawn: nat

    /** The current state as a value. */
    function Snap(): Snapshot
      reads this
    {
      Snapshot(t, queues, totalDepartures, waitTimes, maxQLen, currentPhase, phaseTimer, drawn)
    }

    /** The invariant every reachable state keeps. */
    ghost predicate Valid()
      reads this
    {
      Inv(Snap())
    }

    /** `__init__`: empty queues, zero counters, phase NS with its timer at 0. */
    constructor (cfg: SimConfig, draw: nat -> real)
      ensures this.cfg == cfg && this.draw == draw
      ensures Snap() == Initial() && Valid()
    {
      this.cfg := cfg;
      this.draw := draw;
      t := 0;
      queues := PerApproach([], [], [], []);
      totalDepartures := 0;
      waitTimes := [];
      maxQLen := PerApproach(0, 0, 0, 0);
      currentPhase := NS;
      phaseTimer := 0;
      drawn := 0;
      InitialInv();
    }

    /** `random.random()`: the next value of the stream. */
    method Random() returns (r: real)
      modifies this
      ensures r == draw(old(drawn))
      ensures Snap() == old(Snap()).(drawn := old(drawn) + 1)
    {
      r := draw(drawn);
      drawn := drawn + 1;
    }

    /** `_sample_turn`: one draw, matched against the running total of the turn probabilities. */
    method SampleTurn() returns (k: Turn)
      modifies this
      ensures k == SampledTurn(draw(old(drawn)), cfg.spawn.turnProbs)
      ensures Snap() == old(Snap()).(drawn := old(drawn) + 1)
    {
      var r := Random();
      var probs := cfg.spawn.turnProbs;
      var cum := 0.0;
      var i := 0;
      while i < |TurnKeys|
        invariant 0 <= i <= |TurnKeys|
        invariant PickTurn(r, TurnKeys, 0.0, probs) == PickTurn(r, TurnKeys[i..], cum, probs)
      {
        assert TurnKeys[i..][1..] == TurnKeys[i + 1..];
        cum := cum + Prob(probs, TurnKeys[i]);
        if r <= cum {
          return TurnKeys[i];
        }
        i := i + 1;
      }
      return S;
    }

    /** `_spawn_step`: each approach in the order N, E, S, W may gain a car at its back. */
    method SpawnStep()
      modifies this
      ensures Snap() == SpawnFrom(AllDirections, old(Snap()), cfg.spawn, draw)
    {
      EnumerationOrder();
      var i := 0;
      while i < |AllDirections|
        invariant 0 <= i <= |AllDirections|
        invariant SpawnFrom(AllDirections, old(Snap()), cfg.spawn, draw) ==
          SpawnFrom(AllDirections[i..], Snap(), cfg.spawn, draw)
      {
        assert AllDirections[i..][1..] == AllDirections[i + 1..];
        SpawnApproach(AllDirections[i]);
        i := i + 1;
      }
    }

    /** The body of the loop of `_spawn_step`, for approach `d`. */
    method SpawnApproach(d: Direction)
      modifies this
      ensures Snap() == SpawnAt(d, old(Snap()), cfg.spawn, draw)
    {
      var u := Random();
      if u < SpawnProb(cfg.spawn, d) {
        var k := SampleTurn();
        queues := queues.Set(d, queues.Get(d) + [Car(t, k)]);
        maxQLen := maxQLen.Set(d, MaxInt(maxQLen.Get(d), |queues.Get(d)|));
      }
    }

    /** `_advance_phase_fixed`. */
    method AdvancePhaseFixed()
      modifies this
      ensures Snap() == old(Snap()).(phase := Advance(old(currentPhase), old(phaseTimer), cfg.phase).0,
                                     phaseTimer := Advance(old(currentPhase), old(phaseTimer), cfg.phase).1)
    {
      phaseTimer := phaseTimer + 1;
      if currentPhase == NS {
        if phaseTimer >= cfg.phase.greenNs + cfg.phase.amber {
          currentPhase := EW;
          phaseTimer := 0;
        }
      } else {
        if phaseTimer >= cfg.phase.greenEw + cfg.phase.amber {
          currentPhase := NS;
          phaseTimer := 0;
        }
      }
    }

    /** The light-controlled branch: the head of each waiting approach of the axis while capacity lasts. */
    method AxisMovements(axis: seq<Direction>, cap: int) returns (allowed: seq<Movement>)
      ensures allowed == AxisFrom(axis, queues, cap, [])
    {
      allowed := [];
      var i := 0;
      while i < |axis|
        invariant 0 <= i <= |axis|
        invariant AxisFrom(axis, queues, cap, []) == AxisFrom(axis[i..], queues, cap, allowed)
      {
        assert axis[i..][1..] == axis[i + 1..];
        if |allowed| >= cap {
          break;
        }
        var d := axis[i];
        if queues.Get(d) != [] {
          allowed := allowed + [(d, queues.Get(d)[0].turn)];
        }
        i := i + 1;
      }
    }

    /** The `FIRST_COME` branch: collect the heads, sort them by arrival, admit while capacity lasts. */
    method FirstComeMovementList(cap: int) returns (allowed: seq<Movement>)
      ensures allowed == FirstComeMovements(queues, cap)
    {
      var heads := CollectHeads();
      heads := SortBy(heads, HeadKey);
      allowed := AdmitHeads(heads, cap);
    }

    /** The first loop of `FIRST_COME`: `(spawn_t, dir, turn)` of each waiting head, in the order N, E, S, W. */
    method CollectHeads() returns (heads: seq<Head>)
      ensures heads == HeadsFrom(AllDirections, queues)
    {
      EnumerationOrder();
      heads := [];
      var i := 0;
      while i < |AllDirections|
        invariant 0 <= i <= |AllDirections|
        invariant HeadsFrom(AllDirections, queues) == heads + HeadsFrom(AllDirections[i..], queues)
      {
        assert AllDirections[i..][1..] == AllDirections[i + 1..];
        var d := AllDirections[i];
        if queues.Get(d) != [] {
          var h := Head(queues.Get(d)[0].spawnT, d, queues.Get(d)[0].turn);
          assert HeadsFrom(AllDirections[i..], queues) == [h] + HeadsFrom(AllDirections[i + 1..], queues);
          AppendAssoc(heads, [h], HeadsFrom(AllDirections[i + 1..], queues));
          heads := heads + [h];
        }
        i := i + 1;
      }
      assert AllDirections[i..] == [];
    }

    /** The second loop of `FIRST_COME`: the sorted heads in order while capacity lasts. */
    method AdmitHeads(heads: seq<Head>, cap: int) returns (allowed: seq<Movement>)
      ensures allowed == AdmitFrom(heads, cap, [])
    {
      allowed := [];
      var j := 0;
      while j < |heads|
        invariant 0 <= j <= |heads|
        invariant AdmitFrom(heads, cap, []) == AdmitFrom(heads[j..], cap, allowed)
      {
        assert heads[j..][1..] == heads[j + 1..];
        if |allowed| >= cap {
          break;
        }
        allowed := allowed + [(heads[j].dir, heads[j].turn)];
        j := j + 1;
      }
    }

    /** The `RIGHT_PRIORITY` branch: in the order N, E, S, W, a waiting approach yields to its right. */
    method RightPriorityMovements(cap: int) returns (allowed: seq<Movement>)
      ensures allowed == RightPriorityFrom(AllDirections, queues, cap, [], {})
    {
      var order := AllDirections;
      var taken: set<Direction> := {};
      allowed := [];
      var i := 0;
      while i < |order|
        invariant 0 <= i <= |order|
        invariant RightPriorityFrom(order, queues, cap, [], {}) == RightPriorityFrom(order[i..], queues, cap, allowed, taken)
      {
        assert order[i..][1..] == order[i + 1..];
        if |allowed| >= cap {
          break;
        }
        var d := order[i];
        if queues.Get(d) != [] {
          var r := RightOf(d);
          if queues.Get(r) != [] && r !in taken {
            allowed := allowed + [(r, queues.Get(r)[0].turn)];
            taken := taken + {r};
          } else if d !in taken {
            allowed := allowed + [(d, queues.Get(d)[0].turn)];
            taken := taken + {d};
          }
        }
        i := i + 1;
      }
    }

    /**
     * `_choose_allowed_movements`: the movements the mode allows on this
     * tick, cut to capacity; under `SMART_LIGHTS` the phase may then switch.
     */
    method ChooseAllowedMovements() returns (allowed: seq<Movement>)
      modifies this
      ensures allowed == Allowed(cfg, old(Snap()))
      ensures Snap() == AfterChoose(cfg, old(Snap()))
    {
      var cap := cfg.capacityPerTick;
      var ms: seq<Movement>;
      if cfg.mode == FixedLights || cfg.mode == SmartLights {
        ms := AxisMovements(Axis(currentPhase), cap);
        if cfg.mode == SmartLights {
          var qns := |queues.Get(North)| + |queues.Get(South)|;
          var qew := |queues.Get(East)| + |queues.Get(West)|;
          if phaseTimer >= 5 && ((currentPhase == NS && qew > qns + 2) || (currentPhase == EW && qns > qew + 2)) {
            currentPhase := if currentPhase == NS then EW else NS;
            phaseTimer := 0;
          }
        }
      } else if cfg.mode == FirstCome {
        ms := FirstComeMovementList(cap);
      } else {
        ms := RightPriorityMovements(cap);
      }
      allowed := SliceTo(ms, cap);
    }

    /** `_depart`: the head of each allowed approach with a waiting car leaves and its wait is recorded. */
    method Depart(allowed: seq<Movement>)
      modifies this
      ensures Snap() == DepartFrom(allowed, old(Snap()))
    {
      var i := 0;
      while i < |allowed|
        invariant 0 <= i <= |allowed|
        invariant DepartFrom(allowed, old(Snap())) == DepartFrom(allowed[i..], Snap())
      {
        assert allowed[i..][1..] == allowed[i + 1..];
        var d := allowed[i].0;
        if queues.Get(d) != [] {
          var v := queues.Get(d)[0];
          queues := queues.Set(d, queues.Get(d)[1..]);
          var wait := t - v.spawnT;
          waitTimes := waitTimes + [wait];
          totalDepartures := totalDepartures + 1;
        }
        i := i + 1;
      }
    }

    /** `step`: spawn, choose, depart, advance the lights under light control, tick. */
    method Step()
      requires Valid()
      modifies this
      ensures Snap() == StepSpec(cfg, draw, old(Snap()))
      ensures Valid()
    {
      SpawnStep();
      var allowed := ChooseAllowedMovements();
      Depart(allowed);
      if cfg.mode == FixedLights || cfg.mode == SmartLights {
        AdvancePhaseFixed();
      }
      t := t + 1;
      StepInv(cfg, draw, old(Snap()));
    }

    /** `run`: `cfg.steps` steps, then the report on the final state. */
    method Run() returns (stats: RunStats)
      requires Valid()
      modifies this
      ensures Snap() == RunSpec(cfg, draw, old(Snap()), Room(cfg.steps))
      ensures stats == Report(Snap(), cfg.steps)
      ensures Valid()
    {
      Steps(Room(cfg.steps));
      var avgWait := if waitTimes != [] then SumInt(waitTimes) as real / |waitTimes| as real else 0.0;
      var throughput := totalDepartures as real / (if cfg.steps > 1 then cfg.steps else 1) as real;
      var maxQTotal := maxQLen.Get(North) + maxQLen.Get(East) + maxQLen.Get(South) + maxQLen.Get(West);
      stats := RunStats(avgWait, throughput, totalDepartures, maxQLen.Get(North), maxQLen.Get(East),
                        maxQLen.Get(South), maxQLen.Get(West), maxQTotal);
    }

    /** The loop of `run`: `n` calls of `step`. */
    method Steps(n: nat)
      requires Valid()
      modifies this
      ensures Snap() == RunSpec(cfg, draw, old(Snap()), n)
      ensures Valid()
    {
      var i := 0;
      while i < n
        invariant 0 <= i <= n
        invariant Snap() == RunSpec(cfg, draw, old(Snap()), i)
        invariant Valid()
      {
        RunSpecStep(cfg, draw, old(Snap()), i);
        Step();
        i := i + 1;
      }
    }
  }
}
