/**
 * The rules of the queue-based intersection (demo_intersection.py) as
 * functions on a snapshot of its state: four FIFO queues, one per approach,
 * a per-tick capacity, four control modes and a two-phase light with a
 * timer. The `Intersection` class of module DemoIntersection is proved to
 * follow these functions; the lemmas here state what the rules guarantee.
 */
module IntersectionRules {
  import opened Vehicles
  import opened Sorting
  import opened Sums

  /** `ControlMode`: fixed-cycle lights, yield to the right, first come first served, adaptive lights. */
  datatype ControlMode = FixedLights | RightPriority | FirstCome | SmartLights

  /** `PhaseConfig`: green lengths of the two axes and the amber gap, in ticks. */
  datatype PhaseConfig = PhaseConfig(greenNs: int, greenEw: int, amber: int)

  /** `turn_probs`: the probability of each of the keys "L", "S" and "R". */
  datatype TurnProbs = TurnProbs(left: real, straight: real, right: real)

  /** `SpawnConfig`: the per-tick arrival probability of each approach and the turn distribution. */
  datatype SpawnConfig = SpawnConfig(pN: real, pE: real, pS: real, pW: real, turnProbs: TurnProbs)

  /** `SimConfig`. */
  datatype SimConfig = SimConfig(steps: int, seed: int, mode: ControlMode, phase: PhaseConfig,
                                 spawn: SpawnConfig, capacityPerTick: int)

  /** A manoeuvre: left, straight or right. */
  datatype Turn = L | S | R

  /** A queued vehicle: the tick it arrived and its manoeuvre. */
  datatype Car = Car(spawnT: int, turn: Turn)

  /** The light phase: the north-south axis or the east-west axis has green. */
  datatype Phase = NS | EW

  /** An allowed movement: an approach and the manoeuvre of its head vehicle. */
  type Movement = (Direction, Turn)

  /**
   * A dictionary keyed by the four approach keys "N", "E", "S" and "W",
   * which never gains or loses a key: one entry per approach.
   */
  datatype PerApproach<T> = PerApproach(north: T, east: T, south: T, west: T)
  {
    /** `d[key]`. */
    function Get(d: Direction): T
    {
      match d
      case North => north
      case East => east
      case South => south
      case West => west
    }

    /** `d[key] = v`: that entry replaced, every other entry kept. */
    function Set(d: Direction, v: T): (r: PerApproach<T>)
      ensures r.Get(d) == v
      ensures forall e :: e != d ==> r.Get(e) == Get(e)
    {
      match d
      case North => this.(north := v)
      case East => this.(east := v)
      case South => this.(south := v)
      case West => this.(west := v)
    }
  }

  type Queues = PerApproach<seq<Car>>

  /** The state of an `Intersection` apart from its configuration; `drawn` counts random draws used. */
  datatype Snapshot = Snapshot(t: int, queues: Queues, totalDepartures: int, waitTimes: seq<int>,
                               maxQLen: PerApproach<int>, phase: Phase, phaseTimer: int, drawn: nat)

  /** The state after `__init__`: empty queues, zero counters, phase NS with its timer at 0. */
  function Initial(): (s: Snapshot)
  {
    Snapshot(0, PerApproach([], [], [], []), 0, [], PerApproach(0, 0, 0, 0), NS, 0, 0)
  }

  // ---------------------------------------------------------------- spawning

  /** The keys `_sample_turn` tries, in order. */
  const TurnKeys: seq<Turn> := [L, S, R]

  function Prob(probs: TurnProbs, k: Turn): real
  {
    match k
    case L => probs.left
    case S => probs.straight
    case R => probs.right
  }

  /** The loop of `_sample_turn` from the keys `keys` on, with running total `cum`. */
  function PickTurn(r: real, keys: seq<Turn>, cum: real, probs: TurnProbs): (k: Turn)
    decreases |keys|
  {
    if keys == [] then S
    else if r <= cum + Prob(probs, keys[0]) then keys[0]
    else PickTurn(r, keys[1..], cum + Prob(probs, keys[0]), probs)
  }

  /**
   * `_sample_turn` for the draw `r`: the first key whose cumulative
   * probability reaches `r`, and straight when none does.
   */
  function SampledTurn(r: real, probs: TurnProbs): (k: Turn)
    ensures k == L <==> r <= probs.left
    ensures k == R <==>
      probs.left < r && probs.left + probs.straight < r <= probs.left + probs.straight + probs.right
    ensures k == S <==>
      probs.left < r && !(probs.left + probs.straight < r <= probs.left + probs.straight + probs.right)
  {
    assert TurnKeys[1..] == [S, R] && TurnKeys[1..][1..] == [R] && TurnKeys[1..][1..][1..] == [];
    PickTurn(r, TurnKeys, 0.0, probs)
  }

  /** The arrival probability of an approach, as `_spawn_step` zips them. */
  function SpawnProb(sp: SpawnConfig, d: Direction): real
  {
    match d
    case North => sp.pN
    case East => sp.pE
    case South => sp.pS
    case West => sp.pW
  }

  function MaxInt(a: int, b: int): int { if a >= b then a else b }

  /**
   * One pass of the loop of `_spawn_step`, for approach `d`: one draw
   * decides an arrival; an arriving car takes the next draw for its turn,
   * joins the back of the queue, and the queue's maximum length is updated.
   */
  function SpawnAt(d: Direction, s: Snapshot, sp: SpawnConfig, draw: nat -> real): Snapshot
  {
    if draw(s.drawn) < SpawnProb(sp, d) then
      var q := s.queues.Get(d) + [Car(s.t, SampledTurn(draw(s.drawn + 1), sp.turnProbs))];
      s.(queues := s.queues.Set(d, q), maxQLen := s.maxQLen.Set(d, MaxInt(s.maxQLen.Get(d), |q|)), drawn := s.drawn + 2)
    else
      s.(drawn := s.drawn + 1)
  }

  /** `_spawn_step` over the approaches `ds`, in order. */
  function SpawnFrom(ds: seq<Direction>, s: Snapshot, sp: SpawnConfig, draw: nat -> real): Snapshot
    decreases |ds|
  {
    if ds == [] then s else SpawnFrom(ds[1..], SpawnAt(ds[0], s, sp, draw), sp, draw)
  }

  // ------------------------------------------------------------------ phases

  function Other(p: Phase): Phase
  {
    if p == NS then EW else NS
  }

  /**
   * `_advance_phase_fixed`: the timer counts up; once it reaches the green
   * time of the current axis plus the amber gap the other axis gets green
   * and the timer restarts at 0.
   */
  function Advance(phase: Phase, timer: int, pc: PhaseConfig): (r: (Phase, int))
  {
    var tm := timer + 1;
    if phase == NS then
      if tm >= pc.greenNs + pc.amber then (EW, 0) else (NS, tm)
    else
      if tm >= pc.greenEw + pc.amber then (NS, 0) else (EW, tm)
  }

  /** `n` calls of `_advance_phase_fixed`. */
  function AdvanceN(phase: Phase, timer: int, pc: PhaseConfig, n: nat): (r: (Phase, int))
    decreases n
  {
    if n == 0 then (phase, timer)
    else var next := Advance(phase, timer, pc); AdvanceN(next.0, next.1, pc, n - 1)
  }

  /** How long a phase lasts: its green time plus the amber gap. */
  function PhaseLength(phase: Phase, pc: PhaseConfig): int
  {
    if phase == NS then pc.greenNs + pc.amber else pc.greenEw + pc.amber
  }

  /** Until its length is reached, a phase keeps green and its timer counts the ticks. */
  lemma {:induction false} PhaseHolds(phase: Phase, timer: nat, pc: PhaseConfig, n: nat)
    requires timer + n < PhaseLength(phase, pc)
    ensures AdvanceN(phase, timer, pc, n) == (phase, timer + n)
    decreases n
  {
    if n > 0 {
      PhaseHolds(phase, timer + 1, pc, n - 1);
    }
  }

  /**
   * A phase entered with its timer at 0 hands over to the other axis after
   * exactly its green time plus the amber gap, and the fixed cycle repeats
   * after the sum of both.
   */
  lemma {:induction false} FixedCycle(phase: Phase, pc: PhaseConfig)
    requires PhaseLength(NS, pc) >= 1 && PhaseLength(EW, pc) >= 1
    ensures AdvanceN(phase, 0, pc, PhaseLength(phase, pc) as nat) == (Other(phase), 0)
    ensures AdvanceN(phase, 0, pc, (PhaseLength(NS, pc) + PhaseLength(EW, pc)) as nat) == (phase, 0)
  {
    var a := PhaseLength(phase, pc) as nat;
    var b := PhaseLength(Other(phase), pc) as nat;
    PhaseHolds(phase, 0, pc, a - 1);
    AdvanceNSplit(phase, 0, pc, a - 1, 1);
    PhaseHolds(Other(phase), 0, pc, b - 1);
    AdvanceNSplit(Other(phase), 0, pc, b - 1, 1);
    AdvanceNSplit(phase, 0, pc, a, b);
  }

  /** Advancing `m + n` times is advancing `m` times and then `n` more. */
  lemma {:induction false} AdvanceNSplit(phase: Phase, timer: int, pc: PhaseConfig, m: nat, n: nat)
    ensures AdvanceN(phase, timer, pc, m + n) ==
      AdvanceN(AdvanceN(phase, timer, pc, m).0, AdvanceN(phase, timer, pc, m).1, pc, n)
    decreases m
  {
    if m > 0 {
      var next := Advance(phase, timer, pc);
      AdvanceNSplit(next.0, next.1, pc, m - 1, n);
    }
  }

  /** The cars waiting on the two approaches of an axis. */
  function AxisLoad(qs: Queues, phase: Phase): (n: nat)
  {
    if phase == NS then |qs.Get(North)| + |qs.Get(South)| else |qs.Get(East)| + |qs.Get(West)|
  }

  /**
   * The early switch of `SMART_LIGHTS`: after at least 5 ticks of a phase,
   * green passes to the other axis when more than 2 cars more wait there.
   */
  function SmartSwitch(s: Snapshot): (r: Snapshot)
    ensures r.phase != s.phase <==> s.phaseTimer >= 5 && AxisLoad(s.queues, Other(s.phase)) > AxisLoad(s.queues, s.phase) + 2
    ensures r.phase != s.phase ==> r == s.(phase := Other(s.phase), phaseTimer := 0)
    ensures r.phase == s.phase ==> r == s
  {
    var qns := |s.queues.Get(North)| + |s.queues.Get(South)|;
    var qew := |s.queues.Get(East)| + |s.queues.Get(West)|;
    if s.phaseTimer >= 5 && ((s.phase == NS && qew > qns + 2) || (s.phase == EW && qns > qew + 2)) then
      s.(phase := if s.phase == NS then EW else NS, phaseTimer := 0)
    else s
  }

  // -------------------------------------------------------- allowed movements

  /** `max(cap, 0)`: how many movements a tick can allow. */
  function Room(cap: int): nat
  {
    if cap > 0 then cap else 0
  }

  /** Python's `xs[:n]`, where a negative `n` counts from the end. */
  function SliceTo<T>(xs: seq<T>, n: int): (r: seq<T>)
    ensures |r| <= |xs| && r == xs[..|r|]
    ensures |xs| <= Room(n) ==> r == xs
    ensures n >= 0 ==> |r| == if n <= |xs| then n else |xs|
    ensures n < 0 ==> |r| == if |xs| + n >= 0 then |xs| + n else 0
  {
    if n >= 0 then (if n <= |xs| then xs[..n] else xs)
    else if |xs| + n >= 0 then xs[..|xs| + n] else []
  }

  /** The approaches named by a list of movements, in order. */
  function Dirs(ms: seq<Movement>): (ds: seq<Direction>)
    ensures |ds| == |ms| && forall i :: 0 <= i < |ms| ==> ds[i] == ms[i].0
  {
    seq(|ms|, i requires 0 <= i < |ms| => ms[i].0)
  }

  /**
   * Each movement names a different approach, whose queue is not empty,
   * with the manoeuvre of that queue's head vehicle.
   */
  ghost predicate NamesHeads(ms: seq<Movement>, qs: Queues)
  {
    && (forall i, j :: 0 <= i < j < |ms| ==> ms[i].0 != ms[j].0)
    && (forall i :: 0 <= i < |ms| ==> qs.Get(ms[i].0) != [] && ms[i].1 == qs.Get(ms[i].0)[0].turn)
  }

  /** A movement list a tick can carry out: within capacity and naming distinct waiting heads. */
  ghost predicate Admissible(ms: seq<Movement>, qs: Queues, cap: int)
  {
    |ms| <= Room(cap) && NamesHeads(ms, qs)
  }

  /** Appending the head of a further approach keeps a movement list well formed. */
  lemma NamesHeadsSnoc(ms: seq<Movement>, qs: Queues, d: Direction)
    requires NamesHeads(ms, qs)
    requires qs.Get(d) != [] && d !in Dirs(ms)
    ensures NamesHeads(ms + [(d, qs.Get(d)[0].turn)], qs)
  {
    var ms' := ms + [(d, qs.Get(d)[0].turn)];
    forall i | 0 <= i < |ms|
      ensures ms'[i].0 != d
    {
      assert Dirs(ms)[i] == ms[i].0;
    }
  }

  /** The approaches of an axis, as `_choose_allowed_movements` visits them. */
  function Axis(phase: Phase): (ds: seq<Direction>)
  {
    if phase == NS then [North, South] else [East, West]
  }

  /** The light-controlled loop: the head of each non-empty queue of the axis while capacity lasts. */
  function AxisFrom(axis: seq<Direction>, qs: Queues, cap: int, acc: seq<Movement>): (ms: seq<Movement>)
    decreases |axis|
  {
    if axis == [] || |acc| >= cap then acc
    else if qs.Get(axis[0]) != [] then AxisFrom(axis[1..], qs, cap, acc + [(axis[0], qs.Get(axis[0])[0].turn)])
    else AxisFrom(axis[1..], qs, cap, acc)
  }

  /** One entry of `heads`: `(spawn_t, dir, turn)` of a queue's head vehicle. */
  datatype Head = Head(spawnT: int, dir: Direction, turn: Turn)

  function HeadOf(qs: Queues, d: Direction): (h: Head)
    requires qs.Get(d) != []
  {
    Head(qs.Get(d)[0].spawnT, d, qs.Get(d)[0].turn)
  }

  /** The loop collecting `heads` over the approaches `ds`. */
  function HeadsFrom(ds: seq<Direction>, qs: Queues): (hs: seq<Head>)
    ensures HeadsOf(hs, qs) && forall i :: 0 <= i < |hs| ==> hs[i].dir in ds
    ensures forall d :: d in ds && qs.Get(d) != [] ==> HeadOf(qs, d) in hs
    decreases |ds|
  {
    if ds == [] then []
    else if qs.Get(ds[0]) != [] then [HeadOf(qs, ds[0])] + HeadsFrom(ds[1..], qs)
    else HeadsFrom(ds[1..], qs)
  }

  /** `key=lambda x: x[0]`. */
  function HeadKey(h: Head): real
  {
    h.spawnT as real
  }

  /** The admitting loop: heads in sorted order while capacity lasts. */
  function AdmitFrom(hs: seq<Head>, cap: int, acc: seq<Movement>): (ms: seq<Movement>)
    decreases |hs|
  {
    if hs == [] || |acc| >= cap then acc
    else AdmitFrom(hs[1..], cap, acc + [(hs[0].dir, hs[0].turn)])
  }

  /** `FIRST_COME`: the heads of the non-empty queues, oldest first (stably), up to capacity. */
  function FirstComeMovements(qs: Queues, cap: int): (ms: seq<Movement>)
  {
    AdmitFrom(SortBy(HeadsFrom(AllDirections, qs), HeadKey), cap, [])
  }

  /** The approach to the right of each approach. */
  function RightOf(d: Direction): Direction
  {
    match d
    case North => East
    case East => South
    case South => West
    case West => North
  }

  /**
   * The `RIGHT_PRIORITY` loop over `order`: a waiting approach yields to a
   * waiting approach on its right that has not moved yet, and otherwise
   * moves itself unless it already has.
   */
  function RightPriorityFrom(order: seq<Direction>, qs: Queues, cap: int,
                             acc: seq<Movement>, taken: set<Direction>): (ms: seq<Movement>)
    decreases |order|
  {
    if order == [] || |acc| >= cap then acc
    else
      var d := order[0];
      if qs.Get(d) == [] then RightPriorityFrom(order[1..], qs, cap, acc, taken)
      else
        var r := RightOf(d);
        if qs.Get(r) != [] && r !in taken then
          RightPriorityFrom(order[1..], qs, cap, acc + [(r, qs.Get(r)[0].turn)], taken + {r})
        else if d !in taken then
          RightPriorityFrom(order[1..], qs, cap, acc + [(d, qs.Get(d)[0].turn)], taken + {d})
        else
          RightPriorityFrom(order[1..], qs, cap, acc, taken)
  }

  /** The list `_choose_allowed_movements` returns, from the state it starts in. */
  function Allowed(cfg: SimConfig, s: Snapshot): (ms: seq<Movement>)
  {
    var cap := cfg.capacityPerTick;
    var ms := match cfg.mode
      case FixedLights => AxisFrom(Axis(s.phase), s.queues, cap, [])
      case SmartLights => AxisFrom(Axis(s.phase), s.queues, cap, [])
      case FirstCome => FirstComeMovements(s.queues, cap)
      case RightPriority => RightPriorityFrom(AllDirections, s.queues, cap, [], {});
    SliceTo(ms, cap)
  }

  /** The state `_choose_allowed_movements` leaves: only `SMART_LIGHTS` may switch the phase. */
  function AfterChoose(cfg: SimConfig, s: Snapshot): (r: Snapshot)
  {
    if cfg.mode == SmartLights then SmartSwitch(s) else s
  }

  /** The light-controlled loop yields heads of distinct axis approaches, within capacity. */
  lemma {:induction false} AxisFromSound(axis: seq<Direction>, qs: Queues, cap: int, acc: seq<Movement>)
    requires NamesHeads(acc, qs) && |acc| <= Room(cap)
    requires forall i, j :: 0 <= i < j < |axis| ==> axis[i] != axis[j]
    requires forall i :: 0 <= i < |acc| ==> acc[i].0 !in axis
    ensures NamesHeads(AxisFrom(axis, qs, cap, acc), qs) && |AxisFrom(axis, qs, cap, acc)| <= Room(cap)
    ensures |acc| <= |AxisFrom(axis, qs, cap, acc)| && AxisFrom(axis, qs, cap, acc)[..|acc|] == acc
    ensures forall i :: |acc| <= i < |AxisFrom(axis, qs, cap, acc)| ==> AxisFrom(axis, qs, cap, acc)[i].0 in axis
    decreases |axis|
  {
    if axis != [] && |acc| < cap {
      var d := axis[0];
      assert forall i :: 0 <= i < |acc| ==> acc[i].0 !in axis[1..];
      if qs.Get(d) != [] {
        var acc' := acc + [(d, qs.Get(d)[0].turn)];
        assert d !in Dirs(acc);
        NamesHeadsSnoc(acc, qs, d);
        assert d !in axis[1..];
        AxisFromSound(axis[1..], qs, cap, acc');
        assert acc'[..|acc|] == acc;
      } else {
        AxisFromSound(axis[1..], qs, cap, acc);
      }
    }
  }

  /** The admitting loop appends exactly the first heads, as many as capacity leaves room for. */
  lemma {:induction false} AdmitPrefix(hs: seq<Head>, cap: int, acc: seq<Movement>)
    ensures AdmitFrom(hs, cap, acc) == acc + Moves(hs[..Admitted(|hs|, |acc|, cap)])
    decreases |hs|
  {
    if hs != [] && |acc| < cap {
      AdmitPrefix(hs[1..], cap, acc + [(hs[0].dir, hs[0].turn)]);
      var n := Admitted(|hs|, |acc|, cap);
      assert hs[1..][..n - 1] == hs[1..n];
      assert Moves(hs[..n]) == [(hs[0].dir, hs[0].turn)] + Moves(hs[1..n]);
    } else {
      assert hs[..0] == [];
    }
  }

  /** How many of `total` heads fit after `used` movements: `min(total, max(cap - used, 0))`. */
  function Admitted(total: nat, used: nat, cap: int): (n: nat)
    ensures n <= total
  {
    if cap - used <= 0 then 0 else if cap - used < total then cap - used else total
  }

  /** The movements of a list of heads. */
  function Moves(hs: seq<Head>): (ms: seq<Movement>)
    ensures |ms| == |hs| && forall i :: 0 <= i < |hs| ==> ms[i] == (hs[i].dir, hs[i].turn)
  {
    seq(|hs|, i requires 0 <= i < |hs| => (hs[i].dir, hs[i].turn))
  }

  /** The head of a queue's front vehicle's arrival tick. */
  function HeadT(qs: Queues, d: Direction): int
    requires qs.Get(d) != []
  {
    qs.Get(d)[0].spawnT
  }

  /** Head lists built over distinct approaches list no head twice. */
  lemma {:induction false} HeadsDistinct(ds: seq<Direction>, qs: Queues)
    requires Distinct(ds)
    ensures Distinct(HeadsFrom(ds, qs))
    decreases |ds|
  {
    if ds != [] {
      DistinctTail(ds);
      HeadsDistinct(ds[1..], qs);
      if qs.Get(ds[0]) != [] {
        var rest := HeadsFrom(ds[1..], qs);
        assert forall k :: 0 <= k < |rest| ==> rest[k].dir != ds[0];
      }
    }
  }

  /** Every entry is the head entry of its own approach, whose queue is not empty. */
  ghost predicate HeadsOf(hs: seq<Head>, qs: Queues)
  {
    forall k :: 0 <= k < |hs| ==> qs.Get(hs[k].dir) != [] && hs[k] == HeadOf(qs, hs[k].dir)
  }

  /** A reordering of head entries still consists of head entries. */
  lemma HeadsOfPermuted(a: seq<Head>, b: seq<Head>, qs: Queues)
    requires HeadsOf(a, qs) && multiset(a) == multiset(b)
    ensures HeadsOf(b, qs)
  {
    forall k | 0 <= k < |b|
      ensures qs.Get(b[k].dir) != [] && b[k] == HeadOf(qs, b[k].dir)
    {
      assert b[k] in multiset(a);
      var j :| 0 <= j < |a| && a[j] == b[k];
    }
  }

  /** Admitting the first `n` of distinct head entries names distinct waiting heads. */
  lemma AdmittedNamesHeads(hs: seq<Head>, n: nat, qs: Queues)
    requires HeadsOf(hs, qs) && Distinct(hs) && n <= |hs|
    ensures NamesHeads(Moves(hs[..n]), qs)
  {
    var ms := Moves(hs[..n]);
    forall i, j | 0 <= i < j < |ms|
      ensures ms[i].0 != ms[j].0
    {
      assert hs[i] != hs[j];
    }
  }

  /** The admitted heads are listed in ascending order of arrival. */
  ghost predicate ArrivalOrdered(ms: seq<Movement>, qs: Queues)
    requires NamesHeads(ms, qs)
  {
    forall i, j :: 0 <= i < j < |ms| ==> HeadT(qs, ms[i].0) <= HeadT(qs, ms[j].0)
  }

  /** No waiting head left out arrived before an admitted one. */
  ghost predicate NoOlderSkipped(ms: seq<Movement>, qs: Queues)
    requires NamesHeads(ms, qs)
  {
    forall d, i :: qs.Get(d) != [] && d !in Dirs(ms) && 0 <= i < |ms| ==> HeadT(qs, ms[i].0) <= HeadT(qs, d)
  }

  /** Admitting the first `n` of sorted head entries admits them in ascending order of arrival. */
  lemma AdmittedAscending(hs: seq<Head>, n: nat, qs: Queues)
    requires HeadsOf(hs, qs) && Distinct(hs) && SortedBy(hs, HeadKey) && n <= |hs|
    ensures NamesHeads(Moves(hs[..n]), qs) && ArrivalOrdered(Moves(hs[..n]), qs)
  {
    AdmittedNamesHeads(hs, n, qs);
    forall i, j | 0 <= i < j < n
      ensures HeadT(qs, Moves(hs[..n])[i].0) <= HeadT(qs, Moves(hs[..n])[j].0)
    {
      assert HeadKey(hs[i]) <= HeadKey(hs[j]);
    }
  }

  /**
   * Admitting the first `n` of sorted head entries, when every waiting head
   * is among them, passes over no older head.
   */
  lemma AdmittedOldest(hs: seq<Head>, n: nat, qs: Queues)
    requires HeadsOf(hs, qs) && Distinct(hs) && SortedBy(hs, HeadKey) && n <= |hs|
    requires forall d :: qs.Get(d) != [] ==> HeadOf(qs, d) in hs
    ensures NamesHeads(Moves(hs[..n]), qs) && NoOlderSkipped(Moves(hs[..n]), qs)
  {
    AdmittedNamesHeads(hs, n, qs);
    var ms := Moves(hs[..n]);
    forall d, i | qs.Get(d) != [] && d !in Dirs(ms) && 0 <= i < n
      ensures HeadT(qs, ms[i].0) <= HeadT(qs, d)
    {
      assert forall j :: 0 <= j < n ==> hs[j].dir != d by {
        forall j | 0 <= j < n
          ensures hs[j].dir != d
        {
          assert Dirs(ms)[j] == hs[j].dir;
        }
      }
      var k :| 0 <= k < |hs| && hs[k] == HeadOf(qs, d);
      assert HeadKey(hs[i]) <= HeadKey(hs[k]);
    }
  }

  /** The sorted head list `FIRST_COME` admits from: heads of distinct approaches, every waiting one, oldest first. */
  lemma FirstComeHeads(qs: Queues)
    ensures HeadsOf(SortBy(HeadsFrom(AllDirections, qs), HeadKey), qs)
    ensures Distinct(SortBy(HeadsFrom(AllDirections, qs), HeadKey))
    ensures SortedBy(SortBy(HeadsFrom(AllDirections, qs), HeadKey), HeadKey)
    ensures forall d :: qs.Get(d) != [] ==> HeadOf(qs, d) in SortBy(HeadsFrom(AllDirections, qs), HeadKey)
  {
    var heads := HeadsFrom(AllDirections, qs);
    var sorted := SortBy(heads, HeadKey);
    EnumerationOrder();
    HeadsDistinct(AllDirections, qs);
    SortByDistinct(heads, HeadKey);
    HeadsOfPermuted(heads, sorted, qs);
    forall d | qs.Get(d) != []
      ensures HeadOf(qs, d) in sorted
    {
      assert HeadOf(qs, d) in multiset(heads);
    }
  }

  /**
   * `FIRST_COME` admits heads of distinct waiting approaches within
   * capacity, in ascending order of arrival, and never passes over an
   * older head: every waiting head left out arrived no earlier than every
   * head admitted.
   */
  lemma FirstComeOrder(qs: Queues, cap: int)
    ensures Admissible(FirstComeMovements(qs, cap), qs, cap)
    ensures ArrivalOrdered(FirstComeMovements(qs, cap), qs)
    ensures NoOlderSkipped(FirstComeMovements(qs, cap), qs)
  {
    var sorted := SortBy(HeadsFrom(AllDirections, qs), HeadKey);
    var n := Admitted(|sorted|, 0, cap);
    AdmitPrefix(sorted, cap, []);
    assert FirstComeMovements(qs, cap) == Moves(sorted[..n]);
    FirstComeHeads(qs);
    AdmittedAscending(sorted, n, qs);
    AdmittedOldest(sorted, n, qs);
  }

  /** The right-priority loop yields heads of distinct waiting approaches, within capacity. */
  lemma {:induction false} RightPrioritySound(order: seq<Direction>, qs: Queues, cap: int,
                                              acc: seq<Movement>, taken: set<Direction>)
    requires NamesHeads(acc, qs) && |acc| <= Room(cap)
    requires forall d :: d in taken <==> d in Dirs(acc)
    ensures Admissible(RightPriorityFrom(order, qs, cap, acc, taken), qs, cap)
    decreases |order|
  {
    if order != [] && |acc| < cap {
      var d := order[0];
      var r := RightOf(d);
      if qs.Get(d) == [] {
        RightPrioritySound(order[1..], qs, cap, acc, taken);
      } else if qs.Get(r) != [] && r !in taken {
        var acc' := acc + [(r, qs.Get(r)[0].turn)];
        NamesHeadsSnoc(acc, qs, r);
        assert Dirs(acc') == Dirs(acc) + [r];
        RightPrioritySound(order[1..], qs, cap, acc', taken + {r});
      } else if d !in taken {
        var acc' := acc + [(d, qs.Get(d)[0].turn)];
        NamesHeadsSnoc(acc, qs, d);
        assert Dirs(acc') == Dirs(acc) + [d];
        RightPrioritySound(order[1..], qs, cap, acc', taken + {d});
      } else {
        RightPrioritySound(order[1..], qs, cap, acc, taken);
      }
    }
  }

  /**
   * In every mode the allowed list is within capacity and names distinct
   * approaches with waiting vehicles, each with its head's manoeuvre; under
   * the lights only the approaches of the green axis move.
   */
  lemma AllowedAdmissible(cfg: SimConfig, s: Snapshot)
    ensures Admissible(Allowed(cfg, s), s.queues, cfg.capacityPerTick)
    ensures cfg.mode == FixedLights || cfg.mode == SmartLights ==>
      forall i :: 0 <= i < |Allowed(cfg, s)| ==> Allowed(cfg, s)[i].0 in Axis(s.phase)
    ensures cfg.mode == FirstCome ==> Allowed(cfg, s) == FirstComeMovements(s.queues, cfg.capacityPerTick)
  {
    var cap := cfg.capacityPerTick;
    match cfg.mode
    case FixedLights =>
      AxisFromSound(Axis(s.phase), s.queues, cap, []);
    case SmartLights =>
      AxisFromSound(Axis(s.phase), s.queues, cap, []);
    case FirstCome =>
      FirstComeOrder(s.queues, cap);
    case RightPriority =>
      RightPrioritySound(AllDirections, s.queues, cap, [], {});
  }

  // --------------------------------------------------------------- departing

  /** The head of approach `d` leaves: its wait is recorded and the departures count rises. */
  function PopHead(s: Snapshot, d: Direction): (r: Snapshot)
    requires s.queues.Get(d) != []
  {
    s.(queues := s.queues.Set(d, s.queues.Get(d)[1..]),
       waitTimes := s.waitTimes + [s.t - s.queues.Get(d)[0].spawnT],
       totalDepartures := s.totalDepartures + 1)
  }

  /**
   * `_depart`: for each allowed approach with a waiting vehicle, the head
   * leaves, its wait `t - spawn_t` is recorded and the departures count rises.
   */
  function DepartFrom(allowed: seq<Movement>, s: Snapshot): (r: Snapshot)
    decreases |allowed|
  {
    if allowed == [] then s
    else if s.queues.Get(allowed[0].0) != [] then DepartFrom(allowed[1..], PopHead(s, allowed[0].0))
    else DepartFrom(allowed[1..], s)
  }

  /** The waits of the heads an allowed list names. */
  function Waits(allowed: seq<Movement>, qs: Queues, t: int): (ws: seq<int>)
    requires NamesHeads(allowed, qs)
    ensures |ws| == |allowed|
  {
    seq(|allowed|, i requires 0 <= i < |allowed| && NamesHeads(allowed, qs) => t - qs.Get(allowed[i].0)[0].spawnT)
  }

  /** After the first head of an admissible list leaves, the rest of the list is admissible. */
  lemma DepartRest(allowed: seq<Movement>, s: Snapshot)
    requires NamesHeads(allowed, s.queues) && allowed != []
    ensures NamesHeads(allowed[1..], PopHead(s, allowed[0].0).queues)
  {
    var rest := allowed[1..];
    assert forall i :: 0 <= i < |rest| ==> rest[i].0 != allowed[0].0 && rest[i] == allowed[i + 1];
  }

  /** The waits of an admissible list are the first head's wait followed by those of the rest. */
  lemma DepartRestWaits(allowed: seq<Movement>, s: Snapshot)
    requires NamesHeads(allowed, s.queues) && allowed != []
    ensures NamesHeads(allowed[1..], PopHead(s, allowed[0].0).queues)
    ensures Waits(allowed, s.queues, s.t) ==
      [s.t - s.queues.Get(allowed[0].0)[0].spawnT] + Waits(allowed[1..], PopHead(s, allowed[0].0).queues, s.t)
  {
    DepartRest(allowed, s);
    var rest := allowed[1..];
    assert forall i :: 0 <= i < |rest| ==> rest[i].0 != allowed[0].0 && rest[i] == allowed[i + 1];
  }

  /** The approaches of an admissible list are its first one and, apart from it, those of the rest. */
  lemma DepartRestDirs(allowed: seq<Movement>, qs: Queues)
    requires NamesHeads(allowed, qs) && allowed != []
    ensures Dirs(allowed) == [allowed[0].0] + Dirs(allowed[1..]) && allowed[0].0 !in Dirs(allowed[1..])
  {
    var rest := allowed[1..];
    assert forall i :: 0 <= i < |rest| ==> rest[i].0 != allowed[0].0 && rest[i] == allowed[i + 1];
  }

  /**
   * Departing an admissible list is first-in first-out: exactly the named
   * queues lose their head.
   */
  lemma {:induction false} DepartQueues(allowed: seq<Movement>, s: Snapshot)
    requires NamesHeads(allowed, s.queues)
    ensures forall d: Direction ::
      DepartFrom(allowed, s).queues.Get(d) == if d in Dirs(allowed) then s.queues.Get(d)[1..] else s.queues.Get(d)
    decreases |allowed|
  {
    if allowed != [] {
      var d := allowed[0].0;
      DepartRest(allowed, s);
      DepartRestDirs(allowed, s.queues);
      DepartQueues(allowed[1..], PopHead(s, d));
    }
  }

  /**
   * Departing an admissible list records the waits of the named heads in
   * list order, and the departure count rises by the list's length.
   */
  lemma {:induction false} DepartWaits(allowed: seq<Movement>, s: Snapshot)
    requires NamesHeads(allowed, s.queues)
    ensures DepartFrom(allowed, s).waitTimes == s.waitTimes + Waits(allowed, s.queues, s.t)
    ensures DepartFrom(allowed, s).totalDepartures == s.totalDepartures + |allowed|
    decreases |allowed|
  {
    if allowed == [] {
      assert s.waitTimes + Waits(allowed, s.queues, s.t) == s.waitTimes;
    } else {
      var d := allowed[0].0;
      var s1 := PopHead(s, d);
      DepartRestWaits(allowed, s);
      DepartWaits(allowed[1..], s1);
      assert DepartFrom(allowed, s) == DepartFrom(allowed[1..], s1);
      AppendAssoc(s.waitTimes, [s.t - s.queues.Get(d)[0].spawnT], Waits(allowed[1..], s1.queues, s.t));
    }
  }

  /** Departing touches nothing but the queues, the waits and the departure count. */
  lemma {:induction false} DepartKeeps(allowed: seq<Movement>, s: Snapshot)
    ensures DepartFrom(allowed, s).(queues := s.queues, waitTimes := s.waitTimes, totalDepartures := s.totalDepartures) == s
    decreases |allowed|
  {
    if allowed != [] {
      if s.queues.Get(allowed[0].0) != [] {
        DepartKeeps(allowed[1..], PopHead(s, allowed[0].0));
      } else {
        DepartKeeps(allowed[1..], s);
      }
    }
  }

  // ------------------------------------------------------------------- steps

  /** A queue in arrival order whose vehicles all arrived by tick `t`. */
  ghost predicate Arrived(q: seq<Car>, t: int)
  {
    forall i, j :: 0 <= i <= j < |q| ==> q[i].spawnT <= q[j].spawnT <= t
  }

  /**
   * What every reachable state satisfies: both dictionaries keyed by the
   * four approaches, one wait per departure, no negative wait, every queue
   * in arrival order with nobody from the future, every queue within its
   * recorded maximum, and a non-negative phase timer.
   */
  ghost predicate Inv(s: Snapshot)
  {
    && WaitsRecorded(s.totalDepartures, s.waitTimes)
    && QueuesOk(s.queues, s.maxQLen, s.t)
    && s.phaseTimer >= 0
  }

  /** One wait per departure, and no negative wait. */
  ghost predicate WaitsRecorded(departures: int, waits: seq<int>)
  {
    departures == |waits| && forall k :: 0 <= k < |waits| ==> waits[k] >= 0
  }

  /** Every queue in arrival order, nobody from the future, and within its recorded maximum. */
  ghost predicate QueuesOk(qs: Queues, mx: PerApproach<int>, t: int)
  {
    forall d: Direction :: Arrived(qs.Get(d), t) && |qs.Get(d)| <= mx.Get(d)
  }

  lemma InitialInv()
    ensures Inv(Initial())
  {
  }

  /** `step`: spawn, choose, depart, advance the lights under light control, and tick. */
  function StepSpec(cfg: SimConfig, draw: nat -> real, s: Snapshot): Snapshot
  {
    var s1 := SpawnFrom(AllDirections, s, cfg.spawn, draw);
    var s3 := DepartFrom(Allowed(cfg, s1), AfterChoose(cfg, s1));
    AfterLights(cfg, s3).(t := s3.t + 1)
  }

  /** The end of `step`: under light control, one call of `_advance_phase_fixed`. */
  function AfterLights(cfg: SimConfig, s: Snapshot): Snapshot
  {
    if cfg.mode == FixedLights || cfg.mode == SmartLights then
      var next := Advance(s.phase, s.phaseTimer, cfg.phase); s.(phase := next.0, phaseTimer := next.1)
    else s
  }

  /** Choosing the movements changes at most the lights, and keeps the invariant. */
  lemma ChooseInv(cfg: SimConfig, s: Snapshot)
    requires Inv(s)
    ensures Inv(AfterChoose(cfg, s))
    ensures AfterChoose(cfg, s).(phase := s.phase, phaseTimer := s.phaseTimer) == s
  {
  }

  /** Advancing the lights and the clock keeps the invariant and touches nothing else. */
  lemma TickInv(cfg: SimConfig, s: Snapshot)
    requires Inv(s)
    ensures Inv(AfterLights(cfg, s).(t := s.t + 1))
    ensures AfterLights(cfg, s).(phase := s.phase, phaseTimer := s.phaseTimer) == s
  {
    var r := AfterLights(cfg, s).(t := s.t + 1);
    forall d: Direction
      ensures Arrived(r.queues.Get(d), r.t)
    {
      assert r.queues.Get(d) == s.queues.Get(d);
    }
  }

  /** A queue that only changes in the monitored way keeps its maxima honest: the spawn part of a step. */
  lemma {:induction false} SpawnFromInv(ds: seq<Direction>, s: Snapshot, sp: SpawnConfig, draw: nat -> real)
    requires Inv(s)
    requires Distinct(ds)
    ensures Inv(SpawnFrom(ds, s, sp, draw))
    ensures SpawnFrom(ds, s, sp, draw).t == s.t
    ensures SpawnFrom(ds, s, sp, draw).phase == s.phase && SpawnFrom(ds, s, sp, draw).phaseTimer == s.phaseTimer
    ensures SpawnFrom(ds, s, sp, draw).waitTimes == s.waitTimes
    ensures SpawnFrom(ds, s, sp, draw).totalDepartures == s.totalDepartures
    ensures forall d: Direction :: SpawnFrom(ds, s, sp, draw).maxQLen.Get(d) >= s.maxQLen.Get(d)
    ensures forall d: Direction :: Grown(s.queues.Get(d), SpawnFrom(ds, s, sp, draw).queues.Get(d), s.t, d in ds)
    decreases |ds|
  {
    if ds != [] {
      var d := ds[0];
      DistinctTail(ds);
      if draw(s.drawn) < SpawnProb(sp, d) {
        var q := s.queues.Get(d) + [Car(s.t, SampledTurn(draw(s.drawn + 1), sp.turnProbs))];
        assert Arrived(q, s.t);
        assert Inv(SpawnAt(d, s, sp, draw));
      }
      SpawnFromInv(ds[1..], SpawnAt(d, s, sp, draw), sp, draw);
    }
  }

  /**
   * `q1` is `q0`, or, when the approach was visited, `q0` with one vehicle
   * that arrived at tick `t` at its back.
   */
  ghost predicate Grown(q0: seq<Car>, q1: seq<Car>, t: int, visited: bool)
  {
    q1 == q0 || (visited && |q1| == |q0| + 1 && q1[..|q0|] == q0 && q1[|q0|].spawnT == t)
  }

  /** Departing keeps the invariant and touches neither the clock, the maxima nor the lights. */
  lemma {:induction false} DepartFromInv(allowed: seq<Movement>, s: Snapshot)
    requires Inv(s)
    ensures Inv(DepartFrom(allowed, s))
    ensures DepartFrom(allowed, s).t == s.t && DepartFrom(allowed, s).maxQLen == s.maxQLen
    ensures DepartFrom(allowed, s).phase == s.phase && DepartFrom(allowed, s).phaseTimer == s.phaseTimer
    decreases |allowed|
  {
    if allowed != [] {
      var d := allowed[0].0;
      if s.queues.Get(d) != [] {
        var q := s.queues.Get(d);
        var s' := PopHead(s, d);
        assert Arrived(q[1..], s.t) by {
          forall i, j | 0 <= i <= j < |q[1..]|
            ensures q[1..][i].spawnT <= q[1..][j].spawnT <= s.t
          {
            assert q[1..][i] == q[i + 1] && q[1..][j] == q[j + 1];
          }
        }
        assert q[0].spawnT <= s.t;
        assert Inv(s');
        DepartFromInv(allowed[1..], s');
      } else {
        DepartFromInv(allowed[1..], s);
      }
    }
  }

  /**
   * A step keeps the invariant, so the departure count always equals the
   * number of recorded waits and no wait is negative; the clock rises by
   * exactly 1 and no recorded maximum queue length decreases.
   */
  lemma StepInv(cfg: SimConfig, draw: nat -> real, s: Snapshot)
    requires Inv(s)
    ensures Inv(StepSpec(cfg, draw, s))
    ensures StepSpec(cfg, draw, s).t == s.t + 1
    ensures forall d: Direction :: StepSpec(cfg, draw, s).maxQLen.Get(d) >= s.maxQLen.Get(d)
  {
    EnumerationOrder();
    var s1 := SpawnFrom(AllDirections, s, cfg.spawn, draw);
    SpawnFromInv(AllDirections, s, cfg.spawn, draw);
    var s2 := AfterChoose(cfg, s1);
    ChooseInv(cfg, s1);
    var s3 := DepartFrom(Allowed(cfg, s1), s2);
    DepartFromInv(Allowed(cfg, s1), s2);
    TickInv(cfg, s3);
  }

  /** Right after the spawn phase of a step, every queue is within its recorded maximum. */
  lemma SpawnWithinMax(cfg: SimConfig, draw: nat -> real, s: Snapshot, d: Direction)
    requires Inv(s)
    ensures |SpawnFrom(AllDirections, s, cfg.spawn, draw).queues.Get(d)| <= SpawnFrom(AllDirections, s, cfg.spawn, draw).maxQLen.Get(d)
    ensures SpawnFrom(AllDirections, s, cfg.spawn, draw).maxQLen.Get(d) >= s.maxQLen.Get(d)
    ensures Grown(s.queues.Get(d), SpawnFrom(AllDirections, s, cfg.spawn, draw).queues.Get(d), s.t, true)
  {
    EnumerationOrder();
    SpawnFromInv(AllDirections, s, cfg.spawn, draw);
  }

  /** `n` applications of `f`, starting from `x`. */
  function Iterate<T>(f: T -> T, x: T, n: nat): T
    decreases n
  {
    if n == 0 then x else f(Iterate(f, x, n - 1))
  }

  /** A property that holds at the start and survives each application holds after any number of them. */
  lemma {:induction false} IterateKeeps<T>(f: T -> T, x: T, n: nat, inv: (nat, T) -> bool)
    requires inv(0, x)
    requires forall k: nat, y :: inv(k, y) ==> inv(k + 1, f(y))
    ensures inv(n, Iterate(f, x, n))
    decreases n
  {
    if n > 0 {
      IterateKeeps(f, x, n - 1, inv);
    }
  }

  /** `n` steps. */
  function RunSpec(cfg: SimConfig, draw: nat -> real, s: Snapshot, n: nat): Snapshot
  {
    Iterate(x => StepSpec(cfg, draw, x), s, n)
  }

  /** `n + 1` steps are `n` steps and one more. */
  lemma RunSpecStep(cfg: SimConfig, draw: nat -> real, s: Snapshot, n: nat)
    ensures RunSpec(cfg, draw, s, n + 1) == StepSpec(cfg, draw, RunSpec(cfg, draw, s, n))
  {
  }

  /** Over any number of steps the invariant holds, the clock counts the steps and maxima only grow. */
  lemma RunInv(cfg: SimConfig, draw: nat -> real, s: Snapshot, n: nat)
    requires Inv(s)
    ensures Inv(RunSpec(cfg, draw, s, n))
    ensures RunSpec(cfg, draw, s, n).t == s.t + n
    ensures forall d: Direction :: RunSpec(cfg, draw, s, n).maxQLen.Get(d) >= s.maxQLen.Get(d)
  {
    var step := x => StepSpec(cfg, draw, x);
    var reached := (k: nat, x: Snapshot) =>
      Inv(x) && x.t == s.t + k && forall d: Direction :: x.maxQLen.Get(d) >= s.maxQLen.Get(d);
    forall k: nat, y | reached(k, y)
      ensures reached(k + 1, step(y))
    {
      StepInv(cfg, draw, y);
    }
    IterateKeeps(step, s, n, reached);
  }

  // ------------------------------------------------------------------ report

  /** The dictionary `run` returns. */
  datatype RunStats = RunStats(avgWait: real, throughputPerTick: real, totalDepartures: int,
                               maxQN: int, maxQE: int, maxQS: int, maxQW: int, maxQSum: int)

  /**
   * The report on a final state: the mean wait (0.0 when nobody left), the
   * departures per tick over `max(1, steps)`, each approach's maximum queue
   * and their sum.
   */
  function Report(s: Snapshot, steps: int): (r: RunStats)
    ensures s.waitTimes == [] ==> r.avgWait == 0.0
    ensures s.waitTimes != [] ==> r.avgWait * |s.waitTimes| as real == SumInt(s.waitTimes) as real
    ensures r.throughputPerTick * (if steps > 1 then steps else 1) as real == s.totalDepartures as real
    ensures r.totalDepartures == s.totalDepartures
    ensures r.maxQN == s.maxQLen.Get(North) && r.maxQE == s.maxQLen.Get(East)
    ensures r.maxQS == s.maxQLen.Get(South) && r.maxQW == s.maxQLen.Get(West)
    ensures r.maxQSum == r.maxQN + r.maxQE + r.maxQS + r.maxQW
  {
    var avg := if s.waitTimes != [] then SumInt(s.waitTimes) as real / |s.waitTimes| as real else 0.0;
    var steps1 := if steps > 1 then steps else 1;
    RunStats(avg, s.totalDepartures as real / steps1 as real, s.totalDepartures,
             s.maxQLen.Get(North), s.maxQLen.Get(East), s.maxQLen.Get(South), s.maxQLen.Get(West),
             s.maxQLen.Get(North) + s.maxQLen.Get(East) + s.maxQLen.Get(South) + s.maxQLen.Get(West))
  }

  /** On a reachable state the reported mean wait, throughput and maxima are never negative. */
  lemma ReportNonNegative(s: Snapshot, steps: int)
    requires Inv(s)
    ensures Report(s, steps).avgWait >= 0.0
    ensures Report(s, steps).throughputPerTick >= 0.0
    ensures Report(s, steps).maxQSum >= 0
  {
    SumIntNonNegative(s.waitTimes);
    assert |s.queues.Get(North)| <= s.maxQLen.Get(North) && |s.queues.Get(East)| <= s.maxQLen.Get(East);
    assert |s.queues.Get(South)| <= s.maxQLen.Get(South) && |s.queues.Get(West)| <= s.maxQLen.Get(West);
  }
}
