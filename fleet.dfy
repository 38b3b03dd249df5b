/**
 * The vehicle store of the array prototype (src/model/agents.py): for each
 * approach, fixed-capacity arrays of positions (metres before the stop
 * line), speeds, stop counts, stop-line flags and birth times, of which the
 * first `active` slots hold the vehicles on the lane. Vehicles are appended
 * at slot `active`, each vehicle's gap to the next vehicle farther from
 * the stop line is computed by sorting the positions, and departed vehicles
 * are compacted out in place.
 */
module Fleet {
  import opened Sorting
  import opened Vehicles

  /** The headway of a vehicle with no leader. */
  const NoLeader: real := 1000000000.0

  /** The default capacity of a lane. */
  const DefaultCapacity: nat := 500

  /** The state of one vehicle slot, apart from its birth time. */
  datatype Slot = Slot(x: real, v: real, stops: int, atStopline: bool)

  /** `np.arange(n)`. */
  function Range(n: nat): (r: seq<nat>)
    ensures |r| == n && forall i :: 0 <= i < n ==> r[i] == i
  {
    if n == 0 then [] else Range(n - 1) + [n - 1]
  }

  /** The sort key of `np.argsort(-xs)`: slot `i` by its negated position. */
  function DescendingKey(xs: seq<real>): nat -> real
  {
    (i: nat) => if i < |xs| then -xs[i] else 0.0
  }

  /**
   * `np.argsort(-xs)`: the slot indices from the vehicle farthest from the
   * stop line to the nearest one; slots at equal positions keep their
   * index order.
   */
  function ArgsortDesc(xs: seq<real>): (order: seq<nat>)
    ensures |order| == |xs| && Distinct(order)
    ensures forall k :: 0 <= k < |order| ==> order[k] < |xs|
    ensures forall i :: 0 <= i < |xs| ==> i in order
    ensures forall k, l :: 0 <= k < l < |order| ==> xs[order[k]] >= xs[order[l]]
  {
    var order := SortBy(Range(|xs|), DescendingKey(xs));
    ArgsortFacts(xs, order);
    order
  }

  lemma ArgsortFacts(xs: seq<real>, order: seq<nat>)
    requires order == SortBy(Range(|xs|), DescendingKey(xs))
    ensures |order| == |xs| && Distinct(order)
    ensures forall k :: 0 <= k < |order| ==> order[k] < |xs|
    ensures forall i :: 0 <= i < |xs| ==> i in order
    ensures forall k, l :: 0 <= k < l < |order| ==> xs[order[k]] >= xs[order[l]]
  {
    var r := Range(|xs|);
    SortByDistinct(r, DescendingKey(xs));
    PermutesRange(order, |xs|);
    SortedDescending(xs, order);
  }

  /** A list with the elements of `Range(n)`, counted with multiplicity, lists each index below `n` and no other. */
  lemma PermutesRange(order: seq<nat>, n: nat)
    requires multiset(order) == multiset(Range(n))
    ensures |order| == n
    ensures forall k :: 0 <= k < |order| ==> order[k] < n
    ensures forall i :: 0 <= i < n ==> i in order
  {
    var r := Range(n);
    assert |order| == |multiset(order)| == |multiset(r)| == n;
    forall k | 0 <= k < |order|
      ensures order[k] < n
    {
      assert order[k] in multiset(r);
    }
    forall i | 0 <= i < n
      ensures i in order
    {
      assert r[i] == i;
      assert i in multiset(order);
    }
  }

  /** Indices sorted by negated position list the positions from largest to smallest. */
  lemma SortedDescending(xs: seq<real>, order: seq<nat>)
    requires SortedBy(order, DescendingKey(xs))
    requires forall k :: 0 <= k < |order| ==> order[k] < |xs|
    ensures forall k, l :: 0 <= k < l < |order| ==> xs[order[k]] >= xs[order[l]]
  {
    forall k, l | 0 <= k < l < |order|
      ensures xs[order[k]] >= xs[order[l]]
    {
      assert DescendingKey(xs)(order[k]) <= DescendingKey(xs)(order[l]);
    }
  }

  /**
   * The gap of the `k`-th vehicle in farthest-first order: none for the
   * farthest one, else the distance to the vehicle just before it.
   */
  function Gap(xs: seq<real>, order: seq<nat>, k: nat): real
    requires k < |order| && forall j :: 0 <= j < |order| ==> order[j] < |xs|
  {
    if k == 0 then NoLeader else xs[order[k - 1]] - xs[order[k]]
  }

  /**
   * What `headways` returns for the positions `xs`: one entry per vehicle,
   * `NoLeader` for all of them when there are at most one, and otherwise
   * each vehicle's gap in farthest-first order, written back at its own
   * slot.
   */
  ghost predicate IsHeadways(xs: seq<real>, out: seq<real>)
  {
    && |out| == |xs|
    && (|xs| <= 1 ==> forall i :: 0 <= i < |out| ==> out[i] == NoLeader)
    && (|xs| >= 2 ==>
          var order := ArgsortDesc(xs);
          forall k :: 0 <= k < |order| ==> out[order[k]] == Gap(xs, order, k))
  }

  /**
   * Every vehicle's headway is either `NoLeader` or the non-negative
   * distance to a vehicle at or beyond its own position, that is, one at
   * least as far from the stop line and so behind it; exactly the vehicle
   * first in sort order, the one farthest from the line, gets `NoLeader`.
   */
  lemma HeadwaysMeaning(xs: seq<real>, out: seq<real>, i: nat)
    requires IsHeadways(xs, out) && i < |xs|
    ensures out[i] == NoLeader || out[i] >= 0.0
    ensures |xs| >= 2 ==>
      (out[i] == NoLeader && i == ArgsortDesc(xs)[0]) ||
      (exists j :: 0 <= j < |xs| && j != i && xs[j] >= xs[i] && out[i] == xs[j] - xs[i])
  {
    if |xs| >= 2 {
      var order := ArgsortDesc(xs);
      assert i in order;
      var k :| 0 <= k < |order| && order[k] == i;
      if k > 0 {
        var j := order[k - 1];
        assert xs[j] >= xs[i] && out[i] == xs[j] - xs[i];
      }
    }
  }

  /**
   * Positions count back from the stop line, so the vehicle farther from
   * the line is the one behind. With vehicles at 10 and 20 the front one,
   * at 10, gets the gap 10 to the vehicle behind it, and the rear one gets
   * `NoLeader`: nothing ever holds it back from the vehicle in front.
   */
  lemma {:induction false} HeadwaysToFollower()
    ensures IsHeadways([10.0, 20.0], [10.0, NoLeader])
  {
    var xs := [10.0, 20.0];
    var order := ArgsortDesc(xs);
    assert order[0] < 2 && order[1] < 2 && order[0] != order[1];
    assert xs[order[0]] >= xs[order[1]];
    assert order == [1, 0];
    assert Gap(xs, order, 1) == 10.0;
  }

  /** The slots of `Moving(s)`: those still before the stop line, in their order. */
  function Moving(s: seq<Slot>): (r: seq<Slot>)
    ensures |r| <= |s|
  {
    if s == [] then []
    else Moving(s[..|s| - 1]) + (if s[|s| - 1].x > 0.0 then [s[|s| - 1]] else [])
  }

  /** Keeping the moving slots of a concatenation keeps those of each part, in order. */
  lemma {:induction false} MovingAppend(a: seq<Slot>, b: seq<Slot>)
    ensures Moving(a + b) == Moving(a) + Moving(b)
    decreases |b|
  {
    if b != [] {
      assert (a + b)[|a + b| - 1] == b[|b| - 1];
      assert (a + b)[..|a + b| - 1] == a + b[..|b| - 1];
      MovingAppend(a, b[..|b| - 1]);
      var tail := if b[|b| - 1].x > 0.0 then [b[|b| - 1]] else [];
      AppendAssoc(Moving(a), Moving(b[..|b| - 1]), tail);
    } else {
      assert a + b == a;
    }
  }

  /** Extending a prefix by one slot extends its moving slots by that slot when it is still before the line. */
  lemma MovingSnoc(s: seq<Slot>, j: nat)
    requires j < |s|
    ensures Moving(s[..j + 1]) == Moving(s[..j]) + (if s[j].x > 0.0 then [s[j]] else [])
  {
    assert s[..j + 1][..j] == s[..j];
  }

  /** Every slot kept has a positive position. */
  lemma {:induction false} MovingPositive(s: seq<Slot>)
    ensures forall k :: 0 <= k < |Moving(s)| ==> Moving(s)[k].x > 0.0
  {
    if s != [] {
      MovingPositive(s[..|s| - 1]);
    }
  }

  /** Every slot with a positive position is kept as often as it occurs. */
  lemma {:induction false} MovingCounts(s: seq<Slot>)
    ensures forall c: Slot :: c.x > 0.0 ==> multiset(Moving(s))[c] == multiset(s)[c]
  {
    if s != [] {
      var init := s[..|s| - 1];
      var last := s[|s| - 1];
      MovingCounts(init);
      assert s == init + [last];
      assert multiset(Moving(s)) == multiset(Moving(init)) + multiset(if last.x > 0.0 then [last] else []);
    }
  }

  /** No slot at or past the stop line is kept. */
  lemma {:induction false} DepartedDropped(s: seq<Slot>)
    ensures forall c: Slot :: c.x <= 0.0 ==> multiset(Moving(s))[c] == 0
  {
    if s != [] {
      var init := s[..|s| - 1];
      var last := s[|s| - 1];
      DepartedDropped(init);
      assert multiset(Moving(s)) == multiset(Moving(init)) + multiset(if last.x > 0.0 then [last] else []);
    }
  }

  /** A lane on which no vehicle has reached the stop line keeps all its slots. */
  lemma {:induction false} NoneDeparted(s: seq<Slot>)
    requires forall k :: 0 <= k < |s| ==> s[k].x > 0.0
    ensures Moving(s) == s
  {
    if s != [] {
      NoneDeparted(s[..|s| - 1]);
      assert s == s[..|s| - 1] + [s[|s| - 1]];
    }
  }

  /** Removing departed vehicles twice removes nothing the second time. */
  lemma MovingIdempotent(s: seq<Slot>)
    ensures Moving(Moving(s)) == Moving(s)
  {
    MovingPositive(s);
    NoneDeparted(Moving(s));
  }

  /** `src[idx]` for an index list: a fresh array whose `k`-th entry is `src[idx[k]]`. */
  method Gather(src: array<real>, idx: seq<nat>) returns (r: array<real>)
    requires forall k :: 0 <= k < |idx| ==> idx[k] < src.Length
    ensures fresh(r) && r.Length == |idx|
    ensures forall k :: 0 <= k < |idx| ==> r[k] == src[idx[k]]
  {
    r := new real[|idx|];
    for k := 0 to |idx|
      invariant forall j :: 0 <= j < k ==> r[j] == src[idx[j]]
    {
      r[k] := src[idx[k]];
    }
  }

  /**
   * `inv[order] = np.arange(n)`: the inverse of a permutation of the
   * indices below `n`, so that slot `order[k]` holds `k`.
   */
  method InversePermutation(order: seq<nat>) returns (inv: array<nat>)
    requires Distinct(order)
    requires forall k :: 0 <= k < |order| ==> order[k] < |order|
    requires forall i :: 0 <= i < |order| ==> i in order
    ensures fresh(inv) && inv.Length == |order|
    ensures forall k :: 0 <= k < |order| ==> inv[order[k]] == k
    ensures forall i :: 0 <= i < |order| ==> inv[i] < |order|
  {
    inv := new nat[|order|];
    for k := 0 to |order|
      invariant forall j :: 0 <= j < k ==> inv[order[j]] == j
    {
      inv[order[k]] := k;
    }
    forall i | 0 <= i < |order|
      ensures inv[i] < |order|
    {
      assert i in order;
      var k :| 0 <= k < |order| && order[k] == i;
    }
  }

  /** The moving slots are all of them exactly when their number is the lane's. */
  lemma {:induction false} NoneDepartedCount(s: seq<Slot>)
    requires |Moving(s)| == |s|
    ensures Moving(s) == s
  {
    if s != [] {
      var init := s[..|s| - 1];
      NoneDepartedCount(init);
      assert s == init + [s[|s| - 1]];
    }
  }

  /** One lane's slot arrays and its count of vehicles. */
  class Lane {
    const x: array<real>
    const v: array<real>
    const stops: array<int>
    const atStopline: array<bool>
    const birthTime: array<real>
    var active: nat

    /** The arrays this lane owns. */
    ghost const Repr: set<object>

    /** The five arrays share one capacity, the count fits in it, and the real-valued arrays are distinct. */
    ghost predicate Valid()
      reads this
    {
      && Repr == {x, v, stops, atStopline, birthTime}
      && v.Length == x.Length && stops.Length == x.Length
      && atStopline.Length == x.Length && birthTime.Length == x.Length
      && active <= x.Length
      && x != v && x != birthTime && v != birthTime
    }

    /** The state of slot `m`. */
    function SlotAt(m: nat): Slot
      requires m < x.Length && m < v.Length && m < stops.Length && m < atStopline.Length
      reads x, v, stops, atStopline
    {
      Slot(x[m], v[m], stops[m], atStopline[m])
    }

    /** The vehicles on the lane, slot by slot. */
    function Live(): (r: seq<Slot>)
      requires Valid()
      reads this, x, v, stops, atStopline
      ensures |r| == active
      ensures forall i :: 0 <= i < active ==> r[i] == SlotAt(i)
    {
      seq(active, i reads this, x, v, stops, atStopline requires 0 <= i < active <= x.Length == v.Length == stops.Length == atStopline.Length
        => Slot(x[i], v[i], stops[i], atStopline[i]))
    }

    /**
     * One lane of `Fleet.empty`: no vehicles, zero stop counts, no
     * stop-line flags, zero birth times; positions and speeds are left
     * uninitialised, as `np.empty` leaves them.
     */
    constructor Empty(capacity: nat)
      ensures Valid() && fresh(Repr)
      ensures active == 0 && x.Length == capacity
      ensures forall i :: 0 <= i < capacity ==> stops[i] == 0 && !atStopline[i] && birthTime[i] == 0.0
    {
      x := new real[capacity];
      v := new real[capacity];
      stops := new int[capacity](_ => 0);
      atStopline := new bool[capacity](_ => false);
      birthTime := new real[capacity](_ => 0.0);
      active := 0;
      Repr := {x, v, stops, atStopline, birthTime};
    }

    /**
     * `spawn`: writes a new vehicle at the lane entry into slot `active`
     * and counts it; the other slots are untouched.
     */
    method Spawn(laneLen: real, v0: real := 0.0, t: real := 0.0)
      requires Valid() && active < x.Length
      modifies this, x, v, stops, atStopline, birthTime
      ensures Valid() && active == old(active) + 1
      ensures x[..] == old(x[..])[old(active) := laneLen]
      ensures v[..] == old(v[..])[old(active) := v0]
      ensures stops[..] == old(stops[..])[old(active) := 0]
      ensures atStopline[..] == old(atStopline[..])[old(active) := false]
      ensures birthTime[..] == old(birthTime[..])[old(active) := t]
      ensures Live() == old(Live()) + [Slot(laneLen, v0, 0, false)]
    {
      var i := active;
      x[i] := laneLen;
      v[i] := v0;
      stops[i] := 0;
      atStopline[i] := false;
      birthTime[i] := t;
      active := active + 1;
    }

    /**
     * `headways`: for each vehicle on the lane, the distance to the
     * vehicle just farther from the stop line, which is the one behind it,
     * found by ordering the vehicles from the farthest to the nearest and
     * unpermuting the gaps to their slots.
     */
    method Headways() returns (out: array<real>)
      requires Valid()
      ensures fresh(out)
      ensures IsHeadways(x[..active], out[..])
    {
      var n := active;
      if n <= 1 {
        out := new real[n](_ => NoLeader);
      } else {
        var order := ArgsortDesc(x[..n]);
        out := UnpermutedGaps(order);
      }
    }

    /**
     * `gaps[inv]` of `headways`: each vehicle's gap in the order `order`,
     * written back at the vehicle's own slot.
     */
    method UnpermutedGaps(order: seq<nat>) returns (out: array<real>)
      requires Valid() && 1 <= active && order == ArgsortDesc(x[..active])
      ensures fresh(out) && out.Length == active
      ensures forall k :: 0 <= k < active ==> out[order[k]] == Gap(x[..active], order, k)
    {
      var gaps := SortedGaps(order);
      var inv := InversePermutation(order);
      out := Gather(gaps, inv[..]);
      forall k | 0 <= k < active
        ensures out[order[k]] == Gap(x[..active], order, k)
      {
        assert inv[order[k]] == k;
      }
    }

    /**
     * `x_sorted` and `gaps` of `headways`: the positions in the order
     * `order` lists the slots, and each one's distance to the one before it.
     */
    method SortedGaps(order: seq<nat>) returns (gaps: array<real>)
      requires Valid() && 1 <= |order| <= active
      requires forall k :: 0 <= k < |order| ==> order[k] < |order|
      ensures fresh(gaps) && gaps.Length == |order|
      ensures forall k :: 0 <= k < |order| ==> gaps[k] == Gap(x[..|order|], order, k)
    {
      var n := |order|;
      var xSorted := Gather(x, order);
      gaps := new real[n];
      gaps[0] := NoLeader;
      for k := 1 to n
        modifies gaps
        invariant gaps[0] == NoLeader
        invariant forall j :: 1 <= j < k ==> gaps[j] == xSorted[j - 1] - xSorted[j]
      {
        gaps[k] := xSorted[k - 1] - xSorted[k];
      }
      forall k | 1 <= k < n
        ensures gaps[k] == Gap(x[..n], order, k)
      {
        assert xSorted[k - 1] == x[..n][order[k - 1]] && xSorted[k] == x[..n][order[k]];
      }
    }

    /** `int(keep.sum())`: the number of vehicles still before the stop line. */
    method CountMoving() returns (k: nat)
      requires Valid()
      ensures k == |Moving(Live())|
    {
      ghost var live := Live();
      k := 0;
      for j := 0 to active
        invariant k == |Moving(live[..j])|
      {
        MovingSnoc(live, j);
        if x[j] > 0.0 {
          k := k + 1;
        }
      }
      assert live[..active] == live;
    }

    /**
     * The compaction of `remove_departed`: the vehicles still before the
     * stop line are copied, in order, to the front of the position, speed,
     * stop and stop-line arrays; the slots behind them keep their contents.
     */
    method CompactMoving()
      requires Valid()
      modifies x, v, stops, atStopline
      ensures Valid()
      ensures |Moving(old(Live()))| <= active
      ensures forall m :: 0 <= m < |Moving(old(Live()))| ==> SlotAt(m) == Moving(old(Live()))[m]
      ensures forall m :: |Moving(old(Live()))| <= m < x.Length ==> SlotAt(m) == old(SlotAt(m))
    {
      ghost var before := Live();
      var n := active;
      var w := 0;
      for j := 0 to n
        invariant w == |Moving(before[..j])| && w <= j
        invariant forall m :: 0 <= m < w ==> SlotAt(m) == Moving(before[..j])[m]
        invariant forall m :: w <= m < x.Length ==> SlotAt(m) == old(SlotAt(m))
      {
        MovingSnoc(before, j);
        if x[j] > 0.0 {
          CopySlot(j, w);
          w := w + 1;
        }
      }
      assert before[..n] == before;
    }

    /** Slot `src`'s entries written over slot `dst` in all four arrays; every other slot keeps its own. */
    method CopySlot(src: nat, dst: nat)
      requires Valid() && src < x.Length && dst < x.Length
      modifies x, v, stops, atStopline
      ensures SlotAt(dst) == old(SlotAt(src))
      ensures forall m :: 0 <= m < x.Length && m != dst ==> SlotAt(m) == old(SlotAt(m))
    {
      x[dst] := x[src];
      v[dst] := v[src];
      stops[dst] := stops[src];
      atStopline[dst] := atStopline[src];
    }

    /**
     * `remove_departed`: when some vehicle has reached the stop line, the
     * remaining ones are compacted to the front in their order and the
     * count drops to their number; the number departed is returned. Birth
     * times are not compacted.
     */
    method RemoveDeparted() returns (departed: nat)
      requires Valid()
      modifies this, x, v, stops, atStopline
      ensures Valid()
      ensures Live() == Moving(old(Live()))
      ensures departed == old(active) - active
      ensures birthTime[..] == old(birthTime[..])
      ensures forall m :: active <= m < x.Length ==> SlotAt(m) == old(SlotAt(m))
      ensures departed == 0 ==>
        && active == old(active) && x[..] == old(x[..]) && v[..] == old(v[..])
        && stops[..] == old(stops[..]) && atStopline[..] == old(atStopline[..])
    {
      var n := active;
      ghost var before := Live();
      var k := CountMoving();
      if k < n {
        CompactMoving();
        active := k;
        assert Live() == Moving(before);
      } else {
        NoneDepartedCount(Live());
      }
      departed := n - k;
    }
  }

  /** Two lanes are different objects and share no array. */
  ghost predicate Separate(a: Lane, b: Lane)
  {
    a != b && a.Repr !! b.Repr
  }

  /**
   * `Fleet`: the per-approach dictionaries of arrays and counts, one lane
   * per direction.
   */
  class Fleet {
    const north: Lane
    const east: Lane
    const south: Lane
    const west: Lane

    /** The entry of each dictionary under direction `d`. */
    function LaneOf(d: Direction): Lane
    {
      match d
      case North => north
      case East => east
      case South => south
      case West => west
    }

    /** Every lane is valid, and no two lanes share an array. */
    ghost predicate Valid()
      reads this, north, east, south, west
    {
      && north.Valid() && east.Valid() && south.Valid() && west.Valid()
      && Separate(north, east) && Separate(north, south) && Separate(north, west)
      && Separate(east, south) && Separate(east, west) && Separate(south, west)
    }

    /** `Fleet.empty(max_per_dir)`: four empty lanes of the given capacity. */
    constructor Empty(maxPerDir: nat := DefaultCapacity)
      ensures Valid()
      ensures forall d: Direction :: LaneOf(d).active == 0 && LaneOf(d).x.Length == maxPerDir
      ensures forall d: Direction, i :: 0 <= i < maxPerDir ==>
        LaneOf(d).stops[i] == 0 && !LaneOf(d).atStopline[i] && LaneOf(d).birthTime[i] == 0.0
    {
      north := new Lane.Empty(maxPerDir);
      east := new Lane.Empty(maxPerDir);
      south := new Lane.Empty(maxPerDir);
      west := new Lane.Empty(maxPerDir);
    }

    /**
     * `spawn(d, ...)`: a vehicle appended to lane `d`. The frame names only
     * lane `d` and its arrays, which no other lane shares, so the other
     * lanes are untouched.
     */
    method Spawn(d: Direction, laneLen: real, v0: real := 0.0, t: real := 0.0)
      requires Valid() && LaneOf(d).active < LaneOf(d).x.Length
      modifies LaneOf(d), LaneOf(d).Repr
      ensures Valid()
      ensures LaneOf(d).Live() == old(LaneOf(d).Live()) + [Slot(laneLen, v0, 0, false)]
      ensures LaneOf(d).birthTime[..] == old(LaneOf(d).birthTime[..])[old(LaneOf(d).active) := t]
    {
      var lane := LaneOf(d);
      lane.Spawn(laneLen, v0, t);
    }

    /** `headways(d)`: the headways of lane `d`'s vehicles. */
    method Headways(d: Direction) returns (out: array<real>)
      requires Valid()
      ensures fresh(out)
      ensures IsHeadways(LaneOf(d).x[..LaneOf(d).active], out[..])
    {
      out := LaneOf(d).Headways();
    }

    /** `remove_departed(d)`: lane `d` compacted to its moving vehicles; as for `Spawn`, no other lane changes. */
    method RemoveDeparted(d: Direction) returns (departed: nat)
      requires Valid()
      modifies LaneOf(d), LaneOf(d).Repr
      ensures Valid()
      ensures LaneOf(d).Live() == Moving(old(LaneOf(d).Live()))
      ensures departed == old(LaneOf(d).active) - LaneOf(d).active
      ensures LaneOf(d).birthTime[..] == old(LaneOf(d).birthTime[..])
    {
      var lane := LaneOf(d);
      departed := lane.RemoveDeparted();
    }
  }
}
