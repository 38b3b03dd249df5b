/**
 * Python arithmetic that Dafny does not provide directly: the float
 * remainder `t % c`, whose result takes the sign of the divisor, and the
 * built-in `max`/`min` of two numbers. A zero divisor raises
 * ZeroDivisionError in Python, so FMod requires a non-zero divisor.
 */
module PyMath {
  function Max(a: real, b: real): real { if a >= b then a else b }
  function Min(a: real, b: real): real { if a <= b then a else b }

  /** Python's `t % c` on floats: `t - c * floor(t / c)`. */
  function FMod(t: real, c: real): (r: real)
    requires c != 0.0
    ensures c > 0.0 ==> 0.0 <= r < c
    ensures c < 0.0 ==> c < r <= 0.0
  {
    RemainderBounds(t, c, t - c * (t / c).Floor as real);
    t - c * (t / c).Floor as real
  }

  lemma RemainderBounds(t: real, c: real, r: real)
    requires c != 0.0
    requires r == t - c * (t / c).Floor as real
    ensures c > 0.0 ==> 0.0 <= r < c
    ensures c < 0.0 ==> c < r <= 0.0
  {
    var q := t / c;
    var f := q.Floor as real;
    var x := q - f;
    assert 0.0 <= x < 1.0;
    Cancel(t, c);
    Distribute(c, q, f);
    assert r == c * x;
    if c > 0.0 {
      ScaleUnitInterval(c, x);
    } else {
      ScaleUnitInterval(-c, x);
      Distribute(c, x, 0.0);
    }
  }

  lemma Cancel(t: real, c: real)
    requires c != 0.0
    ensures c * (t / c) == t
    ensures c * (t / c + 1.0) == t + c
  {
  }

  lemma Distribute(c: real, q: real, f: real)
    ensures c * (q - f) == c * q - c * f
    ensures c * (f + 1.0) == c * f + c
    ensures (-c) * q == -(c * q)
  {
  }

  /** For `0 <= x < 1` and a positive scale `c`, `c * x` lies in `[0, c)`. */
  lemma ScaleUnitInterval(c: real, x: real)
    requires c > 0.0 && 0.0 <= x < 1.0
    ensures 0.0 <= c * x < c
  {
  }

  /** Division undoes multiplication by a non-zero factor. */
  lemma DivisionByFactor(a: real, c: real, x: real)
    requires c != 0.0 && c * x == a
    ensures a / c == x
  {
  }

  /** The remainder is unchanged by adding one whole divisor: `(t + c) % c == t % c`. */
  lemma FModPeriodic(t: real, c: real)
    requires c != 0.0
    ensures FMod(t + c, c) == FMod(t, c)
  {
    var q := t / c;
    var f := q.Floor as real;
    Cancel(t, c);
    DivisionByFactor(t + c, c, q + 1.0);
    assert (t + c) / c == q + 1.0;
    ShiftedFloor(q);
    assert ((t + c) / c).Floor as real == f + 1.0;
    Distribute(c, q, f);
    assert c * (f + 1.0) == c * f + c;
    assert FMod(t + c, c) == t + c - c * (f + 1.0);
    assert FMod(t, c) == t - c * f;
  }

  /** Adding one moves the floor up by exactly one. */
  lemma ShiftedFloor(q: real)
    ensures (q + 1.0).Floor == q.Floor + 1
  {
  }

  /** A time already inside the first period is its own remainder. */
  lemma FModOfFirstPeriod(t: real, c: real)
    requires 0.0 <= t < c
    ensures FMod(t, c) == t
  {
    var q := t / c;
    Cancel(t, c);
    assert c * q == t;
    QuotientInUnitInterval(t, c, q);
    assert q.Floor == 0;
    assert c * 0.0 == 0.0;
  }

  /** A positive factor keeps the sign of the other. */
  lemma SignOfProduct(c: real, x: real)
    requires c > 0.0
    ensures x >= 0.0 <==> c * x >= 0.0
  {
  }

  /** If `c * q == t` with `0 <= t < c`, the quotient `q` lies in `[0, 1)`. */
  lemma QuotientInUnitInterval(t: real, c: real, q: real)
    requires 0.0 <= t < c && c * q == t
    ensures 0.0 <= q < 1.0
  {
    SignOfProduct(c, q);
    SignOfProduct(c, q - 1.0);
    Distribute(c, q, 1.0);
  }
}
