/** JavaScript's `Number` on whole values: 53 significant bits, ties to even. */
module Doubles {
  import opened Decimal40

  const TWO53: int := 9007199254740992

  ghost function Halvings(v: real): nat {
    if v >= TWO53 as real then v.Floor else if v <= -(TWO53 as real) then (-v).Floor else 0
  }

  /** Halve until the value is below 2^53, round half even, double back. */
  function Nearest(v: real): int
    decreases Halvings(v)
  {
    if v >= TWO53 as real || v <= -(TWO53 as real) then 2 * Nearest(v / 2.0) else HalfEven(v)
  }

  /** The double nearest to a whole number. */
  function Number(n: int): int {
    Nearest(n as real)
  }

  /** Up to 2^53 every whole number is a double. */
  lemma NumberExact(n: int)
    requires -TWO53 <= n <= TWO53
    ensures Number(n) == n
  {
    if n == TWO53 {
      assert Nearest(n as real / 2.0) == HalfEven(n as real / 2.0) == TWO53 / 2;
    } else if n == -TWO53 {
      assert Nearest(n as real / 2.0) == HalfEven(n as real / 2.0) == -TWO53 / 2;
    }
  }

  lemma {:induction false} NearestSign(v: real)
    ensures 1.0 <= v ==> 0 < Nearest(v)
    ensures v <= -1.0 ==> Nearest(v) < 0
    decreases Halvings(v)
  {
    if v >= TWO53 as real || v <= -(TWO53 as real) {
      NearestSign(v / 2.0);
    }
  }

  /** Rounding keeps the sign of a whole number, so a subtraction in doubles goes negative
      exactly when the exact one does. */
  lemma NumberSign(n: int)
    ensures Number(n) < 0 <==> n < 0
    ensures Number(n) > 0 <==> n > 0
  {
    NearestSign(n as real);
    if n == 0 { NumberExact(0); }
  }

  /** A double no larger than 2^53 came from the number itself. */
  lemma NumberReflects(n: int)
    requires -TWO53 < Number(n) < TWO53
    ensures Number(n) == n
  {
    if n > TWO53 {
      NearestLarge(n as real);
    } else if n < -TWO53 {
      NearestLarge(n as real);
    } else {
      NumberExact(n);
    }
  }

  lemma {:induction false} NearestLarge(v: real)
    ensures v >= TWO53 as real ==> Nearest(v) >= TWO53
    ensures v <= -(TWO53 as real) ==> Nearest(v) <= -TWO53
    decreases Halvings(v)
  {
    if v >= TWO53 as real {
      if v / 2.0 >= TWO53 as real { NearestLarge(v / 2.0); } else { HalfEvenMonotone((TWO53 / 2) as real, v / 2.0); }
    } else if v <= -(TWO53 as real) {
      if v / 2.0 <= -(TWO53 as real) { NearestLarge(v / 2.0); }
      else { HalfEvenMonotone(v / 2.0, (-TWO53 / 2) as real); }
    }
  }

  // ---- No double is nearer ----

  function Pow2(e: nat): (p: int)
    ensures 0 < p
  {
    if e == 0 then 1 else 2 * Pow2(e - 1)
  }

  ghost predicate IsScaled2(n: int, m: int, e: nat) {
    -TWO53 <= m <= TWO53 && n == m * Pow2(e)
  }

  /** A whole number that a double holds: 53 bits times a power of two. */
  ghost predicate IsDouble(n: int) {
    exists m: int, e: nat :: IsScaled2(n, m, e)
  }

  lemma DoubleOfDouble(n: int, m: int, e: nat)
    requires IsScaled2(n, m, e)
    ensures IsScaled2(2 * n, m, e + 1)
  {
    assert m * (2 * Pow2(e)) == 2 * (m * Pow2(e));
  }

  lemma {:induction false} NearestIsDouble(v: real)
    ensures IsDouble(Nearest(v))
    decreases Halvings(v)
  {
    if v >= TWO53 as real || v <= -(TWO53 as real) {
      NearestIsDouble(v / 2.0);
      var m: int, e: nat :| IsScaled2(Nearest(v / 2.0), m, e);
      DoubleOfDouble(Nearest(v / 2.0), m, e);
    } else {
      HalfEvenMonotone(v, TWO53 as real);
      HalfEvenMonotone(-(TWO53 as real), v);
      assert Pow2(0) == 1 && IsScaled2(HalfEven(v), HalfEven(v), 0);
    }
  }

  function Off(n: int, v: real): real {
    if n as real <= v then v - n as real else n as real - v
  }

  lemma OffHalved(a: int, b: int, v: real)
    requires Off(a, v / 2.0) <= Off(b, v / 2.0)
    ensures Off(2 * a, v) <= Off(2 * b, v)
  {
  }

  /** Beyond the edge no whole number of 53 bits is nearer than the one at the edge, which is even. */
  lemma EdgeIsNearer(v: real, near: int, n: int)
    requires -TWO53 <= n <= TWO53
    requires v >= TWO53 as real || v <= -(TWO53 as real)
    requires Off(near, v / 2.0) <= Off(if v > 0.0 then TWO53 / 2 else -TWO53 / 2, v / 2.0)
    ensures Off(2 * near, v) <= Off(n, v)
  {
    if v > 0.0 { OffHalved(near, TWO53 / 2, v); } else { OffHalved(near, -TWO53 / 2, v); }
  }

  lemma Halved(m: int, e: nat)
    requires 0 < e
    ensures m * Pow2(e) == 2 * (m * Pow2(e - 1))
  {
  }

  lemma {:induction false} NearestIsNearest(v: real, n: int, m: int, e: nat)
    requires IsScaled2(n, m, e)
    ensures Off(Nearest(v), v) <= Off(n, v)
    decreases Halvings(v), e
  {
    if v >= TWO53 as real || v <= -(TWO53 as real) {
      if e == 0 {
        var half := if v > 0.0 then TWO53 / 2 else -TWO53 / 2;
        assert IsScaled2(half, half, 0);
        NearestIsNearest(v / 2.0, half, half, 0);
        EdgeIsNearer(v, Nearest(v / 2.0), n);
      } else {
        var w := m * Pow2(e - 1);
        NearestIsNearest(v / 2.0, w, m, e - 1);
        Halved(m, e);
        OffHalved(Nearest(v / 2.0), w, v);
      }
    } else {
      HalfEvenNearest(v, n);
    }
  }

  lemma HalfEvenNearest(v: real, n: int)
    ensures Off(HalfEven(v), v) <= Off(n, v)
  {
    if n <= v.Floor {
      assert n as real <= v.Floor as real <= v;
    } else {
      assert v < (v.Floor + 1) as real <= n as real;
    }
  }

  /** `Number` gives a double, and none is nearer to the whole number it is given. */
  lemma NumberNearest(n: int, double: int)
    requires IsDouble(double)
    ensures IsDouble(Number(n)) && Off(Number(n), n as real) <= Off(double, n as real)
  {
    NearestIsDouble(n as real);
    var m: int, e: nat :| IsScaled2(double, m, e);
    NearestIsNearest(n as real, double, m, e);
  }
}
