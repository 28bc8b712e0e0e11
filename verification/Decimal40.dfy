/** Decimal arithmetic at 40 significant digits with banker's rounding, the
    configuration the FX engine gives its decimal library.  A decimal is modelled by its
    value, a real; every division and multiplication is followed by `Round`. */
module Decimal40 {
  // Ten to the 39th, the smallest integer of 40 digits, and ten to the 40th.
  const E39: real := 1000000000000000000000000000000000000000.0
  const E40: real := 10000000000000000000000000000000000000000.0

  /** Round half even to an integer. */
  function HalfEven(v: real): (n: int)
    ensures -0.5 <= n as real - v <= 0.5
    ensures n as real - v == 0.5 || n as real - v == -0.5 ==> n % 2 == 0
  {
    var f := v.Floor;
    var d := v - f as real;
    if d < 0.5 || (d == 0.5 && f % 2 == 0) then f else f + 1
  }

  ghost function Distance(v: real): nat
    requires 0.0 < v
  {
    if v >= E40 then v.Floor else if v < E39 then (E39 / v).Floor else 0
  }

  lemma DistanceDown(v: real)
    requires E40 <= v
    ensures Distance(v / 10.0) < Distance(v)
  {
  }

  lemma DistanceUp(v: real)
    requires 0.0 < v < E39
    ensures Distance(v * 10.0) < Distance(v)
  {
    var q := E39 / v;
    Quotient(v);
    assert Distance(v) == q.Floor;
    if v * 10.0 < E39 {
      assert Distance(v * 10.0) == (q / 10.0).Floor;
    }
  }

  lemma Quotient(v: real)
    requires 0.0 < v < E39
    ensures E39 / v > 1.0
    ensures E39 / (v * 10.0) == E39 / v / 10.0
  {
    var q := E39 / v;
    assert q * v == E39;
    assert q * v > v;
    assert (q - 1.0) * v > 0.0;
    assert (q / 10.0) * (v * 10.0) == E39;
  }

  /** Round a positive value to 40 significant digits: scale it until its integer part
      has 40 digits, round that half even, scale back. */
  function Rnd(v: real): (r: real)
    requires 0.0 < v
    ensures 0.0 < r
    decreases Distance(v)
  {
    if v >= E40 then DistanceDown(v); 10.0 * Rnd(v / 10.0)
    else if v < E39 then DistanceUp(v); Rnd(v * 10.0) / 10.0
    else HalfEven(v) as real
  }

  /** Rounding of any value; the rule is symmetric in the sign. */
  function Round(v: real): real {
    if v > 0.0 then Rnd(v) else if v < 0.0 then -Rnd(-v) else 0.0
  }

  lemma RndScale(v: real)
    requires 0.0 < v
    ensures Rnd(v * 10.0) == 10.0 * Rnd(v)
  {
    assert v * 10.0 / 10.0 == v;
  }

  /** The relative error is at most half a unit in the 40th digit, 5e-40. */
  lemma {:induction false} RndError(v: real)
    requires 0.0 < v
    ensures -v <= 2.0 * E39 * (Rnd(v) - v) <= v
    decreases Distance(v)
  {
    if v >= E40 {
      DistanceDown(v);
      RndError(v / 10.0);
    } else if v < E39 {
      DistanceUp(v);
      RndError(v * 10.0);
    }
  }

  lemma {:induction false} RndLarge(v: real)
    requires v >= E40
    ensures Rnd(v) >= E40
    decreases Distance(v)
  {
    DistanceDown(v);
    var w := v / 10.0;
    assert Rnd(v) == 10.0 * Rnd(w);
    if w >= E40 {
      RndLarge(w);
    } else {
      assert Rnd(w) == HalfEven(w) as real;
    }
  }

  lemma {:induction false} RndMonotone(v: real, w: real)
    requires 0.0 < v <= w
    ensures Rnd(v) <= Rnd(w)
    decreases Distance(v)
  {
    if v >= E40 {
      DistanceDown(v);
      RndMonotone(v / 10.0, w / 10.0);
    } else if v < E39 {
      DistanceUp(v);
      RndMonotone(v * 10.0, w * 10.0);
      RndScale(w);
    } else if w >= E40 {
      RndLarge(w);
      HalfEvenMonotone(v, E40);
    } else {
      HalfEvenMonotone(v, w);
    }
  }

  lemma HalfEvenMonotone(v: real, w: real)
    requires v <= w
    ensures HalfEven(v) <= HalfEven(w)
  {
    assert v.Floor <= w.Floor;
  }

  lemma RoundMonotone(v: real, w: real)
    requires v <= w
    ensures Round(v) <= Round(w)
  {
    if v > 0.0 {
      RndMonotone(v, w);
    } else if w < 0.0 {
      RndMonotone(-w, -v);
    }
  }

  // ---- The values that 40 digits can hold ----

  function Pow10(e: int): (p: real)
    ensures 0.0 < p
    decreases if e < 0 then -e else e
  {
    if e == 0 then 1.0 else if e > 0 then 10.0 * Pow10(e - 1) else Pow10(e + 1) / 10.0
  }

  lemma Pow10Step(e: int)
    ensures Pow10(e + 1) == 10.0 * Pow10(e)
  {
  }

  /** An independent reading of "40 significant digits": an integer below 10^40 times a
      power of ten. */
  ghost predicate Digits40(v: real) {
    exists m: int, e: int :: IsScaled(v, m, e)
  }

  ghost predicate IsScaled(v: real, m: int, e: int) {
    -E40 < m as real < E40 && v == m as real * Pow10(e)
  }

  lemma DigitsScale(v: real)
    ensures Digits40(v) ==> Digits40(v * 10.0) && Digits40(v / 10.0)
  {
    if Digits40(v) {
      var m, e :| IsScaled(v, m, e);
      Pow10Step(e);
      Pow10Step(e - 1);
      assert v * 10.0 == m as real * Pow10(e + 1);
      assert v / 10.0 == m as real * Pow10(e - 1);
      assert IsScaled(v * 10.0, m, e + 1);
      assert IsScaled(v / 10.0, m, e - 1);
    }
  }

  lemma DigitsInt(n: int)
    requires -E40 < n as real < E40
    ensures Digits40(n as real)
  {
    assert IsScaled(n as real, n, 0);
  }

  /** The result of a rounding fits. */
  lemma {:induction false} RndFits(v: real)
    requires 0.0 < v
    ensures Digits40(Rnd(v))
    decreases Distance(v)
  {
    if v >= E40 {
      DistanceDown(v);
      RndFits(v / 10.0);
      DigitsScale(Rnd(v / 10.0));
    } else if v < E39 {
      DistanceUp(v);
      RndFits(v * 10.0);
      DigitsScale(Rnd(v * 10.0));
    } else if Rnd(v) == E40 {
      DigitsInt(E39.Floor);
      DigitsScale(E39);
    } else {
      DigitsInt(HalfEven(v));
    }
  }

  lemma WholeFloor(v: real, n: int)
    requires v == n as real
    ensures v.Floor as real == v
  {
  }

  lemma ScaledIsWhole(m: int, e: int)
    requires 0 < m && m as real < E40 && m as real * Pow10(e) >= E39
    ensures (m as real * Pow10(e)).Floor as real == m as real * Pow10(e)
  {
    if e >= 0 {
      PowWhole(e);
      ProductOfWholes(m, Pow10(e).Floor);
      WholeFloor(m as real * Pow10(e), m * Pow10(e).Floor);
    } else {
      BelowE39(m, e);
    }
  }

  lemma BelowE39(m: int, e: int)
    requires 0 < m && m as real < E40 && e < 0
    ensures m as real * Pow10(e) < E39
  {
    PowSmall(e);
    assert m as real * Pow10(e) <= m as real * 0.1;
  }

  lemma {:induction false} ProductOfWholes(m: int, k: int)
    requires 0 <= m
    ensures m as real * k as real == (m * k) as real
  {
    if m > 0 {
      ProductOfWholes(m - 1, k);
      assert m as real * k as real == (m - 1) as real * k as real + k as real;
      assert m * k == (m - 1) * k + k;
    }
  }

  lemma {:induction false} PowSmall(e: int)
    requires e < 0
    ensures Pow10(e) <= 0.1
    decreases -e
  {
    if e < -1 { PowSmall(e + 1); }
  }

  lemma {:induction false} PowWhole(e: int)
    requires e >= 0
    ensures Pow10(e).Floor as real == Pow10(e)
  {
    if e > 0 {
      PowWhole(e - 1);
      assert (10 * Pow10(e - 1).Floor) as real == Pow10(e);
    }
  }

  /** Rounding changes nothing exactly when the value fits. */
  lemma {:induction false} RndIdentity(v: real)
    requires 0.0 < v
    ensures Rnd(v) == v <==> Digits40(v)
    decreases Distance(v)
  {
    if v >= E40 {
      DistanceDown(v);
      RndIdentity(v / 10.0);
      DigitsScale(v);
      DigitsScale(v / 10.0);
    } else if v < E39 {
      DistanceUp(v);
      RndIdentity(v * 10.0);
      DigitsScale(v);
      DigitsScale(v * 10.0);
    } else {
      if Rnd(v) == v {
        RndFits(v);
      }
      if Digits40(v) {
        FitsIsWhole(v);
      }
    }
  }

  /** From 10^39 on, a value of 40 digits has no fraction. */
  lemma FitsIsWhole(v: real)
    requires E39 <= v && Digits40(v)
    ensures v.Floor as real == v
  {
    var m, e :| IsScaled(v, m, e);
    ScaledWhole(v, m, e);
  }

  lemma ScaledWhole(v: real, m: int, e: int)
    requires E39 <= v && m as real < E40 && v == m as real * Pow10(e)
    ensures v.Floor as real == v
  {
    PositiveFactor(m, Pow10(e));
    ScaledIsWhole(m, e);
  }

  lemma PositiveFactor(m: int, p: real)
    requires 0.0 < p && 0.0 < m as real * p
    ensures 0 < m
  {
  }

  lemma RoundIdentity(v: real)
    ensures Digits40(v) ==> Round(v) == v
    ensures Digits40(Round(v))
  {
    if v > 0.0 {
      RndIdentity(v);
      RndFits(v);
    } else if v < 0.0 {
      DigitsNegate(v);
      RndIdentity(-v);
      RndFits(-v);
      DigitsNegate(Rnd(-v));
    } else {
      DigitsInt(0);
    }
  }

  lemma DigitsNegate(v: real)
    ensures Digits40(v) ==> Digits40(-v)
  {
    if Digits40(v) {
      var m, e :| IsScaled(v, m, e);
      assert IsScaled(-v, -m, e);
    }
  }

  /** Correct rounding: no value of 40 digits is nearer. */
  lemma {:induction false} RndNearest(v: real, w: real)
    requires 0.0 < v && Digits40(w)
    ensures Abs(Rnd(v) - v) <= Abs(w - v)
    decreases Distance(v)
  {
    if v >= E40 {
      DistanceDown(v);
      DigitsScale(w);
      RndNearest(v / 10.0, w / 10.0);
    } else if v < E39 {
      DistanceUp(v);
      DigitsScale(w);
      RndNearest(v * 10.0, w * 10.0);
    } else if E39 <= w {
      FitsIsWhole(w);
      NearestWhole(v, w.Floor);
    } else {
      NearestWhole(v, E39.Floor);
    }
  }

  lemma NearestWhole(v: real, n: int)
    ensures Abs(HalfEven(v) as real - v) <= Abs(n as real - v)
  {
    var f := v.Floor;
    if n <= f {
      assert n as real <= f as real;
    } else {
      assert n as real >= (f + 1) as real;
    }
  }

  function Abs(v: real): real {
    if v < 0.0 then -v else v
  }
}
