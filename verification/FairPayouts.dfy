/** What a conversion pays against the true ratio of two rates as a provider quotes them: the whole
    subunits owed, never one more, and one less only when the amount owed is itself whole. */
module FairPayouts {
  import opened Currencies
  import opened Decimal40
  import opened Money
  import opened ConversionLoops

  // Rates arrive as doubles, which print with at most 17 significant digits.
  const E17: int := 100_000_000_000_000_000

  // No balance exceeds the seed of nine quadrillion.
  const MOST: int := 9_000_000_000_000_000

  ghost predicate IsQuoted(v: real, m: int, e: int) {
    0 < m < E17 && v == At(m as real, Pow10(e))
  }

  ghost predicate Quoted(v: real) {
    exists m: int, e: int :: IsQuoted(v, m, e)
  }

  /** What the amount is worth at the exact ratio of the two rates, in subunits. */
  ghost function Owed(x: int, src: Currency, dst: Currency, fromRate: real, toRate: real): real
    requires 0.0 < fromRate
  {
    ExactConversion(x, src, dst, toRate / fromRate)
  }

  // ---- Two roundings away from what is owed ----

  /** The least a rounding can leave of v. */
  function Lost(v: real): real {
    v - v / 2000000000000000000000000000000000000000.0
  }

  lemma RoundLoses(v: real)
    requires 0.0 <= v
    ensures Lost(v) <= Round(v)
  {
    if v > 0.0 { RndError(v); }
  }

  lemma AtLoses(d: real, q: real)
    ensures At(d, Lost(q)) == Lost(At(d, q))
  {
    var t := 2000000000000000000000000000000000000000.0;
    assert d * (q - q / t) == d * q - d * (q / t);
    assert d * (q / t) == d * q / t;
  }

  lemma UpScales(v: real, c: Currency)
    ensures Up(Lost(v), c) == Lost(Up(v, c)) && Up(Gained(v), c) == Gained(Up(v, c))
  {
    FactorCases(v, c);
    FactorCases(Lost(v), c);
    FactorCases(Gained(v), c);
  }

  lemma UpMonotone(v: real, w: real, c: Currency)
    requires v <= w
    ensures Up(v, c) <= Up(w, c)
  {
    FactorCases(v, c);
    FactorCases(w, c);
  }

  /** A price at a rounded rate, rounded, lies within two roundings of the exact price. */
  lemma PriceNearExact(d: real, q: real)
    requires 0.0 <= d && 0.0 < q
    ensures Lost(Lost(At(d, q))) <= Round(At(d, Round(q))) <= Gained(Gained(At(d, q)))
  {
    RoundGains(q);
    RoundLoses(q);
    PriceGains(d, Round(q), q);
    var p := At(d, Round(q));
    ProductMonotone(d, d, Lost(q), Round(q));
    AtLoses(d, q);
    AtScales(d, 0.0);
    ProductMonotone(d, d, 0.0, Round(q));
    RoundLoses(p);
    LostMonotone(Lost(At(d, q)), p);
  }

  lemma LostMonotone(v: real, w: real)
    requires v <= w
    ensures Lost(v) <= Lost(w)
  {
  }

  lemma PayoutNearOwed(x: int, src: Currency, dst: Currency, fromRate: real, toRate: real)
    requires 0 <= x && Digits40(x as real) && 0.0 < fromRate && 0.0 < toRate
    ensures var paid := ConvertSubunits(x, src, dst, CrossRate(fromRate, toRate));
            var owed := Owed(x, src, dst, fromRate, toRate);
            paid as real <= Gained(Gained(owed)) && Lost(Lost(owed)) < (paid + 1) as real
  {
    var d, q := Down(x as real, src), toRate / fromRate;
    FactorCases(x as real, src);
    RatioPositive(toRate, fromRate);
    PriceNearExact(d, q);
    FromSubunitsExact(x, src);
    var p := At(d, Round(q));
    ToSubunitsOfRounded(p, dst);
    RoundFactor(p, dst);
    UpMonotone(Lost(Lost(At(d, q))), Round(p), dst);
    UpMonotone(Round(p), Gained(Gained(At(d, q))), dst);
    UpScales(At(d, q), dst);
    UpScales(Lost(At(d, q)), dst);
    UpScales(Gained(At(d, q)), dst);
    RoundIdentity(Up(p, dst));
  }

  // ---- Whole numbers two roundings apart are in order ----

  lemma WholeOrder(a: int, b: int)
    requires 0 <= a && 0 <= b && (a as real < E39 / 10.0 || b as real < E39 / 10.0)
    ensures a as real <= Gained(Gained(b as real)) ==> a <= b
    ensures Lost(Lost(b as real)) < a as real ==> b <= a
  {
  }

  lemma {:induction false} PowSum(m: int, k: nat)
    ensures Pow10(m + k) == At(Pow10(m), Pow10(k))
  {
    if k > 0 {
      PowSum(m, k - 1);
      Pow10Step(m + k - 1);
      Pow10Step(k - 1);
      TenTimesAt(Pow10(m), Pow10(k - 1));
    }
  }

  lemma TenTimesAt(p: real, r: real)
    ensures At(p, 10.0 * r) == 10.0 * At(p, r)
  {
    assert p * (10.0 * r) == 10.0 * (p * r);
  }

  function TenTo(k: nat): (t: int)
    ensures 0 < t && t as real == Pow10(k)
  {
    if k == 0 then 1 else TenTimesReal(TenTo(k - 1)); 10 * TenTo(k - 1)
  }

  lemma TenTimesReal(n: int)
    ensures (10 * n) as real == 10.0 * n as real
  {
  }

  function Times(a: int, b: int): int {
    a * b
  }

  lemma TimesReal(a: int, b: int)
    requires 0 <= a && 0 <= b
    ensures 0 <= Times(a, b) && Times(a, b) as real == At(a as real, b as real)
  {
    ProductOfWholes(a, b);
  }

  /** A whole number times a factor times a rate's digits, shifted. */
  function Units(n: int, factor: int, digits: int, shift: nat): int {
    Times(Times(Times(n, factor), digits), TenTo(shift))
  }

  lemma UnitsReal(n: int, factor: int, digits: int, shift: nat)
    requires 0 <= n && 0 <= factor && 0 <= digits
    ensures 0 <= Units(n, factor, digits, shift)
    ensures Units(n, factor, digits, shift) as real ==
            At(At(At(n as real, factor as real), digits as real), Pow10(shift))
  {
    TimesReal(n, factor);
    TimesReal(Times(n, factor), digits);
    TimesReal(Times(Times(n, factor), digits), TenTo(shift));
  }

  lemma UnitsSmall(n: int, factor: int, digits: int)
    requires 0 <= n <= MOST + 1 && (factor == 1 || factor == 100) && 0 < digits < E17
    ensures Units(n, factor, digits, 0) as real < E39 / 10.0
  {
    var k := Times(n, factor);
    assert 0 <= k <= 100 * (MOST + 1);
    TimesBounded(k, 100 * (MOST + 1), digits, E17);
    assert Units(n, factor, digits, 0) == Times(k, digits);
  }

  lemma TimesBounded(a: int, b: int, c: int, d: int)
    requires 0 <= a <= b && 0 <= c <= d
    ensures Times(a, c) <= Times(b, d)
  {
    assert a * c <= b * c;
    assert b * c <= b * d;
  }

  // ---- The comparison at the rates' own scale ----

  lemma FactorIs(c: Currency)
    ensures SubunitFactor(c) == 1 || SubunitFactor(c) == 100
  {
  }

  /** What is owed, times the source side, is the amount times the target side. */
  lemma OwedCrosses(x: int, src: Currency, dst: Currency, fromRate: real, toRate: real)
    requires 0.0 < fromRate
    ensures At(At(SubunitFactor(src) as real, fromRate), Owed(x, src, dst, fromRate, toRate))
         == At(At(x as real, SubunitFactor(dst) as real), toRate)
  {
    var f, g, v := SubunitFactor(src) as real, SubunitFactor(dst) as real, x as real;
    FactorIs(src);
    Quotients(v, f);
    Quotients(toRate, fromRate);
    Crossed(f, fromRate, v / f, toRate / fromRate, g);
  }

  lemma Quotients(v: real, f: real)
    requires 0.0 < f
    ensures At(v / f, f) == v
  {
  }

  lemma Crossed(f: real, r: real, d: real, q: real, g: real)
    ensures At(At(f, r), At(d, q) * g) == At(At(At(d, f), g), At(q, r))
  {
    assert f * r * (d * q * g) == d * f * g * (q * r);
  }

  lemma OrderScale(s: real, u: real, w: real)
    requires 0.0 < s
    ensures At(s, u) <= At(s, w) <==> u <= w
  {
    if u <= w {
      assert s * u <= s * w;
    } else {
      assert s * u > s * w;
    }
  }

  /** Two pairs in the same proportion compare alike, with and without slack. */
  lemma Rescale(s: real, p: real, n: real, v: real, a: real, b: real)
    requires 0.0 < s && 0.0 < p && At(s, n) == At(p, a) && At(s, v) == At(p, b)
    ensures n <= Gained(Gained(v)) <==> a <= Gained(Gained(b))
    ensures Lost(Lost(v)) < n <==> Lost(Lost(b)) < a
    ensures (n <= v <==> a <= b) && (v <= n <==> b <= a)
  {
    ScaleGains(s, v);
    ScaleGains(p, b);
    OrderScale(s, n, Gained(Gained(v)));
    OrderScale(p, a, Gained(Gained(b)));
    OrderScale(s, n, Lost(Lost(v)));
    OrderScale(p, a, Lost(Lost(b)));
    OrderScale(s, n, v);
    OrderScale(p, a, b);
    OrderScale(s, v, n);
    OrderScale(p, b, a);
  }

  lemma ScaleGains(s: real, v: real)
    ensures At(s, Gained(Gained(v))) == Gained(Gained(At(s, v))) && At(s, Lost(Lost(v))) == Lost(Lost(At(s, v)))
  {
    AtScales(s, v);
    AtScales(s, Gained(v));
    AtLoses(s, v);
    AtLoses(s, Lost(v));
  }

  lemma Regroup(w: real, d: real, p: real, t: real)
    ensures At(w, At(d, At(p, t))) == At(p, At(At(w, d), t))
  {
    assert w * (d * (p * t)) == p * (w * d * t);
  }

  lemma PowSplit(e: int, m: int)
    requires m <= e
    ensures Pow10(e) == At(Pow10(m), Pow10(e - m))
  {
    PowSum(m, e - m);
  }

  /** Both sides are whole multiples of one power of ten. */
  lemma SideIsWhole(n: int, factor: int, rate: real, digits: int, e: int, m: int)
    requires 0 <= n && 0 <= factor && IsQuoted(rate, digits, e) && m <= e
    ensures At(At(n as real, factor as real), rate) == At(Pow10(m), Units(n, factor, digits, e - m) as real)
  {
    UnitsReal(n, factor, digits, e - m);
    PowSplit(e, m);
    Regroup(At(n as real, factor as real), digits as real, Pow10(m), Pow10(e - m));
  }

  lemma Exchange(f: real, r: real, n: real)
    ensures At(At(f, r), n) == At(At(n, f), r)
  {
    assert f * r * n == n * f * r;
  }

  lemma ScalePositive(f: int, r: real)
    requires (f == 1 || f == 100) && 0.0 < r
    ensures 0.0 < At(f as real, r)
  {
  }

  lemma OwedOrderAt(n: int, x: int, src: Currency, dst: Currency, fromRate: real, toRate: real, a: int, i: int, b: int,
                    j: int)
    requires IsQuoted(fromRate, a, i) && IsQuoted(toRate, b, j) && 0.0 < fromRate && 0.0 < toRate
    requires 0 <= n <= MOST + 1 && 0 <= x <= MOST
    ensures var owed := Owed(x, src, dst, fromRate, toRate);
            && (n as real <= Gained(Gained(owed)) ==> n as real <= owed)
            && (Lost(Lost(owed)) < n as real ==> owed <= n as real)
  {
    var m := if i <= j then i else j;
    var f, g := SubunitFactor(src), SubunitFactor(dst);
    FactorIs(src);
    FactorIs(dst);
    var left, right := Units(n, f, a, i - m), Units(x, g, b, j - m);
    SideIsWhole(n, f, fromRate, a, i, m);
    SideIsWhole(x, g, toRate, b, j, m);
    OwedCrosses(x, src, dst, fromRate, toRate);
    var s := At(f as real, fromRate);
    ScalePositive(f, fromRate);
    Exchange(f as real, fromRate, n as real);
    Rescale(s, Pow10(m), n as real, Owed(x, src, dst, fromRate, toRate), left as real, right as real);
    UnitsReal(n, f, a, i - m);
    UnitsReal(x, g, b, j - m);
    if i == m { UnitsSmall(n, f, a); } else { UnitsSmall(x, g, b); }
    WholeOrder(left, right);
  }

  /** A whole number n and what is owed, compared with two roundings of slack, compare exactly. */
  lemma OwedOrder(n: int, x: int, src: Currency, dst: Currency, fromRate: real, toRate: real)
    requires Quoted(fromRate) && Quoted(toRate) && 0.0 < fromRate && 0.0 < toRate
    requires 0 <= n <= MOST + 1 && 0 <= x <= MOST
    ensures var owed := Owed(x, src, dst, fromRate, toRate);
            && (n as real <= Gained(Gained(owed)) ==> n as real <= owed)
            && (Lost(Lost(owed)) < n as real ==> owed <= n as real)
  {
    var a: int, i: int :| IsQuoted(fromRate, a, i);
    var b: int, j: int :| IsQuoted(toRate, b, j);
    OwedOrderAt(n, x, src, dst, fromRate, toRate, a, i, b, j);
  }

  /** For rates a provider can quote and amounts that fit the books, a conversion pays the whole
      subunits owed at the exact ratio of the two rates: never more, and less by one only when
      the amount owed is whole. */
  lemma PaysWhatIsOwed(x: int, src: Currency, dst: Currency, fromRate: real, toRate: real)
    requires Quoted(fromRate) && Quoted(toRate) && 0.0 < fromRate && 0.0 < toRate && 0 <= x <= MOST
    requires 0 <= ConvertSubunits(x, src, dst, CrossRate(fromRate, toRate)) <= MOST
    ensures var paid := ConvertSubunits(x, src, dst, CrossRate(fromRate, toRate));
            var owed := Owed(x, src, dst, fromRate, toRate);
            paid == owed.Floor || (paid + 1) as real == owed
  {
    var paid := ConvertSubunits(x, src, dst, CrossRate(fromRate, toRate));
    DigitsInt(x);
    PayoutNearOwed(x, src, dst, fromRate, toRate);
    OwedOrder(paid, x, src, dst, fromRate, toRate);
    OwedOrder(paid + 1, x, src, dst, fromRate, toRate);
  }

  /** The amount priced exactly, at the cross rate as the library rounds it. */
  ghost function Priced(x: int, src: Currency, dst: Currency, fromRate: real, toRate: real): real
    requires 0.0 < fromRate
  {
    ExactConversion(x, src, dst, CrossRate(fromRate, toRate))
  }

  lemma {:induction false} HalfUlpSmall(v: real)
    requires 0.0 < v < E40
    ensures 0.0 < HalfUlp(v) <= 0.5
    decreases Distance(v)
  {
    if v < E39 {
      DistanceUp(v);
      HalfUlpSmall(v * 10.0);
    }
  }

  lemma PricedPositive(x: int, src: Currency, dst: Currency, fromRate: real, toRate: real)
    requires 0 < x && 0.0 < fromRate && 0.0 < toRate
    ensures 0.0 < Priced(x, src, dst, fromRate, toRate)
  {
    var d, r := Down(x as real, src), CrossRate(fromRate, toRate);
    FactorCases(x as real, src);
    RatioPositive(toRate, fromRate);
    RoundLoses(toRate / fromRate);
    AtPositive(d, r);
    FactorCases(At(d, r), dst);
  }

  lemma AtPositive(d: real, r: real)
    requires 0.0 < d && 0.0 < r
    ensures 0.0 < At(d, r)
  {
  }

  lemma PayoutBoundsPrice(x: int, src: Currency, dst: Currency, rate: real)
    requires Digits40(x as real) && ConvertSubunits(x, src, dst, rate) <= MOST
    ensures ExactConversion(x, src, dst, rate) < E39
  {
    var v := ExactConversion(x, src, dst, rate);
    ConversionRoundsOnce(x, src, dst, rate);
    if E39 <= v {
      RoundMonotone(E39, v);
      DigitsInt(E39.Floor);
      RoundIdentity(E39);
    }
  }

  lemma Shortfall(paid: int, owed: real, priced: real, half: real)
    requires paid == owed.Floor || (paid + 1) as real == owed
    requires paid == if (priced.Floor + 1) as real - priced <= half then priced.Floor + 1 else priced.Floor
    requires 0.0 < half <= 0.5
    ensures paid < owed.Floor <==> owed == owed.Floor as real && half < owed - priced
  {
  }

  /** When it pays one less: exactly when what is owed is whole and the price falls short of it by
      more than half a unit of the 40th digit, which the cross rate's own rounding can cause. */
  lemma UnderpaysExactlyWhen(x: int, src: Currency, dst: Currency, fromRate: real, toRate: real)
    requires Quoted(fromRate) && Quoted(toRate) && 0.0 < fromRate && 0.0 < toRate && 0 < x <= MOST
    requires 0 <= ConvertSubunits(x, src, dst, CrossRate(fromRate, toRate)) <= MOST
    ensures var paid := ConvertSubunits(x, src, dst, CrossRate(fromRate, toRate));
            var owed, priced := Owed(x, src, dst, fromRate, toRate), Priced(x, src, dst, fromRate, toRate);
            && 0.0 < priced < E39
            && (paid < owed.Floor <==> owed == owed.Floor as real && HalfUlp(priced) < owed - priced)
  {
    var rate := CrossRate(fromRate, toRate);
    DigitsInt(x);
    PaysWhatIsOwed(x, src, dst, fromRate, toRate);
    PricedPositive(x, src, dst, fromRate, toRate);
    PayoutBoundsPrice(x, src, dst, rate);
    ConversionWithinOne(x, src, dst, rate);
    var priced := Priced(x, src, dst, fromRate, toRate);
    HalfUlpSmall(priced);
    Shortfall(ConvertSubunits(x, src, dst, rate), Owed(x, src, dst, fromRate, toRate), priced, HalfUlp(priced));
  }

  // The cross rate of nine to one, a ninth to 40 digits.
  const NINTH: real := 0.1111111111111111111111111111111111111111

  lemma CrossRateOfNine()
    ensures CrossRate(9.0, 1.0) == NINTH
  {
    PowConstants();
    RndAt(1.0 / 9.0, 40);
    NinthOfDigits();
  }

  lemma NinthOfDigits()
    ensures HalfEven(E40 / 9.0) == 1111111111111111111111111111111111111111
  {
  }

  lemma WholeIsQuoted(n: int)
    requires 0 < n < E17
    ensures Quoted(n as real)
  {
    assert IsQuoted(n as real, n, 0);
  }

  /** The one less does happen: selling 8100 cents at rates of nine and one, exactly 900 cents are
      owed and 899 are paid. */
  lemma ConversionCanUnderpay()
    ensures Quoted(9.0) && Quoted(1.0) && Owed(8100, USD, EUR, 9.0, 1.0) == 900.0
    ensures ConvertSubunits(8100, USD, EUR, CrossRate(9.0, 1.0)) == 899
  {
    WholeIsQuoted(9);
    WholeIsQuoted(1);
    CrossRateOfNine();
    OwedExactly();
    NinthPayout();
  }

  lemma OwedExactly()
    ensures Owed(8100, USD, EUR, 9.0, 1.0) == 900.0
  {
    FactorCases(8100.0, USD);
    FactorCases(At(81.0, 1.0 / 9.0), EUR);
  }

  lemma NinthPayout()
    ensures ConvertSubunits(8100, USD, EUR, NINTH) == 899
  {
    var exact := ExactConversion(8100, USD, EUR, NINTH);
    NinthExact();
    DigitsInt(8100);
    PowConstants();
    Pow10Step(36);
    HalfUlpAt(exact, 37);
    ConversionWithinOne(8100, USD, EUR, NINTH);
  }

  lemma NinthExact()
    ensures ExactConversion(8100, USD, EUR, NINTH) == 8100.0 * NINTH
  {
    FactorCases(8100.0, USD);
    FactorCases(At(81.0, NINTH), EUR);
  }
}
