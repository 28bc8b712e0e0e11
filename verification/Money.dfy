/** The FX engine's money functions, and what their roundings can and cannot do. */
module Money {
  import opened Currencies
  import opened Decimal40

  // ---- The functions ----

  /** From major to smallest units and back, in exact arithmetic. */
  function Up(major: real, c: Currency): real {
    major * SubunitFactor(c) as real
  }

  function Down(sub: real, c: Currency): real {
    sub / SubunitFactor(c) as real
  }

  function At(major: real, rate: real): real {
    major * rate
  }

  function FromSubunits(sub: int, c: Currency): real {
    Round(Down(sub as real, c))
  }

  function ToSubunits(major: real, c: Currency): int {
    Round(Up(major, c)).Floor
  }

  /** Rates are quoted against one base currency: `rates[X]` is how many X one unit of it buys. */
  function CrossRate(fromVsBase: real, toVsBase: real): real
    requires 0.0 < fromVsBase
  {
    Round(toVsBase / fromVsBase)
  }

  function ConvertSubunits(amount: int, src: Currency, dst: Currency, rate: real): int {
    ToSubunits(Round(At(FromSubunits(amount, src), rate)), dst)
  }

  datatype Spread = Spread(bid: real, ask: real)

  function ApplySpread(mid: real, spreadBps: real): Spread {
    var half := Round(Round(spreadBps / 10000.0) / 2.0);
    Spread(Round(At(mid, Round(1.0 - half))), Round(At(mid, Round(1.0 + half))))
  }

  /** What a provider may put in its rate table. */
  datatype RawRate = Absent | NotFinite | Finite(value: real)

  /** A rate must be present, finite and positive; otherwise the caller's request fails. */
  function ParseRate(raw: RawRate): (r: Option<real>)
    ensures r.Some? <==> raw.Finite? && 0.0 < raw.value
    ensures r.Some? ==> r.value == raw.value
  {
    if raw.Finite? && raw.value > 0.0 then Some(raw.value) else None
  }

  // ---- Conversion against exact arithmetic ----

  /** The conversion without any rounding, before the final floor. */
  ghost function ExactConversion(amount: int, src: Currency, dst: Currency, rate: real): real {
    Up(At(Down(amount as real, src), rate), dst)
  }

  lemma FactorCases(v: real, c: Currency)
    ensures Up(v, c) == if c == JPY then v else v * 10.0 * 10.0
    ensures Down(v, c) == if c == JPY then v else v / 10.0 / 10.0
  {
  }

  lemma FactorFits(v: real, c: Currency)
    requires Digits40(v)
    ensures Digits40(Up(v, c))
    ensures Digits40(Down(v, c))
  {
    FactorCases(v, c);
    DigitsScale(v);
    DigitsScale(v * 10.0);
    DigitsScale(v / 10.0);
  }

  lemma RoundFactor(v: real, c: Currency)
    ensures Round(Up(v, c)) == Up(Round(v), c)
  {
    FactorCases(v, c);
    FactorCases(Round(v), c);
    RoundTen(v);
    RoundTen(v * 10.0);
  }

  lemma RoundTen(v: real)
    ensures Round(v * 10.0) == Round(v) * 10.0
  {
    if v > 0.0 {
      RndScale(v);
    } else if v < 0.0 {
      RndScale(-v);
    }
  }

  lemma FromSubunitsExact(amount: int, c: Currency)
    requires Digits40(amount as real)
    ensures FromSubunits(amount, c) == Down(amount as real, c)
  {
    FactorFits(amount as real, c);
    RoundIdentity(Down(amount as real, c));
  }

  lemma ToSubunitsOfRounded(v: real, c: Currency)
    ensures ToSubunits(Round(v), c) == Round(Up(v, c)).Floor
  {
    RoundIdentity(v);
    FactorFits(Round(v), c);
    RoundIdentity(Up(Round(v), c));
    RoundFactor(v, c);
  }

  /** When both products along the way fit 40 digits, the fast conversion is exact. */
  lemma ConversionExact(amount: int, src: Currency, dst: Currency, rate: real)
    requires Digits40(Down(amount as real, src))
    requires Digits40(At(Down(amount as real, src), rate))
    ensures ConvertSubunits(amount, src, dst, rate) == ExactConversion(amount, src, dst, rate).Floor
  {
    var major := Down(amount as real, src);
    RoundIdentity(major);
    ToSubunitsOfRounded(At(major, rate), dst);
    FactorFits(At(major, rate), dst);
    RoundIdentity(Up(At(major, rate), dst));
  }

  /** An amount of at most 40 digits enters without rounding, and shifting by a subunit
      factor costs nothing: the conversion is one rounding of the exact value, then floor. */
  lemma ConversionRoundsOnce(amount: int, src: Currency, dst: Currency, rate: real)
    requires Digits40(amount as real)
    ensures ConvertSubunits(amount, src, dst, rate) == Round(ExactConversion(amount, src, dst, rate)).Floor
  {
    FromSubunitsExact(amount, src);
    ToSubunitsOfRounded(At(FromSubunits(amount, src), rate), dst);
  }

  /** Half a unit in the 40th digit of v. */
  function HalfUlp(v: real): real
    requires 0.0 < v < E40
    decreases Distance(v)
  {
    if v < E39 then DistanceUp(v); HalfUlp(v * 10.0) / 10.0 else 0.5
  }

  lemma HalfUlpScale(v: real)
    requires 0.0 < v < E39
    ensures HalfUlp(v * 10.0) == 10.0 * HalfUlp(v)
  {
    DistanceUp(v);
  }

  lemma {:induction false} HalfUlpAt(v: real, digits: nat)
    requires 0.0 < v < E40 && E39 <= v * Pow10(digits) < E40
    ensures HalfUlp(v) == 0.5 / Pow10(digits)
    decreases digits
  {
    if digits > 0 {
      Pow10Step(digits - 1);
      PowGrows(digits - 1);
      var w, p := v * 10.0, Pow10(digits - 1);
      assert v * Pow10(digits) == w * p;
      assert w <= w * p;
      HalfUlpAt(w, digits - 1);
      HalfUlpScale(v);
    }
  }

  lemma {:induction false} PowGrows(e: nat)
    ensures 1.0 <= Pow10(e)
  {
    if e > 0 { PowGrows(e - 1); }
  }

  /** The next even whole number above v is where v rounds to exactly when it is at most half
      a unit away; a tie goes to it. */
  lemma {:induction false} RndMeetsEven(v: real, n: int)
    requires 0.0 < v < E40 && v < n as real && n % 2 == 0
    ensures Rnd(v) == n as real <==> n as real - v <= HalfUlp(v)
    decreases Distance(v)
  {
    if v < E39 {
      DistanceUp(v);
      assert (10 * n) as real == n as real * 10.0;
      RndMeetsEven(v * 10.0, 10 * n);
      RndScale(v);
      HalfUlpScale(v);
    } else {
      HalfEvenMeetsEven(v, n);
    }
  }

  lemma HalfEvenMeetsEven(v: real, n: int)
    requires v < n as real && n % 2 == 0
    ensures HalfEven(v) == n <==> n as real - v <= 0.5
  {
    assert v.Floor < n;
  }

  /** The conversion never pays less than the exact value's whole subunits, and at most one
      subunit more.  It pays the extra subunit exactly when the exact value lies within half
      a unit of its 40th digit below the next whole subunit. */
  lemma ConversionWithinOne(amount: int, src: Currency, dst: Currency, rate: real)
    requires Digits40(amount as real)
    requires 0.0 < ExactConversion(amount, src, dst, rate) < E39
    ensures var exact := ExactConversion(amount, src, dst, rate);
            var paid := ConvertSubunits(amount, src, dst, rate);
            paid == if (exact.Floor + 1) as real - exact <= HalfUlp(exact) then exact.Floor + 1 else exact.Floor
  {
    ConversionRoundsOnce(amount, src, dst, rate);
    RndOfFraction(ExactConversion(amount, src, dst, rate));
  }

  lemma RndBetweenWholes(v: real)
    requires 0.0 < v < E39
    ensures v.Floor as real <= Rnd(v) <= (v.Floor + 1) as real
  {
    var n := v.Floor + 1;
    WholeBelow(n);
    RndMonotone(v, n as real);
    if n > 1 {
      WholeBelow(n - 1);
      RndMonotone((n - 1) as real, v);
    }
  }

  lemma WholeBelow(n: int)
    requires 0 < n && (n - 1) as real < E39
    ensures Rnd(n as real) == n as real
  {
    assert n <= E39.Floor;
    DigitsInt(n);
    RndIdentity(n as real);
  }

  /** Just below a whole number: scaled by ten it is even, and ties go to it. */
  lemma RndMeetsWhole(v: real, n: int)
    requires 0.0 < v < E39 && v < n as real
    ensures Rnd(v) == n as real <==> n as real - v <= HalfUlp(v)
  {
    var m := TenTimes(n);
    var w := v * 10.0;
    assert w < m as real;
    RndMeetsEven(w, m);
    RndScale(v);
    HalfUlpScale(v);
    ScaleDown(n as real, v, Rnd(v), HalfUlp(v), Rnd(w), HalfUlp(w));
  }

  lemma TenTimes(n: int) returns (m: int)
    ensures m as real == 10.0 * n as real && m % 2 == 0
  {
    var k := n + n + n + n + n;
    m := k + k;
    assert m as real == k as real + k as real;
    Doubled(k);
  }

  lemma Doubled(k: int)
    ensures (k + k) % 2 == 0
  {
  }

  lemma ScaleDown(x: real, v: real, r: real, h: real, r10: real, h10: real)
    requires r10 == 10.0 * r && h10 == 10.0 * h
    requires r10 == 10.0 * x <==> 10.0 * x - v * 10.0 <= h10
    ensures r == x <==> x - v <= h
  {
  }

  lemma RndOfFraction(v: real)
    requires 0.0 < v < E39
    ensures Rnd(v).Floor == if (v.Floor + 1) as real - v <= HalfUlp(v) then v.Floor + 1 else v.Floor
  {
    RndBetweenWholes(v);
    RndMeetsWhole(v, v.Floor + 1);
  }

  /** More in never pays less out, and neither does a better rate. */
  lemma ConversionMonotone(a: int, b: int, src: Currency, dst: Currency, rate: real, better: real)
    requires 0 <= a <= b && 0.0 <= rate <= better
    ensures ConvertSubunits(a, src, dst, rate) <= ConvertSubunits(b, src, dst, better)
  {
    FromSubunitsMonotone(a, b, src);
    FromSubunitsMonotone(0, a, src);
    var x, y := FromSubunits(a, src), FromSubunits(b, src);
    assert FromSubunits(0, src) == Round(0.0) == 0.0;
    ProductMonotone(x, y, rate, better);
    RoundMonotone(At(x, rate), At(y, better));
    ToSubunitsMonotone(Round(At(x, rate)), Round(At(y, better)), dst);
  }

  lemma FromSubunitsMonotone(a: int, b: int, c: Currency)
    requires a <= b
    ensures FromSubunits(a, c) <= FromSubunits(b, c)
  {
    FactorCases(a as real, c);
    FactorCases(b as real, c);
    RoundMonotone(Down(a as real, c), Down(b as real, c));
  }

  lemma ToSubunitsMonotone(v: real, w: real, c: Currency)
    requires v <= w
    ensures ToSubunits(v, c) <= ToSubunits(w, c)
  {
    FactorCases(v, c);
    FactorCases(w, c);
    RoundMonotone(Up(v, c), Up(w, c));
  }

  lemma ProductMonotone(x: real, y: real, r: real, s: real)
    requires 0.0 <= x <= y && 0.0 <= r <= s
    ensures At(x, r) <= At(y, s)
  {
    assert x * r <= y * r;
    assert y * r <= y * s;
  }

  lemma {:induction false} PowAdd(a: nat, b: nat)
    ensures Pow10(a + b) == Pow10(a) * Pow10(b)
    decreases a
  {
    if a > 0 {
      PowAdd(a - 1, b);
      Pow10Step(a - 1 + b);
    }
  }

  lemma PowConstants()
    ensures Pow10(36) == 1000000000000000000000000000000000000.0
    ensures Pow10(40) == E40
  {
    assert Pow10(4) == 10000.0;
    PowAdd(4, 4);
    PowAdd(8, 4);
    PowAdd(12, 12);
    PowAdd(24, 12);
    PowAdd(36, 4);
  }

  lemma ShiftTen(v: real, p: real)
    ensures At(v, 10.0 * p) == At(v * 10.0, p)
  {
    assert v * (10.0 * p) == v * 10.0 * p;
  }

  /** A value with 40 digits before the point once shifted by k rounds there. */
  lemma {:induction false} RndAt(v: real, k: nat)
    requires 0.0 < v && E39 <= At(v, Pow10(k)) < E40
    ensures At(Rnd(v), Pow10(k)) == HalfEven(At(v, Pow10(k))) as real
    decreases k
  {
    if k > 0 {
      Pow10Step(k - 1);
      PowGrows(k - 1);
      ShiftTen(v, Pow10(k - 1));
      ShiftTen(Rnd(v), Pow10(k - 1));
      RndScale(v);
      RndAt(v * 10.0, k - 1);
    }
  }

  // The cross rate of three to one, a third to 40 digits.
  const THIRD: real := 0.3333333333333333333333333333333333333333

  lemma ThirdOfDigits()
    ensures HalfEven(E40 / 3.0) == 3333333333333333333333333333333333333333
  {
  }

  lemma CrossRateOfThree()
    ensures CrossRate(3.0, 1.0) == THIRD
  {
    PowConstants();
    RndAt(1.0 / 3.0, 40);
    ThirdOfDigits();
  }

  lemma ThirdExact()
    ensures ExactConversion(3300, USD, EUR, THIRD) == 3300.0 * THIRD
  {
    FactorCases(3300.0, USD);
    FactorCases(At(33.0, THIRD), EUR);
  }

  /** The documentation promises that a conversion never credits more than the amount times the
      rate.  It can: selling 3300 cents at the cross rate of three to one pays 1100, although
      the rate is a little under a third. */
  lemma ConversionCanOverpay()
    ensures ConvertSubunits(3300, USD, EUR, CrossRate(3.0, 1.0)) == 1100
    ensures ExactConversion(3300, USD, EUR, CrossRate(3.0, 1.0)).Floor == 1099
  {
    CrossRateOfThree();
    ThirdExact();
    DigitsInt(3300);
    PowConstants();
    HalfUlpAt(ExactConversion(3300, USD, EUR, THIRD), 36);
    ConversionWithinOne(3300, USD, EUR, THIRD);
  }

  // ---- A quote never beats the mid rate ----

  lemma SpreadAroundMid(mid: real, spreadBps: real)
    requires 0.0 <= mid && Digits40(mid) && 0.0 <= spreadBps <= 20000.0
    ensures var s := ApplySpread(mid, spreadBps); 0.0 <= s.bid <= mid <= s.ask
  {
    var bps := Round(spreadBps / 10000.0);
    var half := Round(bps / 2.0);
    DigitsInt(0);
    DigitsInt(1);
    DigitsInt(2);
    RoundIdentity(1.0);
    RoundIdentity(2.0);
    RoundIdentity(mid);
    RoundMonotone(0.0, spreadBps / 10000.0);
    RoundMonotone(spreadBps / 10000.0, 2.0);
    RoundMonotone(0.0, bps / 2.0);
    RoundMonotone(bps / 2.0, 1.0);
    assert 0.0 <= half <= 1.0;
    RoundMonotone(0.0, 1.0 - half);
    RoundMonotone(1.0 - half, 1.0);
    RoundMonotone(1.0, 1.0 + half);
    var low, high := Round(1.0 - half), Round(1.0 + half);
    ProductMonotone(mid, mid, 0.0, low);
    ProductMonotone(mid, mid, low, 1.0);
    ProductMonotone(mid, mid, 1.0, high);
    assert At(mid, 0.0) == 0.0 && At(mid, 1.0) == mid;
    RoundMonotone(0.0, At(mid, low));
    RoundMonotone(At(mid, low), mid);
    RoundMonotone(mid, At(mid, high));
  }

  /** What a quote offers for an amount: the conversion at the bid. */
  function QuotedAmount(amount: int, src: Currency, dst: Currency, fromRate: real, toRate: real, spreadBps: real): int
    requires 0.0 < fromRate
  {
    ConvertSubunits(amount, src, dst, ApplySpread(CrossRate(fromRate, toRate), spreadBps).bid)
  }

  /** A quoted trade never pays more than converting directly at the same rates. */
  lemma QuoteNeverBeatsMid(amount: int, src: Currency, dst: Currency, fromRate: real, toRate: real, spreadBps: real)
    requires 0 <= amount && 0.0 < fromRate && 0.0 < toRate && 0.0 <= spreadBps <= 20000.0
    ensures QuotedAmount(amount, src, dst, fromRate, toRate, spreadBps)
         <= ConvertSubunits(amount, src, dst, CrossRate(fromRate, toRate))
  {
    var mid := CrossRate(fromRate, toRate);
    assert 0.0 < toRate / fromRate by {
      RatioPositive(toRate, fromRate);
    }
    RoundIdentity(toRate / fromRate);
    SpreadAroundMid(mid, spreadBps);
    ConversionMonotone(amount, amount, src, dst, ApplySpread(mid, spreadBps).bid, mid);
  }

  lemma RatioPositive(x: real, y: real)
    requires 0.0 < x && 0.0 < y
    ensures 0.0 < x / y
  {
    var q := x / y;
    assert q * y == x;
  }
}
