/** What the spread costs: how near bid, ask and a quote's payout come to exact arithmetic. */
module Spreads {
  import opened Currencies
  import opened Decimal40
  import opened Money

  /** The most a rounding can move v: half a unit in the 40th digit, 5e-40 of it. */
  function Slip(v: real): real {
    v / 2000000000000000000000000000000000000000.0
  }

  lemma RoundSlips(v: real)
    requires 0.0 <= v
    ensures -Slip(v) <= Round(v) - v <= Slip(v)
  {
    if v > 0.0 { RndError(v); }
  }

  /** A decimal of five places after the point, below ten to the 40th. */
  lemma FifthsFit(n: int)
    requires 0 <= n <= 1_000_000
    ensures Digits40(n as real / 100000.0)
  {
    assert Pow10(-5) == 0.00001;
    assert IsScaled(n as real / 100000.0, n, -5);
  }

  /** For whole basis points the two factors are exact, and bid and ask are each one rounding of the
      exact product: half the spread below the middle rate, and half of it above. */
  lemma SpreadIsOneRounding(mid: real, spreadBps: int)
    requires 0 <= spreadBps <= 20000
    ensures ApplySpread(mid, spreadBps as real).bid == Round(At(mid, 1.0 - spreadBps as real / 20000.0))
    ensures ApplySpread(mid, spreadBps as real).ask == Round(At(mid, 1.0 + spreadBps as real / 20000.0))
  {
    FifthsFit(10 * spreadBps);
    FifthsFit(5 * spreadBps);
    FifthsFit(100_000 - 5 * spreadBps);
    FifthsFit(100_000 + 5 * spreadBps);
    var x := spreadBps as real / 20000.0;
    assert (10 * spreadBps) as real / 100000.0 == spreadBps as real / 10000.0;
    assert (5 * spreadBps) as real / 100000.0 == x == spreadBps as real / 10000.0 / 2.0;
    assert (100_000 - 5 * spreadBps) as real / 100000.0 == 1.0 - x;
    assert (100_000 + 5 * spreadBps) as real / 100000.0 == 1.0 + x;
    RoundIdentity(spreadBps as real / 10000.0);
    RoundIdentity(x);
    RoundIdentity(1.0 - x);
    RoundIdentity(1.0 + x);
  }

  /** Where those products fit 40 digits, they are bid and ask. */
  lemma SpreadIsExact(mid: real, spreadBps: int)
    requires 0 <= spreadBps <= 20000
    ensures var low, high := At(mid, 1.0 - spreadBps as real / 20000.0), At(mid, 1.0 + spreadBps as real / 20000.0);
            && (Digits40(low) ==> ApplySpread(mid, spreadBps as real).bid == low)
            && (Digits40(high) ==> ApplySpread(mid, spreadBps as real).ask == high)
  {
    SpreadIsOneRounding(mid, spreadBps);
    RoundIdentity(At(mid, 1.0 - spreadBps as real / 20000.0));
    RoundIdentity(At(mid, 1.0 + spreadBps as real / 20000.0));
  }

  // ---- Any spread ----

  lemma RoundWithin(v: real, low: int, high: int)
    requires low as real <= v <= high as real && -10 <= low && high <= 10
    ensures low as real <= Round(v) <= high as real
  {
    DigitsInt(low);
    DigitsInt(high);
    RoundIdentity(low as real);
    RoundIdentity(high as real);
    RoundMonotone(low as real, v);
    RoundMonotone(v, high as real);
  }

  function HalfSpread(spreadBps: real): real {
    Round(Round(spreadBps / 10000.0) / 2.0)
  }

  lemma HalfSpreadNear(spreadBps: real)
    requires 0.0 <= spreadBps <= 20000.0
    ensures 0.0 <= HalfSpread(spreadBps) <= 1.0
    ensures -2.0 * Slip(1.0) <= HalfSpread(spreadBps) - spreadBps / 20000.0 <= 2.0 * Slip(1.0)
  {
    var whole := Round(spreadBps / 10000.0);
    RoundWithin(spreadBps / 10000.0, 0, 2);
    RoundSlips(spreadBps / 10000.0);
    RoundWithin(whole / 2.0, 0, 1);
    RoundSlips(whole / 2.0);
  }

  lemma FactorsNear(spreadBps: real)
    requires 0.0 <= spreadBps <= 20000.0
    ensures var low, high := Round(1.0 - HalfSpread(spreadBps)), Round(1.0 + HalfSpread(spreadBps));
            && 0.0 <= low <= 1.0 <= high <= 2.0
            && -3.0 * Slip(1.0) <= low - (1.0 - spreadBps / 20000.0) <= 3.0 * Slip(1.0)
            && -4.0 * Slip(1.0) <= high - (1.0 + spreadBps / 20000.0) <= 4.0 * Slip(1.0)
  {
    HalfSpreadNear(spreadBps);
    var half := HalfSpread(spreadBps);
    RoundWithin(1.0 - half, 0, 1);
    RoundWithin(1.0 + half, 1, 2);
    RoundSlips(1.0 - half);
    RoundSlips(1.0 + half);
  }

  lemma ProductsNear(k: real, a: real, b: real, e: real)
    requires 0.0 <= k && -e <= a - b <= e
    ensures -At(k, e) <= At(k, a) - At(k, b) <= At(k, e)
  {
    assert At(k, a) - At(k, b) == k * (a - b);
    ProductUpTo(k, a - b, e);
    ProductUpTo(k, b - a, e);
  }

  lemma ProductUpTo(k: real, d: real, e: real)
    requires 0.0 <= k && d <= e
    ensures k * d <= k * e
  {
  }

  lemma SlipScales(k: real, n: real, v: real)
    ensures At(k, n * Slip(v)) == n * Slip(At(k, v))
  {
    var t := 2000000000000000000000000000000000000000.0;
    assert v / t * t == v;
    assert k * (n * (v / t)) == n * (k * (v / t));
    assert k * (v / t) * t == k * v;
  }

  /** Bid and ask against exact arithmetic, for any spread: at most four and six half units of the
      40th digit away from half the spread below and above the middle rate. */
  lemma SpreadNearExact(mid: real, spreadBps: real)
    requires 0.0 <= mid && 0.0 <= spreadBps <= 20000.0
    ensures var s := ApplySpread(mid, spreadBps);
            && -4.0 * Slip(mid) <= s.bid - At(mid, 1.0 - spreadBps / 20000.0) <= 4.0 * Slip(mid)
            && -6.0 * Slip(mid) <= s.ask - At(mid, 1.0 + spreadBps / 20000.0) <= 6.0 * Slip(mid)
            && 0.0 <= s.bid
  {
    FactorsNear(spreadBps);
    SideNear(mid, Round(1.0 - HalfSpread(spreadBps)), 1.0 - spreadBps / 20000.0, 3.0 * Slip(1.0), 1.0);
    SideNear(mid, Round(1.0 + HalfSpread(spreadBps)), 1.0 + spreadBps / 20000.0, 4.0 * Slip(1.0), 2.0);
    SlipScales(mid, 3.0, 1.0);
    SlipScales(mid, 4.0, 1.0);
    OnceAndTwice(mid);
  }

  lemma OnceAndTwice(mid: real)
    ensures At(mid, 1.0) == mid && At(mid, 2.0) == 2.0 * mid && At(mid, 0.0) == 0.0
  {
  }

  lemma SideNear(mid: real, factor: real, exact: real, near: real, most: real)
    requires 0.0 <= mid && 0.0 <= factor <= most && -near <= factor - exact <= near
    ensures 0.0 <= Round(At(mid, factor))
    ensures -(At(mid, near) + Slip(At(mid, most))) <= Round(At(mid, factor)) - At(mid, exact)
    ensures Round(At(mid, factor)) - At(mid, exact) <= At(mid, near) + Slip(At(mid, most))
  {
    ProductsNear(mid, factor, exact, near);
    ProductMonotone(mid, mid, 0.0, factor);
    ProductMonotone(mid, mid, factor, most);
    OnceAndTwice(mid);
    RoundNear(At(mid, factor), At(mid, exact), At(mid, near), At(mid, most));
  }

  lemma RoundNear(v: real, exact: real, near: real, most: real)
    requires 0.0 <= v <= most && -near <= v - exact <= near
    ensures 0.0 <= Round(v) && -(near + Slip(most)) <= Round(v) - exact <= near + Slip(most)
  {
    RoundSlips(v);
    RoundMonotone(0.0, v);
  }

  lemma Swap(a: real, b: real)
    ensures At(a, b) == At(b, a)
  {
  }

  // ---- What a quote pays ----

  /** The bid at the true ratio of two rates. */
  ghost function TrueBid(fromRate: real, toRate: real, spreadBps: real): real
    requires 0.0 < fromRate
  {
    At(toRate / fromRate, 1.0 - spreadBps / 20000.0)
  }

  lemma BidNearTrue(fromRate: real, toRate: real, spreadBps: real)
    requires 0.0 < fromRate && 0.0 < toRate && 0.0 <= spreadBps <= 20000.0
    ensures var bid, q := ApplySpread(CrossRate(fromRate, toRate), spreadBps).bid, toRate / fromRate;
            && 0.0 < q && 0.0 <= bid <= 2.0 * q
            && -9.0 * Slip(q) <= bid - TrueBid(fromRate, toRate, spreadBps) <= 9.0 * Slip(q)
  {
    var q, mid, x := toRate / fromRate, CrossRate(fromRate, toRate), 1.0 - spreadBps / 20000.0;
    RatioPositive(toRate, fromRate);
    RoundSlips(q);
    SpreadNearExact(mid, spreadBps);
    ProductsNear(x, mid, q, Slip(q));
    Swap(x, mid);
    Swap(x, q);
    Swap(x, Slip(q));
    ProductMonotone(Slip(q), Slip(q), x, 1.0);
    ProductMonotone(mid, mid, x, 1.0);
    assert At(Slip(q), 1.0) == Slip(q) && At(mid, 1.0) == mid;
  }

  /** The exact conversion is in proportion to the rate. */
  lemma ExactInRate(amount: int, src: Currency, dst: Currency, rate: real)
    ensures ExactConversion(amount, src, dst, rate) == At(ExactConversion(amount, src, dst, 1.0), rate)
  {
    var d := Down(amount as real, src);
    FactorCases(At(d, rate), dst);
    FactorCases(At(d, 1.0), dst);
    assert At(d, 1.0) == d;
    Regrouped(d, rate);
  }

  lemma Regrouped(d: real, r: real)
    ensures d * r * 10.0 * 10.0 == d * 10.0 * 10.0 * r
  {
  }

  lemma ExactNotNegative(amount: int, src: Currency, dst: Currency)
    requires 0 <= amount
    ensures 0.0 <= ExactConversion(amount, src, dst, 1.0)
  {
    FactorCases(amount as real, src);
    FactorCases(At(Down(amount as real, src), 1.0), dst);
  }

  /** What a quote offers is the whole subunits of the amount times the true ratio of the two rates,
      less half the spread, give or take twelve half units of the 40th digit of the price without
      it. */
  lemma QuoteChargesSpread(amount: int, src: Currency, dst: Currency, fromRate: real, toRate: real, spreadBps: real)
    requires 0 <= amount && Digits40(amount as real)
    requires 0.0 < fromRate && 0.0 < toRate && 0.0 <= spreadBps <= 20000.0
    ensures var out := QuotedAmount(amount, src, dst, fromRate, toRate, spreadBps);
            var full := ExactConversion(amount, src, dst, toRate / fromRate);
            var exact := ExactConversion(amount, src, dst, TrueBid(fromRate, toRate, spreadBps));
            out as real <= exact + 12.0 * Slip(full) && exact - 12.0 * Slip(full) < (out + 1) as real
  {
    var q, bid := toRate / fromRate, ApplySpread(CrossRate(fromRate, toRate), spreadBps).bid;
    var k := ExactConversion(amount, src, dst, 1.0);
    BidNearTrue(fromRate, toRate, spreadBps);
    ExactNotNegative(amount, src, dst);
    ExactInRate(amount, src, dst, q);
    ExactInRate(amount, src, dst, bid);
    ExactInRate(amount, src, dst, TrueBid(fromRate, toRate, spreadBps));
    ConversionRoundsOnce(amount, src, dst, bid);
    PriceNear(k, bid, TrueBid(fromRate, toRate, spreadBps), q);
  }

  lemma PriceNear(k: real, bid: real, exact: real, q: real)
    requires 0.0 <= k && 0.0 <= bid <= 2.0 * q && -9.0 * Slip(q) <= bid - exact <= 9.0 * Slip(q)
    ensures Round(At(k, bid)).Floor as real <= At(k, exact) + 12.0 * Slip(At(k, q))
    ensures At(k, exact) - 12.0 * Slip(At(k, q)) < (Round(At(k, bid)).Floor + 1) as real
  {
    ProductsNear(k, bid, exact, 9.0 * Slip(q));
    SlipScales(k, 9.0, q);
    ProductMonotone(k, k, 0.0, bid);
    ProductMonotone(k, k, bid, 2.0 * q);
    Twice(k, q);
    RoundSlips(At(k, bid));
    FloorNear(At(k, bid), At(k, exact), At(k, q));
  }

  lemma FloorNear(v: real, exact: real, full: real)
    requires 0.0 <= v <= 2.0 * full && -9.0 * Slip(full) <= v - exact <= 9.0 * Slip(full)
    requires -Slip(v) <= Round(v) - v <= Slip(v)
    ensures Round(v).Floor as real <= exact + 12.0 * Slip(full)
    ensures exact - 12.0 * Slip(full) < (Round(v).Floor + 1) as real
  {
  }

  lemma Twice(k: real, q: real)
    ensures At(k, 2.0 * q) == 2.0 * At(k, q) && At(k, 0.0) == 0.0
  {
  }
}
