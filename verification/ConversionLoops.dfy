/** Converting around a loop of currencies under one rate table never makes money. */
module ConversionLoops {
  import opened Currencies
  import opened Decimal40
  import opened Money

  type RateTable = map<Currency, real>

  ghost predicate Covers(rates: RateTable, path: seq<Currency>) {
    forall i :: 0 <= i < |path| ==> path[i] in rates && 0.0 < rates[path[i]]
  }

  lemma CoversTail(rates: RateTable, path: seq<Currency>)
    requires |path| > 1 && Covers(rates, path)
    ensures path[0] in rates && path[1] in rates && 0.0 < rates[path[0]] && 0.0 < rates[path[1]]
    ensures Covers(rates, path[1..])
  {
  }

  /** One conversion at the cross rate of the table. */
  function Hop(x: int, src: Currency, dst: Currency, rates: RateTable): int
    requires src in rates && dst in rates && 0.0 < rates[src]
  {
    ConvertSubunits(x, src, dst, CrossRate(rates[src], rates[dst]))
  }

  /** Convert along a path of currencies, each time everything that came out. */
  function Chain(x: int, path: seq<Currency>, rates: RateTable): int
    requires path != [] && Covers(rates, path)
    decreases |path|
  {
    if |path| == 1 then x else CoversTail(rates, path); Chain(Hop(x, path[0], path[1], rates), path[1..], rates)
  }

  /** What an amount is worth in the base currency. */
  ghost function Worth(x: int, c: Currency, rates: RateTable): real
    requires c in rates && 0.0 < rates[c]
  {
    Down(x as real, c) / rates[c]
  }

  /** The most a rounding can make of v: half a unit in the 40th digit more, a factor of 1 + 5e-40. */
  function Gained(v: real): real {
    v + v / 2000000000000000000000000000000000000000.0
  }

  lemma RoundGains(v: real)
    requires 0.0 <= v
    ensures 0.0 <= Round(v) <= Gained(v)
  {
    if v > 0.0 {
      RndError(v);
    }
  }

  lemma FloorFits(v: real)
    requires 0.0 <= v && Digits40(v)
    ensures Digits40(v.Floor as real)
  {
    if v >= E39 {
      FitsIsWhole(v);
    } else {
      DigitsInt(v.Floor);
    }
  }

  lemma WorthOfRatio(d: real, q: real, e: real, ra: real, rb: real)
    requires 0.0 <= d && 0.0 < ra && 0.0 < rb && q == rb / ra
    requires e <= Gained(Gained(At(d, q)))
    ensures e / rb <= Gained(Gained(d / ra))
  {
    var w, z := d / ra, e / rb;
    assert z * rb == e && w * ra == d && q * ra == rb;
    assert At(d, q) == w * rb by {
      assert d * q == w * (ra * q);
    }
    AtScales(rb, w);
    AtScales(rb, Gained(w));
    CancelFactor(z, Gained(Gained(w)), rb);
  }

  lemma CancelFactor(a: real, b: real, r: real)
    requires 0.0 < r && a * r <= b * r
    ensures a <= b
  {
  }

  lemma RateGains(ra: real, rb: real)
    requires 0.0 < ra && 0.0 < rb
    ensures 0.0 <= CrossRate(ra, rb) <= Gained(rb / ra)
  {
    RatioPositive(rb, ra);
    RoundGains(rb / ra);
  }

  /** Against the exact ratio q, a rounded rate and a rounded product exceed the price by at
      most two gains. */
  lemma PriceGains(d: real, rate: real, q: real)
    requires 0.0 <= d && 0.0 <= rate <= Gained(q)
    ensures 0.0 <= Round(At(d, rate)) <= Gained(Gained(At(d, q)))
  {
    ProductMonotone(d, d, 0.0, rate);
    ProductMonotone(d, d, rate, Gained(q));
    AtScales(d, q);
    RoundGains(At(d, rate));
  }

  lemma AtScales(d: real, q: real)
    ensures At(d, Gained(q)) == Gained(At(d, q))
    ensures At(d, 0.0) == 0.0
  {
    var t := 2000000000000000000000000000000000000000.0;
    assert d * (q + q / t) == d * q + d * (q / t);
    assert d * (q / t) == d * q / t;
  }

  /** A hop pays the whole subunits of the rounded price. */
  lemma HopFloors(x: int, src: Currency, dst: Currency, rate: real)
    requires 0 <= x && Digits40(x as real)
    requires 0.0 <= Round(At(Down(x as real, src), rate))
    ensures var y := ConvertSubunits(x, src, dst, rate);
            0 <= y && Digits40(y as real) && Down(y as real, dst) <= Round(At(Down(x as real, src), rate))
  {
    var p := At(Down(x as real, src), rate);
    FromSubunitsExact(x, src);
    ToSubunitsOfRounded(p, dst);
    RoundFactor(p, dst);
    var y := ConvertSubunits(x, src, dst, rate);
    FactorCases(Round(p), dst);
    RoundIdentity(Up(p, dst));
    FloorFits(Up(Round(p), dst));
    FactorCases(y as real, dst);
  }

  lemma PriceToWorth(d: real, e: real, rate: real, ra: real, rb: real)
    requires 0.0 <= d && 0.0 < ra && 0.0 < rb && rate == CrossRate(ra, rb)
    requires e <= Round(At(d, rate))
    ensures e / rb <= Gained(Gained(d / ra))
  {
    var q := rb / ra;
    RateGains(ra, rb);
    PriceGains(d, rate, q);
    WorthOfRatio(d, q, e, ra, rb);
  }

  /** A hop inflates worth by two roundings at most, and what comes out fits 40 digits. */
  lemma HopGains(x: int, src: Currency, dst: Currency, rates: RateTable)
    requires src in rates && dst in rates && 0.0 < rates[src] && 0.0 < rates[dst]
    requires 0 <= x && Digits40(x as real)
    ensures var y := Hop(x, src, dst, rates);
            0 <= y && Digits40(y as real) && Worth(y, dst, rates) <= Gained(Gained(Worth(x, src, rates)))
  {
    var ra, rb, d := rates[src], rates[dst], Down(x as real, src);
    var rate := CrossRate(ra, rb);
    FactorCases(x as real, src);
    RateGains(ra, rb);
    PriceGains(d, rate, rb / ra);
    HopFloors(x, src, dst, rate);
    var y := Hop(x, src, dst, rates);
    PriceToWorth(d, Down(y as real, dst), rate, ra, rb);
  }

  ghost function Gains(hops: nat): real {
    if hops == 0 then 1.0 else Gained(Gained(Gains(hops - 1)))
  }

  lemma {:induction false} GainsBounded(hops: nat)
    requires 10.0 * hops as real <= E39
    ensures 1.0 <= Gains(hops) <= 1.0 + 3.0 * hops as real / E39
  {
    if hops > 0 {
      GainsBounded(hops - 1);
    }
  }

  lemma {:induction false} ChainGains(x: int, path: seq<Currency>, rates: RateTable)
    requires path != [] && Covers(rates, path) && 0 <= x && Digits40(x as real)
    ensures 0 <= Chain(x, path, rates)
    ensures var last := path[|path| - 1];
            Worth(Chain(x, path, rates), last, rates) <= At(Gains(|path| - 1), Worth(x, path[0], rates))
    decreases |path|
  {
    if |path| > 1 {
      CoversTail(rates, path);
      HopGains(x, path[0], path[1], rates);
      var y := Hop(x, path[0], path[1], rates);
      ChainGains(y, path[1..], rates);
      var g, w, v := Gains(|path| - 2), Worth(y, path[1], rates), Worth(x, path[0], rates);
      GainsPositive(|path| - 2);
      assert g * w <= g * Gained(Gained(v));
      AtScales(g, v);
      AtScales(g, Gained(v));
      AtScales(v, g);
      AtScales(v, Gained(g));
      assert At(g, v) == At(v, g);
      assert At(g, Gained(Gained(v))) == Gained(Gained(At(g, v))) == At(v, Gained(Gained(g)));
      assert Gains(|path| - 1) == Gained(Gained(g));
    }
  }

  lemma {:induction false} GainsPositive(hops: nat)
    ensures 1.0 <= Gains(hops)
  {
    if hops > 0 { GainsPositive(hops - 1); }
  }

  /** A loop of n conversions returns at most the amount it started with, whenever
      n times the amount stays below 10^38. */
  lemma NoGainLoop(x: int, path: seq<Currency>, rates: RateTable)
    requires path != [] && Covers(rates, path) && path[0] == path[|path| - 1]
    requires 0 <= x && 10.0 * ((|path| - 1) * x) as real < E39
    ensures 0 <= Chain(x, path, rates) <= x
  {
    if |path| > 1 {
      var n := |path| - 1;
      LoopBounds(x, n);
      if x > 0 {
        GainsBounded(n);
      }
      DigitsInt(x);
      ChainGains(x, path, rates);
      LoopReturns(x, Chain(x, path, rates), n, path[0], rates);
    }
  }

  lemma LoopReturns(x: int, y: int, n: nat, c: Currency, rates: RateTable)
    requires c in rates && 0.0 < rates[c] && 0 <= x
    requires x > 0 ==> Gains(n) <= 1.0 + 3.0 * n as real / E39 && 10.0 * (n * x) as real < E39
    requires Worth(y, c, rates) <= At(Gains(n), Worth(x, c, rates))
    ensures y <= x
  {
    WorthCancels(x, y, c, rates, Gains(n));
    if x > 0 {
      LessThanOne(x, n, Gains(n));
    }
  }

  lemma LessThanOne(x: int, n: int, g: real)
    requires 0 < x && 0 <= n && 10.0 * (n * x) as real < E39 && g <= 1.0 + 3.0 * n as real / E39
    ensures g * x as real < (x + 1) as real
  {
    ProductOfWholes(n, x);
    PlainLessThanOne(x as real, n as real, g);
  }

  lemma PlainLessThanOne(x: real, n: real, g: real)
    requires 0.0 < x && 10.0 * (n * x) < E39 && E39 * g <= E39 + 3.0 * n
    ensures g * x < x + 1.0
  {
    assert (E39 * g) * x <= (E39 + 3.0 * n) * x;
    assert (E39 + 3.0 * n) * x == E39 * x + 3.0 * (n * x);
    assert (E39 * g) * x == E39 * (g * x);
  }

  lemma LoopBounds(x: int, n: int)
    requires 0 <= x && 0 < n && 10.0 * (n * x) as real < E39
    ensures x as real < E39
    ensures 0 < x ==> 10.0 * n as real <= E39
  {
    assert x <= n * x;
    if x > 0 {
      assert n <= n * x;
    }
  }

  lemma WorthCancels(x: int, y: int, c: Currency, rates: RateTable, g: real)
    requires c in rates && 0.0 < rates[c]
    requires Worth(y, c, rates) <= At(g, Worth(x, c, rates))
    ensures y as real <= g * x as real
  {
    FactorCases(x as real, c);
    FactorCases(y as real, c);
    var r, a, b := rates[c], Down(x as real, c), Down(y as real, c);
    var u, v := a / r, b / r;
    assert v * r == b && u * r == a;
    assert v * r <= g * u * r;
    assert g * u * r == g * a;
  }
}
