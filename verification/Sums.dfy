/** Sums over the values of a finite map. */
module Sums {
  ghost function Sum<K>(m: map<K, int>): int {
    if m == map[] then 0
    else
      var k :| k in m;
      m[k] + Sum(m - {k})
  }

  lemma {:induction false} SumPick<K>(m: map<K, int>, k: K)
    requires k in m
    ensures Sum(m) == m[k] + Sum(m - {k})
    decreases |m|
  {
    var c :| c in m && Sum(m) == m[c] + Sum(m - {c});
    if c != k {
      SumPick(m - {c}, k);
      SumPick(m - {k}, c);
      assert m - {c} - {k} == m - {k} - {c};
    }
  }

  lemma SumPut<K>(m: map<K, int>, k: K, v: int)
    ensures Sum(m[k := v]) == Sum(m) + v - (if k in m then m[k] else 0)
  {
    SumPick(m[k := v], k);
    if k in m {
      SumPick(m, k);
      assert m[k := v] - {k} == m - {k};
    } else {
      assert m[k := v] - {k} == m;
    }
  }

  lemma {:induction false} SumNonNegative<K>(m: map<K, int>)
    requires forall k :: k in m ==> 0 <= m[k]
    ensures 0 <= Sum(m)
    decreases |m|
  {
    if m != map[] {
      var k :| k in m;
      SumPick(m, k);
      SumNonNegative(m - {k});
    }
  }

  lemma SumPart<K>(m: map<K, int>, k: K)
    requires k in m && forall j :: j in m ==> 0 <= m[j]
    ensures m[k] <= Sum(m)
  {
    SumPick(m, k);
    SumNonNegative(m - {k});
  }

  lemma {:induction false} SumBelow<K>(m: map<K, int>, m': map<K, int>, d: map<K, int>)
    requires m.Keys == m'.Keys == d.Keys
    requires forall k :: k in m ==> m'[k] <= m[k] + d[k]
    ensures Sum(m') <= Sum(m) + Sum(d)
    decreases |m|
  {
    if m != map[] {
      var k :| k in m;
      SumPick(m, k);
      SumPick(m', k);
      SumPick(d, k);
      SumBelow(m - {k}, m' - {k}, d - {k});
    } else {
      assert m' == map[] && d == map[];
    }
  }

  ghost function Flat<K>(keys: set<K>, some: set<K>, c: int): map<K, int> {
    map k | k in keys :: if k in some then c else 0
  }

  lemma {:induction false} SumFlat<K>(keys: set<K>, some: set<K>, c: int)
    requires some <= keys
    ensures Sum(Flat(keys, some, c)) == c * |some|
    decreases |keys|
  {
    var m := Flat(keys, some, c);
    if keys == {} {
      assert m == map[] && some == {};
    } else {
      var k :| k in keys;
      SumPick(m, k);
      assert m - {k} == Flat(keys - {k}, some - {k}, c);
      SumFlat(keys - {k}, some - {k}, c);
      if k in some {
        assert some == some - {k} + {k};
        assert c * |some| == c * |some - {k}| + c;
      } else {
        assert some - {k} == some;
      }
    }
  }

  /** Changing the values of some keys by at most c each, and raising no others, changes the
      sum by at most c per such key. */
  lemma SumShift<K>(m: map<K, int>, m': map<K, int>, some: set<K>, c: int)
    requires m.Keys == m'.Keys && some <= m.Keys
    requires forall k :: k in m ==> m'[k] <= m[k] + if k in some then c else 0
    ensures Sum(m') <= Sum(m) + c * |some|
  {
    SumBelow(m, m', Flat(m.Keys, some, c));
    SumFlat(m.Keys, some, c);
  }
}
