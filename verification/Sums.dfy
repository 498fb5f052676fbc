/** Sums over the values of a finite map. */
module Sums {

  /**
   * The sum of the values of `m`.  The detour over two more functions keeps the
   * prover from unfolding the recursion on its own; `SumEmpty` and `SumRemove`
   * say all that is needed about it.
   */
  ghost function Sum<K>(m: map<K, int>): int
    decreases |m|, 2
  {
    SumVia(m)
  }

  ghost function SumVia<K>(m: map<K, int>): int
    decreases |m|, 1
  {
    SumByAnyKey(m)
  }

  ghost function SumByAnyKey<K>(m: map<K, int>): int
    decreases |m|, 0
  {
    if m == map[] then 0
    else
      var k :| k in m;
      m[k] + Sum(m - {k})
  }

  lemma SumUnfold<K>(m: map<K, int>)
    ensures Sum(m) == SumByAnyKey(m)
  {
    assert Sum(m) == SumVia(m);
    assert SumVia(m) == SumByAnyKey(m);
  }

  lemma SumEmpty<K>(m: map<K, int>)
    requires m.Keys == {}
    ensures Sum(m) == 0
  {
    SumUnfold(m);
    assert m == map[];
  }

  /** The sum may be taken apart at any key. */
  lemma {:induction false} SumRemove<K>(m: map<K, int>, k: K)
    requires k in m
    ensures Sum(m) == m[k] + Sum(m - {k})
    decreases |m|
  {
    SumUnfold(m);
    var k0 :| k0 in m && SumByAnyKey(m) == m[k0] + Sum(m - {k0});
    if k0 != k {
      SumRemove(m - {k0}, k);
      SumRemove(m - {k}, k0);
      assert m - {k0} - {k} == m - {k} - {k0};
    }
  }

  lemma SumUpdate<K>(m: map<K, int>, k: K, x: int)
    ensures Sum(m[k := x]) == Sum(m) - (if k in m then m[k] else 0) + x
  {
    SumRemove(m[k := x], k);
    assert m[k := x] - {k} == m - {k};
    if k in m {
      SumRemove(m, k);
    } else {
      assert m - {k} == m;
    }
  }

  lemma {:induction false} SumAdd<K>(m: map<K, int>, n: map<K, int>, h: map<K, int>)
    requires m.Keys == n.Keys == h.Keys
    requires forall k :: k in m ==> m[k] == n[k] + h[k]
    ensures Sum(m) == Sum(n) + Sum(h)
    decreases |m|
  {
    if m.Keys == {} {
      SumEmpty(m);
      SumEmpty(n);
      SumEmpty(h);
    } else {
      var k :| k in m;
      SumRemove(m, k);
      SumRemove(n, k);
      SumRemove(h, k);
      SumAdd(m - {k}, n - {k}, h - {k});
    }
  }

  /** The product, as a recursive function: the prover multiplies only where a lemma asks it to. */
  ghost function Times(x: nat, y: int): int {
    if x == 0 then 0 else Times(x - 1, y) + y
  }

  lemma {:induction false} TimesIsProduct(x: nat, y: int)
    ensures Times(x, y) == x * y
  {
    if x > 0 {
      TimesIsProduct(x - 1, y);
      assert x * y == (x - 1) * y + y;
    }
  }

  lemma {:induction false} TimesPlus(x: nat, y: int, z: int)
    ensures Times(x, y + z) == Times(x, y) + Times(x, z)
  {
    if x > 0 {
      TimesPlus(x - 1, y, z);
    }
  }

  lemma TimesAcross(x: nat, y: nat, z: int)
    ensures Times(x + y, z) == Times(x, z) + Times(y, z)
  {
    TimesIsProduct(x + y, z);
    TimesIsProduct(x, z);
    TimesIsProduct(y, z);
    assert (x + y) * z == x * z + y * z;
  }

  lemma TimesSwap(x: nat, y: nat)
    ensures Times(x, y) == Times(y, x)
  {
    TimesIsProduct(x, y);
    TimesIsProduct(y, x);
    assert x * y == y * x;
  }

  lemma TimesZero(x: nat)
    ensures Times(x, 0) == 0
  {
    TimesIsProduct(x, 0);
  }

  lemma TimesNonNegative(x: nat, y: int)
    requires y >= 0
    ensures Times(x, y) >= 0
  {
    if x > 0 {
      TimesNonNegative(x - 1, y);
    }
  }

  ghost function Scaled<K>(m: map<K, int>, c: nat): map<K, int> {
    map k | k in m :: Times(c, m[k])
  }

  lemma {:induction false} SumScaled<K>(m: map<K, int>, c: nat)
    ensures Sum(Scaled(m, c)) == Times(c, Sum(m))
  {
    if c == 0 {
      SumAdd(Scaled(m, 0), Scaled(m, 0), Scaled(m, 0));
    } else {
      SumScaled(m, c - 1);
      SumAdd(Scaled(m, c), Scaled(m, c - 1), m);
    }
  }

  /** If every value is another one plus `c` times a third, so are the sums. */
  lemma SumLinear<K>(m: map<K, int>, n: map<K, int>, h: map<K, int>, c: nat)
    requires m.Keys == n.Keys == h.Keys
    requires forall k :: k in m ==> m[k] == n[k] + Times(c, h[k])
    ensures Sum(m) == Sum(n) + Times(c, Sum(h))
  {
    SumScaled(h, c);
    SumAdd(m, n, Scaled(h, c));
  }

  lemma {:induction false} SumNonNegative<K>(m: map<K, int>)
    requires forall k :: k in m ==> m[k] >= 0
    ensures Sum(m) >= 0
    decreases |m|
  {
    if m == map[] {
      SumEmpty(m);
    } else {
      var k :| k in m;
      SumRemove(m, k);
      SumNonNegative(m - {k});
    }
  }

  lemma SumMember<K>(m: map<K, int>, k: K)
    requires forall j :: j in m ==> m[j] >= 0
    requires k in m
    ensures 0 <= m[k] <= Sum(m)
  {
    SumRemove(m, k);
    SumNonNegative(m - {k});
  }
}
