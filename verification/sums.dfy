/** Totals over finite maps: the books that the conservation results balance. */
module Sums {

  /** The total of `f` over the values of a map. */
  ghost function Sum<K, V>(m: map<K, V>, f: V -> int): int
    decreases |m|
  {
    if m == map[] then 0
    else
      var k :| k in m;
      f(m[k]) + Sum(m - {k}, f)
  }

  lemma {:induction false} SumWithout<K, V>(m: map<K, V>, f: V -> int, k: K)
    requires k in m
    ensures Sum(m, f) == f(m[k]) + Sum(m - {k}, f)
    decreases |m|
  {
    var k' :| k' in m && Sum(m, f) == f(m[k']) + Sum(m - {k'}, f);
    if k' != k {
      SumWithout(m - {k'}, f, k);
      SumWithout(m - {k}, f, k');
      assert m - {k'} - {k} == m - {k} - {k'};
    }
  }

  /** Setting one entry changes the total by the change of that entry. */
  lemma SumUpdate<K, V>(m: map<K, V>, f: V -> int, k: K, v: V)
    ensures Sum(m[k := v], f) == Sum(m, f) - (if k in m then f(m[k]) else 0) + f(v)
  {
    SumWithout(m[k := v], f, k);
    if k in m {
      SumWithout(m, f, k);
      assert m[k := v] - {k} == m - {k};
    } else {
      assert m[k := v] - {k} == m;
    }
  }

  /** For maps that hold the amounts themselves. */
  function Self(x: int): int { x }

  lemma AmountUpdate<K>(m: map<K, int>, k: K, v: int)
    ensures Sum(m[k := v], Self) == Sum(m, Self) - (if k in m then m[k] else 0) + v
  {
    SumUpdate(m, Self, k, v);
    assert Self(v) == v && (k in m ==> Self(m[k]) == m[k]);
  }

  lemma {:induction false} SumNonNegative<K, V>(m: map<K, V>, f: V -> int)
    requires forall k :: k in m ==> f(m[k]) >= 0
    ensures Sum(m, f) >= 0
    decreases |m|
  {
    if m != map[] {
      var k :| k in m;
      SumWithout(m, f, k);
      SumNonNegative(m - {k}, f);
    }
  }

  /** With nothing negative, no entry exceeds the total. */
  lemma EntryBounded<K, V>(m: map<K, V>, f: V -> int, k: K)
    requires forall x :: x in m ==> f(m[x]) >= 0
    requires k in m
    ensures f(m[k]) <= Sum(m, f)
  {
    SumWithout(m, f, k);
    SumNonNegative(m - {k}, f);
  }
}
