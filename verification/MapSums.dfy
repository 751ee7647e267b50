/** Sums over finite maps. The order in which a hash map yields its entries is
    unspecified, so a sum must not depend on it; these lemmas say it does not. */
module MapSums {

  ghost function SumValues<K(!new)>(m: map<K, int>): int {
    if m == map[] then 0
    else
      var k :| k in m;
      m[k] + SumValues(m - {k})
  }

  ghost function Restrict<K(!new), V>(m: map<K, V>, keys: set<K>): map<K, V> {
    map k | k in m && k in keys :: m[k]
  }

  /** Any entry may be taken out first. */
  lemma {:induction false} SumRemove<K(!new)>(m: map<K, int>, k: K)
    requires k in m
    ensures SumValues(m) == m[k] + SumValues(m - {k})
    decreases m
  {
    var first :| first in m && SumValues(m) == m[first] + SumValues(m - {first});
    if first != k {
      SumRemove(m - {first}, k);
      SumRemove(m - {k}, first);
      assert m - {first} - {k} == m - {k} - {first};
    }
  }

  lemma SumInsert<K(!new)>(m: map<K, int>, k: K, v: int)
    requires k !in m
    ensures SumValues(m[k := v]) == SumValues(m) + v
  {
    SumRemove(m[k := v], k);
    assert m[k := v] - {k} == m;
  }

  /** A sum is the sum over any part of the entries and over the rest. */
  lemma {:induction false} SumSplit<K(!new)>(m: map<K, int>, part: set<K>)
    ensures SumValues(m) == SumValues(Restrict(m, part)) + SumValues(m - part)
    decreases m
  {
    if k :| k in m {
      SumSplit(m - {k}, part);
      SumRemove(m, k);
      if k in part {
        SumRemove(Restrict(m, part), k);
        assert Restrict(m, part) - {k} == Restrict(m - {k}, part);
        assert m - part == (m - {k}) - part;
      } else {
        SumRemove(m - part, k);
        assert (m - part) - {k} == (m - {k}) - part;
        assert Restrict(m, part) == Restrict(m - {k}, part);
      }
    } else {
      assert Restrict(m, part) == map[] && m - part == map[];
    }
  }

  lemma OneMore(high: int, n: int)
    ensures high * (n + 1) == high * n + high
  {
  }

  lemma {:induction false} SumAtMost<K(!new)>(m: map<K, int>, high: int)
    requires forall k :: k in m ==> m[k] <= high
    ensures SumValues(m) <= high * |m|
    decreases m
  {
    if k :| k in m {
      var rest := m - {k};
      SumAtMost(rest, high);
      SumRemove(m, k);
      assert rest.Keys == m.Keys - {k};
      OneMore(high, |rest|);
      assert |m| == |rest| + 1;
    } else {
      assert m == map[];
    }
  }

  lemma {:induction false} ElementAtMostSum<K(!new)>(m: map<K, int>, k: K)
    requires k in m && forall j :: j in m ==> m[j] >= 0
    ensures m[k] <= SumValues(m)
  {
    SumRemove(m, k);
    SumNonNegative(m - {k});
  }

  lemma {:induction false} SumNonNegative<K(!new)>(m: map<K, int>)
    requires forall k :: k in m ==> m[k] >= 0
    ensures SumValues(m) >= 0
    decreases m
  {
    if k :| k in m {
      SumRemove(m, k);
      SumNonNegative(m - {k});
    } else {
      assert m == map[];
    }
  }
}
