/** Totals over the values of a map. */
module MapSums {
  ghost function When(c: bool, x: real): real {
    if c then x else 0.0
  }

  ghost function Sum<K(!new)>(m: map<K, real>): real {
    if m == map[] then 0.0
    else var k :| k in m; m[k] + Sum(m - {k})
  }

  /** The key taken out first does not matter. */
  lemma {:induction false} SumWithout<K(!new)>(m: map<K, real>, k: K)
    requires k in m
    ensures Sum(m) == m[k] + Sum(m - {k})
    decreases |m|
  {
    var c :| c in m && Sum(m) == m[c] + Sum(m - {c});
    if c != k {
      SumWithout(m - {c}, k);
      SumWithout(m - {k}, c);
      assert m - {c} - {k} == m - {k} - {c};
    }
  }

  /** Setting one value changes the total by the difference. */
  lemma SumUpdate<K(!new)>(m: map<K, real>, k: K, v: real)
    ensures Sum(m[k := v]) == Sum(m) + v - (if k in m then m[k] else 0.0)
  {
    SumWithout(m[k := v], k);
    assert m[k := v] - {k} == m - {k};
    if k in m {
      SumWithout(m, k);
    } else {
      assert m - {k} == m;
    }
  }

  lemma {:induction false} SumNonNegative<K(!new)>(m: map<K, real>)
    requires forall k :: k in m ==> m[k] >= 0.0
    ensures Sum(m) >= 0.0
    decreases |m|
  {
    if m != map[] {
      var k :| k in m;
      SumWithout(m, k);
      SumNonNegative(m - {k});
    }
  }

  /** No value exceeds a total of non-negative ones, and no two of them together do. */
  lemma SumBounds<K(!new)>(m: map<K, real>, k: K)
    requires forall k :: k in m ==> m[k] >= 0.0
    requires k in m
    ensures m[k] <= Sum(m)
  {
    SumWithout(m, k);
    SumNonNegative(m - {k});
  }
}
