/** Powers of two, the few facts about quotients and remainders that the rings and the bit shuffles need, and counting. */
module Arithmetic {
  function Pow2(n: nat): (p: nat)
    ensures p > 0
  {
    if n == 0 then 1 else 2 * Pow2(n - 1)
  }

  lemma MultipleIsOutside(k: int, m: nat)
    ensures k * m <= 0 || k * m >= m
  {
    if k >= 1 {
      assert k * m == m + (k - 1) * m;
    }
  }

  /** Quotient and remainder are the only pair that recomposes the number. */
  lemma DivMod(high: nat, low: nat, m: nat)
    requires low < m
    ensures (high * m + low) / m == high && (high * m + low) % m == low
  {
    var v := high * m + low;
    var q, r := v / m, v % m;
    assert v == q * m + r;
    assert (q - high) * m == low - r && (high - q) * m == r - low;
    MultipleIsOutside(q - high, m);
    MultipleIsOutside(high - q, m);
    assert low == r;
    assert (q - high) * m == 0;
  }

  /** Positions less than m apart have different remainders. */
  lemma DifferentRemainders(p: nat, q: nat, m: nat)
    requires p < q < p + m
    ensures p % m != q % m
  {
    var a, b := p / m, q / m;
    assert p == a * m + p % m && q == b * m + q % m;
    if p % m == q % m {
      assert q - p == (b - a) * m;
      MultipleIsOutside(b - a, m);
      assert false;
    }
  }

  function Quotient(v: nat, m: nat): nat
    requires m > 0
  {
    v / m
  }

  /** Different naturals below n are at most n. */
  lemma {:induction false} DistinctAreFew(s: seq<nat>, n: nat)
    requires forall i :: 0 <= i < |s| ==> s[i] < n
    requires forall i, j :: 0 <= i < j < |s| ==> s[i] != s[j]
    ensures |s| <= n
    decreases n
  {
    if s != [] {
      assert s[0] < n;
      if i :| 0 <= i < |s| && s[i] == n - 1 {
        DistinctAreFew(s[..i] + s[i + 1..], n - 1);
      } else {
        DistinctAreFew(s, n - 1);
      }
    }
  }
}
