/**
 * Cycle walking: a permutation of [0, block) is turned into a permutation of [0, domain) by applying it again
 * until the value lands inside the domain. Everything here is for an arbitrary permutation.
 */
module CycleWalking {
  import opened Arithmetic

  /** p and q undo each other on [0, n). */
  ghost predicate Inverse(p: nat -> nat, q: nat -> nat, n: nat) {
    forall v: nat :: v < n ==> p(v) < n && q(v) < n && q(p(v)) == v && p(q(v)) == v
  }

  function Iterate(p: nat -> nat, v: nat, k: nat): nat {
    if k == 0 then v else p(Iterate(p, v, k - 1))
  }

  /** The walk from v lands at step k: the first step, after the start, that is inside the domain. */
  ghost predicate Lands(p: nat -> nat, v: nat, domain: nat, k: nat) {
    && k > 0 && Iterate(p, v, k) < domain
    && forall j: nat :: 0 < j < k ==> Iterate(p, v, j) >= domain
  }

  // ----- a permutation of a finite set returns to where it started -----

  lemma {:induction false} IterateStays(p: nat -> nat, q: nat -> nat, n: nat, v: nat, k: nat)
    requires Inverse(p, q, n) && v < n
    ensures Iterate(p, v, k) < n
  {
    if k > 0 {
      IterateStays(p, q, n, v, k - 1);
    }
  }

  /** Applying a permutation k times and then its inverse j times leaves k - j applications. */
  lemma {:induction false} StepsCancel(p: nat -> nat, q: nat -> nat, n: nat, v: nat, k: nat, j: nat)
    requires Inverse(p, q, n) && v < n && j <= k
    ensures Iterate(q, Iterate(p, v, k), j) == Iterate(p, v, k - j)
  {
    if j > 0 {
      StepsCancel(p, q, n, v, k, j - 1);
      IterateStays(p, q, n, v, k - j);
      assert Iterate(p, v, k - j + 1) == p(Iterate(p, v, k - j));
    }
  }

  /** n + 1 values below n are not all different. */
  lemma Pigeonhole(s: seq<nat>, n: nat) returns (i: nat, j: nat)
    requires |s| == n + 1 && forall k :: 0 <= k < |s| ==> s[k] < n
    ensures i < j <= n && s[i] == s[j]
  {
    if a, b :| 0 <= a < b < |s| && s[a] == s[b] {
      i, j := a, b;
    } else {
      DistinctAreFew(s, n);
      assert false;
    }
  }

  lemma Returns(p: nat -> nat, q: nat -> nat, n: nat, v: nat) returns (k: nat)
    requires Inverse(p, q, n) && v < n
    ensures k > 0 && Iterate(p, v, k) == v
  {
    var orbit := seq(n + 1, (i: nat) => Iterate(p, v, i));
    forall i | 0 <= i < |orbit| ensures orbit[i] < n {
      IterateStays(p, q, n, v, i);
    }
    var i, j := Pigeonhole(orbit, n);
    k := j - i;
    StepsCancel(p, q, n, v, j, i);
    StepsCancel(p, q, n, v, i, i);
  }

  // ----- the walk lands, and landing is a permutation of the domain -----

  lemma {:induction false} FirstLanding(p: nat -> nat, v: nat, domain: nat, k: nat) returns (first: nat)
    requires k > 0 && Iterate(p, v, k) < domain
    ensures first <= k && Lands(p, v, domain, first)
    decreases k
  {
    if j :| 0 < j < k && Iterate(p, v, j) < domain {
      first := FirstLanding(p, v, domain, j);
    } else {
      first := k;
    }
  }

  /** From every start inside the domain, the walk lands. */
  lemma WalkLands(p: nat -> nat, q: nat -> nat, n: nat, v: nat, domain: nat) returns (k: nat)
    requires Inverse(p, q, n) && v < domain <= n
    ensures Lands(p, v, domain, k)
  {
    var back := Returns(p, q, n, v);
    k := FirstLanding(p, v, domain, back);
  }

  lemma LandsOnce(p: nat -> nat, v: nat, domain: nat, k: nat, l: nat)
    ensures Lands(p, v, domain, k) && Lands(p, v, domain, l) ==> k == l
  {
  }

  /** Two starts that land on one value are the same start. */
  lemma WalkIsInjective(p: nat -> nat, q: nat -> nat, n: nat, domain: nat, a: nat, k: nat, b: nat, l: nat)
    requires Inverse(p, q, n) && a < domain <= n && b < domain
    requires Lands(p, a, domain, k) && Lands(p, b, domain, l) && Iterate(p, a, k) == Iterate(p, b, l)
    ensures a == b
    decreases k
  {
    if k > l {
      WalkIsInjective(p, q, n, domain, b, l, a, k);
    } else {
      StepsCancel(p, q, n, a, k, k);
      StepsCancel(p, q, n, b, l, k);
    }
  }

  /** Walking the inverse permutation back from w finds the start whose walk lands on w. */
  lemma WalkIsOnto(p: nat -> nat, q: nat -> nat, n: nat, domain: nat, w: nat) returns (v: nat, k: nat)
    requires Inverse(p, q, n) && w < domain <= n
    ensures v < domain && Lands(p, v, domain, k) && Iterate(p, v, k) == w
  {
    k := WalkLands(q, p, n, w, domain);
    v := Iterate(q, w, k);
    forall j: nat | 0 < j <= k
      ensures Iterate(p, v, j) == Iterate(q, w, k - j)
    {
      StepsCancel(q, p, n, w, k, j);
    }
  }
}
