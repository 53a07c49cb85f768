/** Go's container/heap over one side of the book: a slice kept in heap order. */
module OrderHeaps {
  import opened MatchingTypes

  predicate IsChild(p: int, k: int) {
    k == 2 * p + 1 || k == 2 * p + 2
  }

  /** No slot comes before its parent. */
  ghost predicate IsHeap(side: Side, s: seq<Entry>) {
    forall p, k :: 0 <= p < k < |s| && IsChild(p, k) ==> !Before(side, s[k], s[p])
  }

  /** Heap order everywhere except possibly between slot j and its parent. */
  ghost predicate IsHeapExceptAbove(side: Side, s: seq<Entry>, j: int) {
    && (forall p, k :: 0 <= p < k < |s| && k != j && IsChild(p, k) ==> !Before(side, s[k], s[p]))
    && (forall g, k :: 0 <= g < j < k < |s| && IsChild(g, j) && IsChild(j, k) ==> !Before(side, s[k], s[g]))
  }

  /** Heap order among the first n slots except possibly between slot i and its children. */
  ghost predicate IsHeapExceptBelow(side: Side, s: seq<Entry>, i: int, n: int)
    requires n <= |s|
  {
    && (forall p, k :: 0 <= p < k < n && p != i && IsChild(p, k) ==> !Before(side, s[k], s[p]))
    && (forall g, k :: 0 <= g < i < k < n && IsChild(g, i) && IsChild(i, k) ==> !Before(side, s[k], s[g]))
  }

  /** The root of a heap has the best priority of all its slots. */
  lemma {:induction false} RootIsBest(side: Side, s: seq<Entry>, k: nat)
    requires IsHeap(side, s) && k < |s|
    ensures !Before(side, s[k], s[0])
  {
    if k > 0 {
      assert IsChild((k - 1) / 2, k);
      RootIsBest(side, s, (k - 1) / 2);
    }
  }

  function Swapped<T>(s: seq<T>, i: nat, j: nat): seq<T>
    requires i < |s| && j < |s|
  {
    s[i := s[j]][j := s[i]]
  }

  lemma SwapKeepsContents<T>(s: seq<T>, i: nat, j: nat)
    ensures i < |s| && j < |s| ==> multiset(Swapped(s, i, j)) == multiset(s)
  {
  }

  lemma UpStep(side: Side, s: seq<Entry>, parent: nat, j: nat)
    requires parent < j < |s| && IsChild(parent, j)
    requires IsHeapExceptAbove(side, s, j) && Before(side, s[j], s[parent])
    ensures IsHeapExceptAbove(side, Swapped(s, parent, j), parent)
  {
    var t := Swapped(s, parent, j);
    forall p, k | 0 <= p < k < |t| && k != parent && IsChild(p, k) ensures !Before(side, t[k], t[p]) {
      if p == parent {
        assert k != j ==> !Before(side, s[k], s[p]);
      } else if p == j {
        assert !Before(side, s[k], s[parent]);
      } else {
        assert k != j && t[p] == s[p] && t[k] == s[k];
      }
    }
    forall g, k | 0 <= g < parent < k < |t| && IsChild(g, parent) && IsChild(parent, k)
      ensures !Before(side, t[k], t[g])
    {
      assert !Before(side, s[parent], s[g]);
      if k != j { assert !Before(side, s[k], s[parent]); }
    }
  }

  lemma DownStep(side: Side, s: seq<Entry>, i: nat, child: nat, n: nat)
    requires n <= |s| && i < child < n && IsChild(i, child)
    requires IsHeapExceptBelow(side, s, i, n) && Before(side, s[child], s[i])
    requires forall k :: 0 <= k < n && IsChild(i, k) ==> !Before(side, s[k], s[child])
    ensures IsHeapExceptBelow(side, Swapped(s, i, child), child, n)
  {
    var t := Swapped(s, i, child);
    forall p, k | 0 <= p < k < n && p != child && IsChild(p, k) ensures !Before(side, t[k], t[p]) {
      if k == i {
        assert !Before(side, s[child], s[p]);
      } else if p == i {
        assert k != child ==> !Before(side, s[k], s[child]);
      } else {
        assert t[p] == s[p] && t[k] == s[k];
      }
    }
    forall g, k | 0 <= g < child < k < n && IsChild(g, child) && IsChild(child, k)
      ensures !Before(side, t[k], t[g])
    {
      assert g == i && !Before(side, s[k], s[child]);
    }
  }

  /** The slots of t are those of s and one more. */
  ghost predicate Gains(s: seq<Entry>, t: seq<Entry>, x: Entry) {
    forall e :: e in t <==> e in s || e == x
  }

  lemma ContentsGain(s: seq<Entry>, t: seq<Entry>, x: Entry)
    requires multiset(t) == multiset(s) + multiset{x}
    ensures Gains(s, t, x)
  {
    forall e ensures e in t <==> e in s || e == x {
      assert e in t <==> e in multiset(t);
      assert e in s <==> e in multiset(s);
    }
  }

  class OrderHeap {
    const side: Side
    var entries: seq<Entry>

    constructor (side: Side)
      ensures this.side == side && entries == [] && Valid()
    {
      this.side := side;
      entries := [];
    }

    ghost predicate Valid()
      reads this
    {
      IsHeap(side, entries)
    }

    method Swap(i: nat, j: nat)
      requires i < |entries| && j < |entries|
      modifies this
      ensures entries == Swapped(old(entries), i, j)
      ensures multiset(entries) == multiset(old(entries))
    {
      SwapKeepsContents(entries, i, j);
      entries := entries[i := entries[j]][j := entries[i]];
    }

    method Up(start: nat)
      requires start < |entries|
      requires IsHeapExceptAbove(side, entries, start)
      modifies this
      ensures Valid()
      ensures multiset(entries) == multiset(old(entries))
    {
      var j := start;
      while j > 0 && Before(side, entries[j], entries[(j - 1) / 2])
        invariant j < |entries|
        invariant IsHeapExceptAbove(side, entries, j)
        invariant multiset(entries) == multiset(old(entries))
        decreases j
      {
        var parent := (j - 1) / 2;
        UpStep(side, entries, parent, j);
        Swap(parent, j);
        j := parent;
      }
    }

    method Down(n: nat)
      requires n <= |entries|
      requires IsHeapExceptBelow(side, entries, 0, n)
      modifies this
      ensures |entries| == |old(entries)| && entries[n..] == old(entries[n..])
      ensures IsHeap(side, entries[..n])
      ensures multiset(entries) == multiset(old(entries))
    {
      var i := 0;
      while 2 * i + 1 < n
        invariant 0 <= i && |entries| == |old(entries)|
        invariant IsHeapExceptBelow(side, entries, i, n)
        invariant entries[n..] == old(entries[n..])
        invariant multiset(entries) == multiset(old(entries))
        decreases n - i
      {
        var child := 2 * i + 1;
        if child + 1 < n && Before(side, entries[child + 1], entries[child]) {
          child := child + 1;
        }
        if !Before(side, entries[child], entries[i]) {
          break;
        }
        DownStep(side, entries, i, child, n);
        Swap(i, child);
        i := child;
      }
    }

    method Push(x: Entry)
      requires Valid()
      modifies this
      ensures Valid()
      ensures multiset(entries) == multiset(old(entries)) + multiset{x}
      ensures Gains(old(entries), entries, x)
    {
      entries := entries + [x];
      Up(|entries| - 1);
      ContentsGain(old(entries), entries, x);
    }

    /** Removes the root, which RootIsBest shows to have the best priority. */
    method Pop() returns (x: Entry)
      requires Valid() && |entries| > 0
      modifies this
      ensures Valid()
      ensures x == old(entries)[0] && |entries| == |old(entries)| - 1
      ensures multiset(entries) + multiset{x} == multiset(old(entries))
      ensures Gains(entries, old(entries), x)
    {
      var n := |entries| - 1;
      Swap(0, n);
      Down(n);
      x := entries[n];
      assert entries == entries[..n] + [x];
      entries := entries[..n];
      ContentsGain(entries, old(entries), x);
    }
  }
}
