/** Restoring a snapshot gives back every queue in its order exactly when ages agree with priorities. */
module RestoreLaws {
  import opened MatchingTypes
  import opened BookSpec
  import opened MatchingSpec
  import opened MatchingLaws
  import opened RecoverySpec

  // ----- sorting by age -----

  ghost predicate ByAge(s: seq<Order>) {
    forall i, j :: 0 <= i < j < |s| ==> s[i].createdAt <= s[j].createdAt
  }

  /** t holds the orders of s and one more. */
  ghost predicate HasOneMore(s: seq<Order>, t: seq<Order>, o: Order) {
    forall x :: x in t <==> x in s || x == o
  }

  lemma {:induction false} InsertByAgeSorts(s: seq<Order>, o: Order)
    requires ByAge(s)
    ensures ByAge(InsertByAge(s, o)) && HasOneMore(s, InsertByAge(s, o), o)
  {
    if s != [] {
      var n := |s| - 1;
      assert s == s[..n] + [s[n]];
      if s[n].createdAt > o.createdAt {
        InsertByAgeSorts(s[..n], o);
        var t := InsertByAge(s[..n], o);
        forall i | 0 <= i < |t| ensures t[i].createdAt <= s[n].createdAt {
          assert t[i] in t;
        }
      }
    }
  }

  lemma {:induction false} InsertByAgeOneEach(s: seq<Order>, o: Order)
    requires OneEach(s) && AbsentFrom(o.id, s)
    ensures OneEach(InsertByAge(s, o)) && HasOneMore(s, InsertByAge(s, o), o)
  {
    if s != [] {
      var n := |s| - 1;
      assert s == s[..n] + [s[n]];
      if s[n].createdAt > o.createdAt {
        InsertByAgeOneEach(s[..n], o);
        var t := InsertByAge(s[..n], o);
        forall i | 0 <= i < |t| ensures t[i].id != s[n].id {
          assert t[i] in t;
        }
      }
    }
  }

  lemma {:induction false} SortByAgeSorts(orders: seq<Order>)
    requires OneEach(orders)
    ensures var s := SortByAge(orders);
      ByAge(s) && OneEach(s) && forall x :: x in s <==> x in orders
  {
    if orders != [] {
      var n := |orders| - 1;
      assert orders == orders[..n] + [orders[n]];
      SortByAgeSorts(orders[..n]);
      InsertByAgeSorts(SortByAge(orders[..n]), orders[n]);
      InsertByAgeOneEach(SortByAge(orders[..n]), orders[n]);
    }
  }

  lemma {:induction false} SortByAgeLength(orders: seq<Order>)
    ensures |SortByAge(orders)| == |orders|
  {
    if orders != [] {
      SortByAgeLength(orders[..|orders| - 1]);
      InsertByAgeLength(SortByAge(orders[..|orders| - 1]), orders[|orders| - 1]);
    }
  }

  lemma {:induction false} InsertByAgeLength(s: seq<Order>, o: Order)
    ensures |InsertByAge(s, o)| == |s| + 1
  {
    if s != [] { InsertByAgeLength(s[..|s| - 1], o); }
  }

  lemma {:induction false} SortedStays(orders: seq<Order>)
    requires ByAge(orders)
    ensures SortByAge(orders) == orders
  {
    if orders != [] {
      var n := |orders| - 1;
      SortedStays(orders[..n]);
      assert n > 0 ==> orders[..n][n - 1] == orders[n - 1];
      assert orders == orders[..n] + [orders[n]];
    }
  }

  // ----- refilling the queues -----

  /** Orders as they come from a snapshot: live, without a place, each once. */
  ghost predicate Storable(s: seq<Order>) {
    && (forall i :: 0 <= i < |s| ==> Resting(s[i]) && s[i].bookSeq == 0)
    && OneEach(s)
  }

  /** The order's book sequence is its position in the listing. */
  predicate StoredAt(s: seq<Order>, o: Order) {
    0 < o.bookSeq <= |s| && o == s[o.bookSeq - 1].(bookSeq := o.bookSeq)
  }

  /** A refilled queue: the stored orders of its side, sorted, each knowing its position in the listing. */
  ghost predicate Refilled(side: Side, s: seq<Order>, q: seq<Order>) {
    && GoodQueue(side, q, |s|)
    && (forall o :: o in q ==> StoredAt(s, o))
    && (forall i :: 0 <= i < |s| && s[i].side == side ==> s[i].(bookSeq := i + 1) in q)
  }

  lemma {:induction false} RefillIsRefilled(s: seq<Order>)
    requires Storable(s)
    ensures Refilled(Buy, s, Refill(s).bids) && Refilled(Sell, s, Refill(s).asks)
  {
    if s != [] {
      var n := |s| - 1;
      RefillIsRefilled(s[..n]);
      RefilledStep(s, Refill(s[..n]), Buy);
      RefilledStep(s, Refill(s[..n]), Sell);
    }
  }

  lemma StoredAtGrows(s: seq<Order>, o: Order)
    ensures s != [] && StoredAt(s[..|s| - 1], o) ==> StoredAt(s, o)
  {
  }

  /** What a queue holds once its listing has one more order, whichever queue that order went to. */
  lemma RefilledGrows(side: Side, s: seq<Order>, q: seq<Order>, q': seq<Order>)
    requires s != [] && Refilled(side, s[..|s| - 1], q) && Sorted(q')
    requires Resting(s[|s| - 1])
    requires forall x :: x in q' <==> x in q || (s[|s| - 1].side == side && x == s[|s| - 1].(bookSeq := |s|))
    ensures Refilled(side, s, q')
  {
    hide Sorted, Resting;
    var n := |s| - 1;
    forall x | x in q' ensures x.side == side && Resting(x) && StoredAt(s, x) {
      if x in q { StoredAtGrows(s, x); } else { RestingCopy(s[n], n + 1); }
    }
    forall i | 0 <= i < |s| && s[i].side == side ensures s[i].(bookSeq := i + 1) in q' {
      if i < n { assert s[..n][i].(bookSeq := i + 1) in q; }
    }
  }

  lemma RestingCopy(o: Order, n: nat)
    ensures Resting(o) ==> Resting(o.(bookSeq := n))
  {
  }

  lemma RefilledStep(s: seq<Order>, b: Book, side: Side)
    requires s != [] && Storable(s) && Refilled(side, s[..|s| - 1], b.Queue(side))
    ensures var n := |s| - 1;
      var o := s[n].(bookSeq := n + 1);
      Refilled(side, s, if s[n].side == side then Insert(b.Queue(side), o) else b.Queue(side))
  {
    hide Storable, Insert;
    var n := |s| - 1;
    var o := s[n].(bookSeq := n + 1);
    var q := b.Queue(side);
    StorableLast(s);
    if o.side == side {
      InsertSorted(q, o);
      InsertContents(q, o);
      RefilledGrows(side, s, q, Insert(q, o));
    } else {
      RefilledGrows(side, s, q, q);
    }
  }

  lemma StorableLast(s: seq<Order>)
    ensures s != [] && Storable(s) ==> Resting(s[|s| - 1])
  {
  }

  // ----- when the order of a queue survives -----

  /** Among orders of one price, the one that is ahead is strictly older. */
  ghost predicate AgesAgree(q: seq<Order>) {
    forall i, j :: 0 <= i < j < |q| && q[i].price.Units() == q[j].price.Units() ==> q[i].createdAt < q[j].createdAt
  }

  predicate OlderFirst(a: Order, z: Order) {
    if a.price.Units() != z.price.Units() then
      (if a.side == Buy then a.price.Units() > z.price.Units() else a.price.Units() < z.price.Units())
    else a.createdAt < z.createdAt
  }

  ghost predicate SortedByAge(q: seq<Order>) {
    forall i, j :: 0 <= i < j < |q| ==> OlderFirst(q[i], q[j])
  }

  lemma {:induction false} ByAgeIsUnique(side: Side, q: seq<Order>, r: seq<Order>)
    requires SortedByAge(q) && SortedByAge(r)
    requires forall o :: o in q ==> o.side == side
    requires forall o :: o in q <==> o in r
    ensures q == r
  {
    assert forall i :: 0 <= i < |r| ==> r[i] in q;
    assert forall i :: 0 <= i < |q| ==> q[i] in r;
    if q != [] && r != [] {
      assert q[0] in r && r[0] in q;
      assert q[0] == r[0];
      forall o ensures o in q[1..] <==> o in r[1..] {
        if o in q[1..] { assert OlderFirst(q[0], o); assert o in r; }
        if o in r[1..] { assert OlderFirst(r[0], o); assert o in q; }
      }
      ByAgeIsUnique(side, q[1..], r[1..]);
    }
  }

  lemma CopySortedByAge(q: seq<Order>)
    requires Sorted(q) && AgesAgree(q)
    ensures SortedByAge(CopyAll(q))
  {
    var c := CopyAll(q);
    forall i, j | 0 <= i < j < |c| ensures OlderFirst(c[i], c[j]) {
      assert Precedes(q[i], q[j]);
    }
  }

  lemma StoredIn(s: seq<Order>, side: Side, r: seq<Order>, k: nat)
    requires Storable(s) && Refilled(side, s, r) && k < |r|
    ensures r[k].side == side && 0 < r[k].bookSeq <= |s| && Copied(r[k]) == s[r[k].bookSeq - 1]
  {
    assert r[k] in r;
  }

  /** Two different orders of one queue and price never have the same age, if ages agree. */
  lemma AgesDiffer(q: seq<Order>, a: Order, z: Order)
    requires AgesAgree(q) && a in CopyAll(q) && z in CopyAll(q) && a != z
    requires a.price.Units() == z.price.Units()
    ensures a.createdAt != z.createdAt
  {
    var k :| 0 <= k < |q| && CopyAll(q)[k] == a;
    var l :| 0 <= l < |q| && CopyAll(q)[l] == z;
  }

  lemma PairByAge(s: seq<Order>, side: Side, q: seq<Order>, r: seq<Order>, i: nat, j: nat)
    requires Storable(s) && ByAge(s) && Refilled(side, s, r) && AgesAgree(q) && i < j < |r|
    requires forall o :: o in s && o.side == side ==> o in CopyAll(q)
    ensures OlderFirst(Copied(r[i]), Copied(r[j]))
  {
    hide AgesAgree, Storable, Refilled;
    RefilledSorted(s, side, r, i, j);
    StoredIn(s, side, r, i);
    StoredIn(s, side, r, j);
    var a, z := s[r[i].bookSeq - 1], s[r[j].bookSeq - 1];
    if a.price.Units() == z.price.Units() {
      assert a in s && z in s;
      StorableDistinct(s, r[i].bookSeq - 1, r[j].bookSeq - 1);
      AgesDiffer(q, a, z);
    }
  }

  lemma RefillSortedByAge(s: seq<Order>, side: Side, q: seq<Order>, r: seq<Order>)
    requires Storable(s) && ByAge(s) && Refilled(side, s, r) && AgesAgree(q)
    requires forall o :: o in s && o.side == side ==> o in CopyAll(q)
    ensures SortedByAge(CopyAll(r))
  {
    hide AgesAgree, Storable, Refilled, ByAge, OlderFirst;
    var c := CopyAll(r);
    forall i, j | 0 <= i < j < |c| ensures OlderFirst(c[i], c[j]) {
      PairByAge(s, side, q, r, i, j);
    }
  }

  lemma RefilledSorted(s: seq<Order>, side: Side, r: seq<Order>, i: nat, j: nat)
    ensures Refilled(side, s, r) && i < j < |r| ==> Precedes(r[i], r[j])
  {
  }

  lemma StorableDistinct(s: seq<Order>, i: nat, j: nat)
    ensures Storable(s) && i < j < |s| ==> s[i] != s[j]
  {
  }

  lemma RestoredMembers(s: seq<Order>, side: Side, r: seq<Order>)
    requires Storable(s) && Refilled(side, s, r)
    ensures forall o :: o in CopyAll(r) <==> o in s && o.side == side
  {
    forall o | o in CopyAll(r) ensures o in s && o.side == side {
      hide Storable, Refilled;
      var k :| 0 <= k < |r| && CopyAll(r)[k] == o;
      StoredIn(s, side, r, k);
    }
    forall o | o in s && o.side == side ensures o in CopyAll(r) {
      var i :| 0 <= i < |s| && s[i] == o;
      var x := s[i].(bookSeq := i + 1);
      assert x in r;
      CopiedIn(r, x);
      assert Copied(x) == o;
    }
  }

  lemma CopiedIn(q: seq<Order>, x: Order)
    requires x in q
    ensures Copied(x) in CopyAll(q)
  {
    var k :| 0 <= k < |q| && q[k] == x;
    assert CopyAll(q)[k] == Copied(x);
  }

  lemma ListingIsStorable(s: seq<Order>, b: Book)
    requires WellFormed(b) && Lists(s, b)
    ensures Storable(s)
    ensures forall o :: o in s && o.side == Buy <==> o in CopyAll(b.bids)
    ensures forall o :: o in s && o.side == Sell <==> o in CopyAll(b.asks)
  {
    forall k | 0 <= k < |b.bids| ensures CopyAll(b.bids)[k].side == Buy && Resting(CopyAll(b.bids)[k]) {
      assert b.bids[k] in b.bids;
    }
    forall k | 0 <= k < |b.asks| ensures CopyAll(b.asks)[k].side == Sell && Resting(CopyAll(b.asks)[k]) {
      assert b.asks[k] in b.asks;
    }
    forall i | 0 <= i < |s| ensures Resting(s[i]) && s[i].bookSeq == 0 {
      assert s[i] in s;
    }
  }

  lemma QueueSurvives(s: seq<Order>, side: Side, q: seq<Order>, r: seq<Order>)
    requires Storable(s) && ByAge(s) && Refilled(side, s, r) && Sorted(q) && AgesAgree(q)
    requires forall o :: o in s && o.side == side <==> o in CopyAll(q)
    ensures CopyAll(r) == CopyAll(q)
  {
    RestoredMembers(s, side, r);
    RefillSortedByAge(s, side, q, r);
    CopySortedByAge(q);
    ByAgeIsUnique(side, CopyAll(q), CopyAll(r));
  }

  ghost predicate SameQueues(b: Book, c: Book) {
    CopyAll(b.bids) == CopyAll(c.bids) && CopyAll(b.asks) == CopyAll(c.asks)
  }

  /** Up to the places of its orders, nothing of the book is lost: queues, stops in their order, counter, last price. */
  ghost predicate SameBook(b: Book, c: Book) {
    && SameQueues(b, c) && CopyAll(b.stops) == CopyAll(c.stops)
    && b.seqNo == c.seqNo && (b.last == c.last || b.last <= 0 == c.last)
  }

  lemma CopiedTwice(q: seq<Order>)
    ensures CopyAll(CopyAll(q)) == CopyAll(q)
  {
  }

  /** A restored book is the book of the snapshot, if ages agree with priorities. */
  lemma RestoreKeepsQueues(b: Book, s: Snapshot, wal: nat)
    requires WellFormed(b) && IsSnapshotOf(s, b, wal) && AgesAgree(b.bids) && AgesAgree(b.asks)
    ensures SameBook(b, RestoreBook(s))
  {
    CopiedTwice(b.stops);
    var sorted := SortByAge(s.orders);
    SortByAgeSorts(s.orders);
    ListingIsStorable(sorted, b);
    RefillIsRefilled(sorted);
    QueueSurvives(sorted, Buy, b.bids, Refill(sorted).bids);
    QueueSurvives(sorted, Sell, b.asks, Refill(sorted).asks);
  }

  // ----- and only then -----

  lemma ListingExists(b: Book) returns (s: seq<Order>)
    requires WellFormed(b)
    ensures Lists(s, b) && ByAge(s)
  {
    var all := CopyAll(b.bids) + CopyAll(b.asks);
    forall i, j | 0 <= i < j < |all| ensures all[i].id != all[j].id {
      if j < |b.bids| {
        assert Apart(b.bids[i], b.bids[j]);
      } else if i >= |b.bids| {
        assert Apart(b.asks[i - |b.bids|], b.asks[j - |b.bids|]);
      } else {
        assert b.asks[j - |b.bids|] in b.asks && ApartFrom(b.bids, b.asks[j - |b.bids|]);
        assert b.bids[i] in b.bids;
      }
    }
    s := SortByAge(all);
    SortByAgeSorts(all);
  }

  lemma PositionOf(s: seq<Order>, x: Order) returns (i: nat)
    requires x in s
    ensures i < |s| && s[i] == x
  {
    i :| 0 <= i < |s| && s[i] == x;
  }

  /** Exchanging two orders of the same age in a listing gives another listing by age. */
  lemma ExchangeEqualAges(s: seq<Order>, b: Book, i: nat, j: nat)
    requires Lists(s, b) && ByAge(s) && i < j < |s| && s[i].createdAt == s[j].createdAt
    ensures var t := s[i := s[j]][j := s[i]]; Lists(t, b) && ByAge(t)
  {
    var t := s[i := s[j]][j := s[i]];
    assert forall k :: 0 <= k < |s| ==> t[k].createdAt == s[k].createdAt;
    assert forall k :: 0 <= k < |s| ==> t[k] == s[if k == i then j else if k == j then i else k];
    forall x ensures x in t <==> x in s {
      if x in s {
        var k := PositionOf(s, x);
        assert t[if k == i then j else if k == j then i else k] == x;
      }
    }
  }

  /** If x is listed behind y, the refilled queue has it behind y as well. */
  lemma ListedBehind(s: seq<Order>, side: Side, r: seq<Order>, i: nat, j: nat, y: nat, x: nat)
    requires Storable(s) && Refilled(side, s, r) && i < j < |r| && y < x < |s|
    requires s[x].price.Units() == s[y].price.Units()
    ensures !(Copied(r[i]) == s[x] && Copied(r[j]) == s[y])
  {
    StoredIn(s, side, r, i);
    StoredIn(s, side, r, j);
    RefilledSorted(s, side, r, i, j);
  }

  /** Some listing by age has a pair the wrong way round that is ahead without being older. */
  lemma WrongListing(b: Book, side: Side, i: nat, j: nat) returns (s: seq<Order>, y: nat, x: nat)
    requires WellFormed(b)
    requires var q := b.Queue(side); i < j < |q| && q[i].createdAt >= q[j].createdAt
    ensures Lists(s, b) && ByAge(s) && y < x < |s|
    ensures s[x] == CopyAll(b.Queue(side))[i] && s[y] == CopyAll(b.Queue(side))[j]
  {
    hide WellFormed;
    var c := CopyAll(b.Queue(side));
    s := ListingExists(b);
    ListsAll(s, b, side);
    x := PositionOf(s, c[i]);
    y := PositionOf(s, c[j]);
    SameSideApart(b, side, i, j);
    if x < y {
      ExchangeEqualAges(s, b, x, y);
      s := s[x := s[y]][y := s[x]];
      x, y := y, x;
    }
  }

  lemma ListsAll(s: seq<Order>, b: Book, side: Side)
    ensures Lists(s, b) ==> (forall i :: 0 <= i < |b.Queue(side)| ==> CopyAll(b.Queue(side))[i] in s)
  {
  }

  /** So that pair is exchanged by some snapshot. */
  lemma SomeSnapshotExchanges(b: Book, side: Side, i: nat, j: nat, wal: nat) returns (s: Snapshot)
    requires WellFormed(b)
    requires var q := b.Queue(side);
      i < j < |q| && q[i].price.Units() == q[j].price.Units() && q[i].createdAt >= q[j].createdAt
    ensures IsSnapshotOf(s, b, wal)
    ensures CopyAll(RestoreBook(s).Queue(side)) != CopyAll(b.Queue(side))
  {
    hide WellFormed, Lists, ByAge, Refilled, Storable, RestoreBook, Refill;
    var listing, y, x := WrongListing(b, side, i, j);
    s := Snapshot(listing, CopyAll(b.stops), b.seqNo, if b.last > 0 then Some(b.last) else None, wal);
    ListingIsStorable(listing, b);
    RefillIsRefilled(listing);
    RestoreOfSorted(s, side);
    WrongWayRound(listing, side, b.Queue(side), RestoreBook(s).Queue(side), i, j, y, x);
  }

  lemma RestoreOfSorted(s: Snapshot, side: Side)
    requires ByAge(s.orders)
    ensures RestoreBook(s).Queue(side) == Refill(s.orders).Queue(side)
  {
    hide Refill;
    SortedStays(s.orders);
  }

  lemma WrongWayRound(s: seq<Order>, side: Side, q: seq<Order>, r: seq<Order>, i: nat, j: nat, y: nat, x: nat)
    requires Storable(s) && Refilled(side, s, r) && i < j < |q| && y < x < |s|
    requires s[x] == CopyAll(q)[i] && s[y] == CopyAll(q)[j] && q[i].price.Units() == q[j].price.Units()
    ensures CopyAll(r) != CopyAll(q)
  {
    hide Storable, Refilled;
    if |r| == |q| && Copied(r[i]) == CopyAll(q)[i] && Copied(r[j]) == CopyAll(q)[j] {
      ListedBehind(s, side, r, i, j, y, x);
    }
  }

  lemma SameSideApart(b: Book, side: Side, i: nat, j: nat)
    requires WellFormed(b) && i < j < |b.Queue(side)|
    ensures b.Queue(side)[i].id != b.Queue(side)[j].id
  {
    assert Apart(b.Queue(side)[i], b.Queue(side)[j]);
  }

  /** Whatever order the snapshot happens to list, restore gives the queues back iff ages agree with them. */
  lemma RestoreIsFaithfulIff(b: Book, wal: nat)
    requires WellFormed(b)
    ensures (forall s :: IsSnapshotOf(s, b, wal) ==> SameBook(b, RestoreBook(s)))
            <==> AgesAgree(b.bids) && AgesAgree(b.asks)
  {
    if AgesAgree(b.bids) && AgesAgree(b.asks) {
      forall s | IsSnapshotOf(s, b, wal) ensures SameBook(b, RestoreBook(s)) {
        RestoreKeepsQueues(b, s, wal);
      }
    } else if !AgesAgree(b.bids) {
      var i, j :| 0 <= i < j < |b.bids| && b.bids[i].price.Units() == b.bids[j].price.Units()
                  && b.bids[i].createdAt >= b.bids[j].createdAt;
      var s := SomeSnapshotExchanges(b, Buy, i, j, wal);
      assert IsSnapshotOf(s, b, wal) && !SameBook(b, RestoreBook(s));
    } else {
      var i, j :| 0 <= i < j < |b.asks| && b.asks[i].price.Units() == b.asks[j].price.Units()
                  && b.asks[i].createdAt >= b.asks[j].createdAt;
      var s := SomeSnapshotExchanges(b, Sell, i, j, wal);
      assert IsSnapshotOf(s, b, wal) && !SameBook(b, RestoreBook(s));
    }
  }
}
