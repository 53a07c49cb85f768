/** The book as a value: one queue per side in price-time order, plus the parked stops. */
module BookSpec {
  import opened MatchingTypes

  datatype Book = Book(bids: seq<Order>, asks: seq<Order>, stops: seq<Order>, last: int, seqNo: nat)
  {
    function Queue(side: Side): seq<Order> {
      if side == Buy then bids else asks
    }

    function WithQueue(side: Side, q: seq<Order>): Book {
      if side == Buy then this.(bids := q) else this.(asks := q)
    }
  }

  const EMPTY := Book([], [], [], 0, 0)

  // ----- queues -----

  ghost predicate Sorted(q: seq<Order>) {
    forall i, j :: 0 <= i < j < |q| ==> Precedes(q[i], q[j])
  }

  /** How many orders o queues behind: the first place where it has priority. */
  function Rank(q: seq<Order>, o: Order): (r: nat)
    ensures r <= |q|
    ensures forall i :: 0 <= i < r ==> !Precedes(o, q[i])
    ensures r < |q| ==> Precedes(o, q[r])
  {
    if q == [] || Precedes(o, q[0]) then 0 else 1 + Rank(q[1..], o)
  }

  function Insert(q: seq<Order>, o: Order): seq<Order> {
    q[..Rank(q, o)] + [o] + q[Rank(q, o)..]
  }

  /** The place of an order id in a queue, or the queue's length. */
  function Find(q: seq<Order>, id: Id): (i: nat)
    ensures i <= |q|
    ensures i < |q| ==> q[i].id == id
    ensures forall k :: 0 <= k < i ==> q[k].id != id
  {
    if q == [] || q[0].id == id then 0 else 1 + Find(q[1..], id)
  }

  function Without(q: seq<Order>, id: Id): seq<Order> {
    var i := Find(q, id);
    if i < |q| then q[..i] + q[i + 1..] else q
  }

  // ----- well-formed books -----

  /** An order that may rest: priced, with something left, and its quantities adding up. */
  predicate Resting(o: Order) {
    && o.price.At?
    && o.remaining > 0
    && o.filled >= 0
    && o.filled + o.remaining == o.quantity
  }

  /** A stop order waiting for its trigger. */
  predicate Parked(o: Order) {
    && (o.kind == StopLoss || (o.kind == StopLimit && o.price.At?))
    && o.stopPrice.At?
    && o.filled == 0 < o.remaining == o.quantity
  }

  ghost predicate GoodQueue(side: Side, q: seq<Order>, seqNo: nat) {
    Sorted(q) && forall o :: o in q ==> o.side == side && Resting(o) && 0 < o.bookSeq <= seqNo
  }

  predicate Apart(a: Order, b: Order) {
    a.id != b.id && (a.bookSeq != b.bookSeq || a.bookSeq == 0)
  }

  ghost predicate ApartFrom(q: seq<Order>, o: Order) {
    forall a :: a in q ==> Apart(a, o)
  }

  ghost predicate AllApart(q: seq<Order>, r: seq<Order>) {
    forall o :: o in r ==> ApartFrom(q, o)
  }

  ghost predicate PairwiseApart(q: seq<Order>) {
    forall i, j :: 0 <= i < j < |q| ==> Apart(q[i], q[j])
  }

  ghost predicate Separate(b: Book) {
    && PairwiseApart(b.bids) && PairwiseApart(b.asks) && PairwiseApart(b.stops)
    && AllApart(b.bids, b.asks) && AllApart(b.bids, b.stops) && AllApart(b.asks, b.stops)
  }

  ghost predicate GoodStops(stops: seq<Order>, seqNo: nat) {
    forall o :: o in stops ==> Parked(o) && o.bookSeq <= seqNo
  }

  ghost predicate WellFormed(b: Book) {
    && GoodQueue(Buy, b.bids, b.seqNo)
    && GoodQueue(Sell, b.asks, b.seqNo)
    && GoodStops(b.stops, b.seqNo)
    && Separate(b)
  }

  ghost predicate AbsentFrom(id: Id, q: seq<Order>) {
    forall o :: o in q ==> o.id != id
  }

  ghost predicate Absent(id: Id, b: Book) {
    AbsentFrom(id, b.bids) && AbsentFrom(id, b.asks) && AbsentFrom(id, b.stops)
  }

  /** No live bid reaches a live ask. */
  ghost predicate Uncrossed(b: Book) {
    forall x, y :: x in b.bids && y in b.asks ==> x.price.Units() < y.price.Units()
  }

  lemma PrecedesTransitive(a: Order, b: Order, c: Order)
    ensures a.side == b.side && Precedes(a, b) && Precedes(b, c) ==> Precedes(a, c)
  {
  }

  lemma InsertSorted(q: seq<Order>, o: Order)
    requires Sorted(q)
    requires forall x :: x in q ==> x.side == o.side && x.bookSeq != o.bookSeq
    ensures Sorted(Insert(q, o))
  {
    var r, s := Rank(q, o), Insert(q, o);
    assert forall i :: 0 <= i < |q| ==> q[i].side == o.side && q[i].bookSeq != o.bookSeq;
    forall i, j | 0 <= i < j < |s| ensures Precedes(s[i], s[j]) {
      if i < r && j == r {
        assert !Precedes(o, q[i]);
      } else if i == r {
        if j - 1 > r { PrecedesTransitive(o, q[r], q[j - 1]); }
      }
    }
  }

  lemma InsertContents(q: seq<Order>, o: Order)
    ensures multiset(Insert(q, o)) == multiset(q) + multiset{o}
    ensures forall x :: x in Insert(q, o) <==> x in q || x == o
  {
    assert q == q[..Rank(q, o)] + q[Rank(q, o)..];
    assert forall x :: x in q ==> x in multiset(q);
    assert forall x :: x in Insert(q, o) ==> x in multiset(Insert(q, o));
  }

  lemma WithoutSorted(q: seq<Order>, id: Id)
    ensures Sorted(q) ==> Sorted(Without(q, id))
    ensures Sorted(q) ==> (forall o :: o in Without(q, id) ==> o in q)
  {
  }

  /** The queue of a side is determined by its orders: sorting leaves no choice. */
  lemma {:induction false} SortedIsUnique(side: Side, q: seq<Order>, r: seq<Order>)
    requires Sorted(q) && Sorted(r)
    requires forall o :: o in q || o in r ==> o.side == side
    requires forall o :: o in q <==> o in r
    ensures q == r
  {
    assert forall i :: 0 <= i < |r| ==> r[i] in q;
    assert forall i :: 0 <= i < |q| ==> q[i] in r;
    if q != [] && r != [] {
      assert q[0] in r && r[0] in q;
      assert q[0] == r[0];
      forall o ensures o in q[1..] <==> o in r[1..] {
        if o in q[1..] { assert Precedes(q[0], o); assert o in r; }
        if o in r[1..] { assert Precedes(r[0], o); assert o in q; }
      }
      SortedIsUnique(side, q[1..], r[1..]);
    }
  }
}
