/** The order book of one pair: two lazily purged heaps, the live-order map and the per-user index. */
module OrderBooks {
  import opened MatchingTypes
  import opened BookSpec
  import opened MatchingSpec
  import opened MatchingLaws
  import opened OrderHeaps
  import opened RecoverySpec
  import opened RestoreLaws

  /** One heap and the live-order map together represent one sorted queue; other entries are stale. */
  ghost predicate Represents(side: Side, entries: seq<Entry>, orders: map<Id, Order>, queue: seq<Order>) {
    && (forall o :: o in queue ==> o.id in orders && orders[o.id] == o && KeyOf(o) in entries)
    && (forall id :: id in orders && orders[id].side == side ==> orders[id] in queue)
    && (forall e :: e in entries && e.id in orders ==> orders[e.id].side == side && KeyOf(orders[e.id]) == e)
  }

  /** The index is the live map grouped by user, without empty groups. */
  ghost predicate Indexes(userOrders: map<User, set<Id>>, orders: map<Id, Order>) {
    && (forall u :: u in userOrders ==> userOrders[u] != {})
    && (forall u, id :: u in userOrders && id in userOrders[u] ==> id in orders && orders[id].user == u)
    && (forall id :: id in orders ==> orders[id].user in userOrders && id in userOrders[orders[id].user])
  }

  ghost predicate Unheaped(id: Id, entries: seq<Entry>) {
    forall e :: e in entries ==> e.id != id
  }

  /** A live top entry of a heap is the head of the queue it represents. */
  lemma LiveTopIsHead(side: Side, entries: seq<Entry>, orders: map<Id, Order>, queue: seq<Order>)
    requires IsHeap(side, entries) && Represents(side, entries, orders, queue) && Sorted(queue)
    requires forall id :: id in orders ==> orders[id].id == id
    requires entries != [] && entries[0].id in orders
    ensures queue != [] && queue[0] == orders[entries[0].id]
  {
    var top := orders[entries[0].id];
    assert entries[0] in entries;
    assert top in queue;
    assert queue[0] in queue;
    var k :| 0 <= k < |entries| && entries[k] == KeyOf(queue[0]);
    RootIsBest(side, entries, k);
    var j :| 0 <= j < |queue| && queue[j] == top;
    assert 0 < j ==> Precedes(queue[0], queue[j]);
  }

  lemma QueuedIsHeaped(side: Side, entries: seq<Entry>, orders: map<Id, Order>, queue: seq<Order>)
    requires Represents(side, entries, orders, queue) && queue != []
    ensures entries != []
  {
    assert queue[0] in queue;
  }

  lemma InsertRepresents(side: Side, entries: seq<Entry>, entries': seq<Entry>,
                         orders: map<Id, Order>, queue: seq<Order>, o: Order)
    requires Represents(side, entries, orders, queue)
    requires o.side == side && o.id !in orders && Unheaped(o.id, entries)
    requires Gains(entries, entries', KeyOf(o))
    ensures Represents(side, entries', orders[o.id := o], Insert(queue, o))
  {
    InsertContents(queue, o);
  }

  lemma OtherSideRepresents(side: Side, entries: seq<Entry>, orders: map<Id, Order>, queue: seq<Order>, o: Order)
    requires Represents(side, entries, orders, queue)
    requires o.side != side && o.id !in orders && Unheaped(o.id, entries)
    ensures Represents(side, entries, orders[o.id := o], queue)
  {
  }

  lemma PurgeRepresents(side: Side, entries: seq<Entry>, entries': seq<Entry>,
                        orders: map<Id, Order>, queue: seq<Order>, x: Entry)
    requires Represents(side, entries, orders, queue)
    requires Gains(entries', entries, x)
    requires x.id !in orders
    ensures Represents(side, entries', orders, queue)
  {
  }

  lemma RemoveRepresents(side: Side, entries: seq<Entry>, orders: map<Id, Order>, queue: seq<Order>, id: Id)
    requires Represents(side, entries, orders, queue) && PairwiseApart(queue)
    requires forall x :: x in orders ==> orders[x].id == x
    ensures Represents(side, entries, orders - {id}, Without(queue, id))
  {
    WithoutContents(queue, id);
    DropRepresents(side, entries, orders, queue, Without(queue, id), id);
  }

  lemma DropRepresents(side: Side, entries: seq<Entry>, orders: map<Id, Order>,
                       queue: seq<Order>, queue': seq<Order>, id: Id)
    requires Represents(side, entries, orders, queue)
    requires forall x :: x in orders ==> orders[x].id == x
    requires AbsentFrom(id, queue') && forall o :: o in queue' ==> o in queue
    requires forall o :: o in queue && o.id != id ==> o in queue'
    ensures Represents(side, entries, orders - {id}, queue')
  {
  }

  lemma ElsewhereIsAbsent(side: Side, entries: seq<Entry>, orders: map<Id, Order>, queue: seq<Order>, id: Id)
    requires Represents(side, entries, orders, queue)
    requires forall x :: x in orders ==> orders[x].id == x
    requires forall o :: o in queue ==> o.side == side
    requires id !in orders || orders[id].side != side
    ensures Without(queue, id) == queue
  {
    assert AbsentFrom(id, queue);
    assert Find(queue, id) == |queue|;
  }

  /** Writing through the pointer of the best order, whose key does not change. */
  lemma HeadRepresents(side: Side, entries: seq<Entry>, orders: map<Id, Order>, queue: seq<Order>, o: Order)
    requires Represents(side, entries, orders, queue) && queue != [] && PairwiseApart(queue)
    requires KeyOf(o) == KeyOf(queue[0]) && o.side == side && queue[0].side == side
    requires forall x :: x in orders ==> orders[x].id == x
    ensures Represents(side, entries, orders[o.id := o], [o] + queue[1..])
  {
    assert queue[0] in queue;
    assert forall x :: x in queue ==> x == queue[0] || x in queue[1..];
    forall x | x in queue[1..] ensures x.id != o.id && x in queue {
      var i :| 0 <= i < |queue[1..]| && queue[1..][i] == x;
      assert Apart(queue[0], queue[i + 1]);
    }
  }

  lemma OtherSideHead(side: Side, entries: seq<Entry>, orders: map<Id, Order>, queue: seq<Order>, o: Order)
    requires Represents(side, entries, orders, queue)
    requires o.side != side && o.id in orders && orders[o.id].side != side
    ensures Represents(side, entries, orders[o.id := o], queue)
  {
  }

  // ----- the in-memory structures against the book they stand for -----

  /** The contents of the heaps, maps and index, and every id the book was ever given. */
  datatype View = View(bids: seq<Entry>, asks: seq<Entry>, orders: map<Id, Order>,
                       userOrders: map<User, set<Id>>, seen: set<Id>)
  {
    function Heap(side: Side): seq<Entry> {
      if side == Buy then bids else asks
    }

    function WithHeap(side: Side, s: seq<Entry>): View {
      if side == Buy then this.(bids := s) else this.(asks := s)
    }
  }

  ghost predicate AllSeen(v: View) {
    && (forall id :: id in v.orders ==> v.orders[id].id == id && id in v.seen)
    && (forall e :: e in v.bids || e in v.asks ==> e.id in v.seen)
  }

  ghost predicate StopsUnheaped(v: View, stops: seq<Order>) {
    forall o :: o in stops ==> o.id in v.seen && Unheaped(o.id, v.bids) && Unheaped(o.id, v.asks)
  }

  ghost predicate StandsFor(v: View, b: Book) {
    && WellFormed(b)
    && Represents(Buy, v.bids, v.orders, b.bids)
    && Represents(Sell, v.asks, v.orders, b.asks)
    && Indexes(v.userOrders, v.orders)
    && AllSeen(v)
    && StopsUnheaped(v, b.stops)
  }

  lemma JoinsIsNotLive(v: View, b: Book, o: Order)
    ensures StandsFor(v, b) && Joins(b, o) ==> o.id !in v.orders && Indexes(v.userOrders, v.orders)
  {
  }

  /** The view after an order was pushed onto its heap and entered in both maps. */
  function Added(v: View, o: Order, heap: seq<Entry>, index: map<User, set<Id>>): View {
    var w := v.WithHeap(o.side, heap);
    View(w.bids, w.asks, v.orders[o.id := o], index, v.seen + {o.id})
  }

  lemma AddKeepsStops(v: View, stops: seq<Order>, o: Order, heap: seq<Entry>, index: map<User, set<Id>>)
    requires StopsUnheaped(v, stops) && AbsentFrom(o.id, stops)
    requires Gains(v.Heap(o.side), heap, KeyOf(o))
    ensures StopsUnheaped(Added(v, o, heap, index), stops)
  {
  }

  lemma AddKeepsSeen(v: View, o: Order, heap: seq<Entry>, index: map<User, set<Id>>)
    ensures AllSeen(v) && Gains(v.Heap(o.side), heap, KeyOf(o)) ==> AllSeen(Added(v, o, heap, index))
  {
  }

  lemma AddKeepsHeaps(v: View, b: Book, o: Order, heap: seq<Entry>, index: map<User, set<Id>>)
    requires Represents(Buy, v.bids, v.orders, b.bids) && Represents(Sell, v.asks, v.orders, b.asks)
    requires o.id !in v.orders && Unheaped(o.id, v.bids) && Unheaped(o.id, v.asks)
    requires Gains(v.Heap(o.side), heap, KeyOf(o))
    ensures var w, b' := Added(v, o, heap, index), b.WithQueue(o.side, Insert(b.Queue(o.side), o));
      Represents(Buy, w.bids, w.orders, b'.bids) && Represents(Sell, w.asks, w.orders, b'.asks)
  {
    var other := o.side.Opposite();
    InsertRepresents(o.side, v.Heap(o.side), heap, v.orders, b.Queue(o.side), o);
    OtherSideRepresents(other, v.Heap(other), v.orders, b.Queue(other), o);
  }

  lemma GainKeepsUnheaped(v: View, o: Order, heap: seq<Entry>)
    requires Gains(v.Heap(o.side), heap, KeyOf(o))
    ensures forall id :: id != o.id && Unheaped(id, v.Heap(o.side)) ==> Unheaped(id, heap)
  {
  }

  lemma LossKeepsUnheaped(entries: seq<Entry>, entries': seq<Entry>, x: Entry)
    ensures Gains(entries', entries, x) ==> (forall id :: Unheaped(id, entries) ==> Unheaped(id, entries'))
  {
  }

  /** An id the book was never given may join it. */
  lemma FreshJoins(v: View, b: Book, o: Order)
    requires StandsFor(v, b) && o.id !in v.seen && o.bookSeq == 0
    ensures Joins(b, o) && Absent(o.id, b) && Unheaped(o.id, v.bids) && Unheaped(o.id, v.asks)
  {
    assert forall x :: x in b.bids || x in b.asks || x in b.stops ==> x.id in v.seen;
  }

  lemma AddStandsFor(v: View, b: Book, order: Order, heap: seq<Entry>, index: map<User, set<Id>>)
    requires StandsFor(v, b) && Resting(order) && Joins(b, order)
    requires Unheaped(order.id, v.bids) && Unheaped(order.id, v.asks)
    requires Gains(v.Heap(order.side), heap, KeyOf(Sequenced(b, order)))
    requires Indexes(index, v.orders[order.id := Sequenced(b, order)])
    ensures StandsFor(Added(v, Sequenced(b, order), heap, index), Add(b, order))
  {
    var o := Sequenced(b, order);
    JoinsIsNotLive(v, b, order);
    AddKeeps(b, order);
    AddKeepsHeaps(v, b, o, heap, index);
    AddKeepsSeen(v, o, heap, index);
    AddKeepsStops(v, b.stops, o, heap, index);
  }

  /** The view after an order left the live map; its heap entry, if any, stays behind as stale. */
  function Dropped(v: View, id: Id, index: map<User, set<Id>>): View {
    v.(orders := v.orders - {id}, userOrders := index)
  }

  lemma LiveIsIndexed(v: View, b: Book)
    ensures StandsFor(v, b) ==> Indexes(v.userOrders, v.orders)
  {
  }

  lemma LiveIds(v: View, b: Book)
    ensures StandsFor(v, b) ==> (forall id :: id in v.orders ==> v.orders[id].id == id)
  {
  }

  lemma LiveIsQueued(v: View, b: Book, id: Id)
    ensures StandsFor(v, b) && id in v.orders ==> v.orders[id].id == id && v.orders[id] in b.Queue(v.orders[id].side)
  {
  }

  lemma RemoveKeepsHeaps(v: View, b: Book, id: Id)
    requires StandsFor(v, b) && id in v.orders
    ensures var b' := Remove(b, v.orders[id]);
      Represents(Buy, v.bids, v.orders - {id}, b'.bids) && Represents(Sell, v.asks, v.orders - {id}, b'.asks)
  {
    hide Without, PairwiseApart;
    var side := v.orders[id].side;
    RemoveRepresents(Buy, v.bids, v.orders, b.bids, id);
    RemoveRepresents(Sell, v.asks, v.orders, b.asks, id);
    ElsewhereIsAbsent(side.Opposite(), v.Heap(side.Opposite()), v.orders, b.Queue(side.Opposite()), id);
  }

  lemma RemoveStandsFor(v: View, b: Book, id: Id, index: map<User, set<Id>>)
    requires StandsFor(v, b) && id in v.orders && Indexes(index, v.orders - {id})
    ensures StandsFor(Dropped(v, id, index), Remove(b, v.orders[id]))
  {
    hide Represents, WellFormed, Indexes, Without;
    RemoveKeepsHeaps(v, b, id);
    RemoveSucceeds(b, v.orders[id]);
  }

  lemma PurgeStandsFor(v: View, b: Book, side: Side, heap: seq<Entry>, x: Entry)
    requires StandsFor(v, b) && Gains(heap, v.Heap(side), x) && x.id !in v.orders
    ensures StandsFor(v.WithHeap(side, heap), b)
  {
    PurgeRepresents(side, v.Heap(side), heap, v.orders, b.Queue(side), x);
  }

  lemma BestIsHead(v: View, b: Book, side: Side)
    requires StandsFor(v, b) && IsHeap(side, v.Heap(side))
    ensures v.Heap(side) == [] ==> b.Queue(side) == []
    ensures v.Heap(side) != [] && v.Heap(side)[0].id in v.orders ==>
      b.Queue(side) != [] && b.Queue(side)[0] == v.orders[v.Heap(side)[0].id]
  {
    if v.Heap(side) != [] && v.Heap(side)[0].id in v.orders {
      LiveTopIsHead(side, v.Heap(side), v.orders, b.Queue(side));
    }
    if b.Queue(side) != [] { QueuedIsHeaped(side, v.Heap(side), v.orders, b.Queue(side)); }
  }

  lemma HeadIsLive(v: View, b: Book, side: Side)
    requires StandsFor(v, b) && b.Queue(side) != []
    ensures var head := b.Queue(side)[0];
      && head.side == side && Resting(head) && head.id in v.orders && v.orders[head.id] == head
      && Remove(b, head) == b.WithQueue(side, b.Queue(side)[1..]).(seqNo := b.seqNo + 1)
  {
    assert b.Queue(side)[0] in b.Queue(side);
    assert Find(b.Queue(side), b.Queue(side)[0].id) == 0;
  }

  lemma WriteKeepsHeaps(v: View, b: Book, side: Side, o: Order)
    requires StandsFor(v, b) && b.Queue(side) != [] && Reduced(b.Queue(side)[0], o)
    ensures o.id in v.orders
    ensures var b', orders := b.WithQueue(side, [o] + b.Queue(side)[1..]), v.orders[o.id := o];
      Represents(Buy, v.bids, orders, b'.bids) && Represents(Sell, v.asks, orders, b'.asks)
  {
    assert b.Queue(side)[0] in b.Queue(side);
    HeadRepresents(side, v.Heap(side), v.orders, b.Queue(side), o);
    OtherSideHead(side.Opposite(), v.Heap(side.Opposite()), v.orders, b.Queue(side.Opposite()), o);
  }

  lemma WriteKeepsBook(b: Book, side: Side, o: Order)
    requires WellFormed(b) && b.Queue(side) != [] && Reduced(b.Queue(side)[0], o)
    ensures WellFormed(b.WithQueue(side, [o] + b.Queue(side)[1..]))
  {
    var q := b.Queue(side);
    var q' := [o] + q[1..];
    assert q'[1..] == q[1..];
    ShrunkKeepsQueue(side, q, q', b.seqNo, b.seqNo);
    ShrinkKeepsSeparate(b, side, q');
  }

  lemma WriteKeepsIndex(index: map<User, set<Id>>, orders: map<Id, Order>, o: Order)
    requires Indexes(index, orders) && o.id in orders && orders[o.id].user == o.user
    ensures Indexes(index, orders[o.id := o])
  {
  }

  /** A write through the pointer of the best order of a side. */
  lemma WriteStandsFor(v: View, b: Book, side: Side, o: Order)
    requires StandsFor(v, b) && b.Queue(side) != [] && Reduced(b.Queue(side)[0], o)
    ensures o.id in v.orders
    ensures StandsFor(v.(orders := v.orders[o.id := o]), b.WithQueue(side, [o] + b.Queue(side)[1..]))
  {
    hide WellFormed, Indexes;
    WriteKeepsHeaps(v, b, side, o);
    WriteKeepsBook(b, side, o);
    assert b.Queue(side)[0] in b.Queue(side);
    WriteKeepsIndex(v.userOrders, v.orders, o);
  }

  lemma ParkStandsFor(v: View, b: Book, order: Order)
    requires StandsFor(v, b) && Parked(order) && Joins(b, order)
    requires Unheaped(order.id, v.bids) && Unheaped(order.id, v.asks)
    ensures StandsFor(v.(seen := v.seen + {order.id}), Park(b, order))
  {
    hide WellFormed, Represents, Indexes, Parked;
    ParkSucceeds(b, order);
  }

  // ----- restoring -----

  function IdsOf(q: seq<Order>): set<Id> {
    set o | o in q :: o.id
  }

  /** A snapshot as the book writes it. */
  ghost predicate Restorable(s: Snapshot) {
    && (forall o :: o in s.orders ==> Resting(o) && o.bookSeq == 0)
    && OneEach(s.orders) && |s.orders| <= s.seqNo
    && (forall o :: o in s.stops ==> Parked(o) && o.bookSeq == 0 && AbsentFrom(o.id, s.orders))
    && OneEach(s.stops)
  }

  ghost predicate RefillReady(sorted: seq<Order>) {
    OneEach(sorted) && forall o :: o in sorted ==> Resting(o) && o.bookSeq == 0
  }

  lemma {:induction false} RefillSeen(sorted: seq<Order>, id: Id)
    requires AbsentFrom(id, sorted)
    ensures Absent(id, Refill(sorted))
  {
    if sorted != [] {
      var n := |sorted| - 1;
      assert sorted[n] in sorted;
      RefillSeen(sorted[..n], id);
      var b, o := Refill(sorted[..n]), sorted[n].(bookSeq := n + 1);
      InsertContents(b.Queue(o.side), o);
    }
  }

  /** Refilling is adding with a counter that starts at zero. */
  lemma RefillIsAdd(sorted: seq<Order>, i: nat)
    requires i < |sorted| && RefillReady(sorted)
    ensures Refill(sorted[..i + 1]).(seqNo := i + 1) == Add(Refill(sorted[..i]).(seqNo := i), sorted[i])
    ensures Refill(sorted[..i]).stops == []
  {
    assert sorted[..i + 1][..i] == sorted[..i];
    RefillHasNoStops(sorted[..i]);
  }

  lemma {:induction false} RefillHasNoStops(sorted: seq<Order>)
    ensures Refill(sorted).stops == [] && Refill(sorted).last == 0
  {
    if sorted != [] { RefillHasNoStops(sorted[..|sorted| - 1]); }
  }

  lemma NextIsNew(sorted: seq<Order>, i: nat)
    requires i < |sorted| && OneEach(sorted)
    ensures sorted[i].id !in IdsOf(sorted[..i])
    ensures IdsOf(sorted[..i + 1]) == IdsOf(sorted[..i]) + {sorted[i].id}
  {
    assert sorted[..i + 1] == sorted[..i] + [sorted[i]];
  }

  lemma RefillJoins(sorted: seq<Order>, i: nat, v: View)
    requires i < |sorted| && RefillReady(sorted) && StandsFor(v, Refill(sorted[..i]).(seqNo := i))
    requires v.seen == IdsOf(sorted[..i])
    ensures var b, o := Refill(sorted[..i]).(seqNo := i), sorted[i];
      Resting(o) && Joins(b, o) && Unheaped(o.id, v.bids) && Unheaped(o.id, v.asks)
    ensures v.seen + {sorted[i].id} == IdsOf(sorted[..i + 1])
  {
    hide StandsFor, Refill, IdsOf, Joins, Unheaped;
    assert sorted[i] in sorted;
    NextIsNew(sorted, i);
    FreshJoins(v, Refill(sorted[..i]).(seqNo := i), sorted[i]);
  }

  lemma SortedIsReady(s: Snapshot)
    requires Restorable(s)
    ensures var sorted := SortByAge(s.orders);
      RefillReady(sorted) && |sorted| == |s.orders| && (forall o :: o in sorted <==> o in s.orders)
  {
    SortByAgeSorts(s.orders);
    SortByAgeLength(s.orders);
  }

  lemma StartRestore(sorted: seq<Order>, s: Snapshot)
    requires Restorable(s) && sorted == SortByAge(s.orders)
    ensures RefillReady(sorted) && Entered(View([], [], map[], map[], {}), [], [], sorted, 0)
  {
    SortedIsReady(s);
    assert sorted[..0] == [];
  }

  lemma ListsLive(v: View, b: Book, live: seq<Order>)
    requires StandsFor(v, b) && OneEach(live)
    requires forall o :: o in live <==> o.id in v.orders && o == Copied(v.orders[o.id])
    ensures Lists(live, b)
  {
    forall o | o in live ensures o in CopyAll(b.bids) || o in CopyAll(b.asks) {
      var x := v.orders[o.id];
      CopiedIn(b.Queue(x.side), x);
    }
    forall k | 0 <= k < |b.bids| ensures CopyAll(b.bids)[k] in live {
      assert b.bids[k] in b.bids;
    }
    forall k | 0 <= k < |b.asks| ensures CopyAll(b.asks)[k] in live {
      assert b.asks[k] in b.asks;
    }
  }

  /** The first i orders by age were entered. */
  ghost predicate Entered(v: View, bids: seq<Order>, asks: seq<Order>, sorted: seq<Order>, i: nat)
    requires i <= |sorted|
  {
    var b := Refill(sorted[..i]);
    StandsFor(v, b.(seqNo := i)) && v.seen == IdsOf(sorted[..i]) && bids == b.bids && asks == b.asks
  }

  lemma EnterNext(v: View, bids: seq<Order>, asks: seq<Order>, sorted: seq<Order>, i: nat)
    requires i < |sorted| && RefillReady(sorted) && Entered(v, bids, asks, sorted, i)
    ensures Indexes(v.userOrders, v.orders) && sorted[i].id !in v.orders
  {
    hide StandsFor, Refill, Joins, Unheaped, Indexes;
    RefillJoins(sorted, i, v);
    JoinsIsNotLive(v, Refill(sorted[..i]).(seqNo := i), sorted[i]);
  }

  lemma EnteredNext(v: View, bids: seq<Order>, asks: seq<Order>, sorted: seq<Order>, i: nat,
                    heap: seq<Entry>, index: map<User, set<Id>>, bids': seq<Order>, asks': seq<Order>)
    requires i < |sorted| && RefillReady(sorted) && Entered(v, bids, asks, sorted, i)
    requires var o := sorted[i].(bookSeq := i + 1);
      && Gains(v.Heap(o.side), heap, KeyOf(o)) && Indexes(index, v.orders[o.id := o])
      && (bids', asks') == (if o.side == Buy then (Insert(bids, o), asks) else (bids, Insert(asks, o)))
    ensures Entered(Added(v, sorted[i].(bookSeq := i + 1), heap, index), bids', asks', sorted, i + 1)
  {
    hide StandsFor, Refill, Joins, Unheaped, Indexes, Gains, Insert, Resting, IdsOf;
    var b := Refill(sorted[..i]).(seqNo := i);
    assert sorted[i] in sorted;
    RefillJoins(sorted, i, v);
    RefillIsAdd(sorted, i);
    AddStandsFor(v, b, sorted[i], heap, index);
  }

  lemma AllEntered(v: View, bids: seq<Order>, asks: seq<Order>, sorted: seq<Order>, s: Snapshot)
    requires Restorable(s) && sorted == SortByAge(s.orders) && Entered(v, bids, asks, sorted, |sorted|)
    ensures RestoreBook(s) == Book(bids, asks, s.stops, if s.last.Some? then s.last.value else 0, s.seqNo)
    ensures StandsFor(v.(seen := v.seen + IdsOf(s.stops)), RestoreBook(s))
    ensures v.seen == IdsOf(s.orders)
  {
    hide StandsFor, Refill, SortByAge;
    assert sorted[..|sorted|] == sorted;
    SortedIsReady(s);
    RefillHasNoStops(sorted);
    FinishRestore(v, Refill(sorted).(seqNo := |sorted|), s, if s.last.Some? then s.last.value else 0);
  }

  /** The counter moves up to its old value and the stops come back. */
  lemma FinishRestore(v: View, b: Book, s: Snapshot, last: int)
    requires StandsFor(v, b) && b.stops == [] && b.seqNo <= s.seqNo && Restorable(s)
    requires v.seen == IdsOf(s.orders)
    ensures StandsFor(v.(seen := v.seen + IdsOf(s.stops)), b.(stops := s.stops, seqNo := s.seqNo, last := last))
  {
    var c := b.(stops := s.stops, seqNo := s.seqNo, last := last);
    assert GoodQueue(Buy, b.bids, s.seqNo) && GoodQueue(Sell, b.asks, s.seqNo);
    forall o | o in s.stops ensures ApartFrom(b.bids, o) && ApartFrom(b.asks, o) && Unheaped(o.id, v.bids) && Unheaped(o.id, v.asks) {
      assert o.id !in v.seen;
      FreshJoins(v, b, o);
    }
    assert PairwiseApart(s.stops);
  }

  class OrderBook {
    var bids: OrderHeap
    var asks: OrderHeap
    var orders: map<Id, Order>
    var userOrders: map<User, set<Id>>
    var seqNo: nat
    var last: int
    var stops: seq<Order>

    ghost var bidQueue: seq<Order>
    ghost var askQueue: seq<Order>
    ghost var seen: set<Id>

    /** The book as a value. */
    ghost function Abs(): Book
      reads this
    {
      Book(bidQueue, askQueue, stops, last, seqNo)
    }

    ghost function Inside(): View
      reads this, bids, asks
    {
      View(bids.entries, asks.entries, orders, userOrders, seen)
    }

    ghost predicate Valid()
      reads this, bids, asks
    {
      && bids != asks && bids.side == Buy && asks.side == Sell
      && bids.Valid() && asks.Valid()
      && StandsFor(Inside(), Abs())
    }

    /** No heap holds an entry under this id, live or stale. */
    ghost predicate Free(id: Id)
      reads this, bids, asks
    {
      Unheaped(id, bids.entries) && Unheaped(id, asks.entries)
    }

    constructor ()
      ensures Valid() && Abs() == EMPTY && seen == {}
      ensures fresh(bids) && fresh(asks)
    {
      bids := new OrderHeap(Buy);
      asks := new OrderHeap(Sell);
      orders, userOrders, seqNo, last, stops := map[], map[], 0, 0, [];
      bidQueue, askQueue, seen := [], [], {};
    }

    method IndexAdd(o: Order, ghost live: map<Id, Order>)
      requires Indexes(userOrders, live) && o.id !in live
      modifies this`userOrders
      ensures Indexes(userOrders, live[o.id := o])
    {
      var ids := if o.user in userOrders then userOrders[o.user] else {};
      userOrders := userOrders[o.user := ids + {o.id}];
    }

    method IndexRemove(o: Order, ghost live: map<Id, Order>)
      requires Indexes(userOrders, live) && o.id in live && live[o.id] == o
      modifies this`userOrders
      ensures Indexes(userOrders, live - {o.id})
    {
      if o.user in userOrders {
        var ids := userOrders[o.user] - {o.id};
        if ids == {} {
          userOrders := userOrders - {o.user};
        } else {
          userOrders := userOrders[o.user := ids];
        }
      }
    }

    /** Inserts a resting order; the caller vouches that no heap still holds an entry under its id. */
    method AddLocked(order: Order) returns (o: Order)
      requires Valid() && Resting(order) && Joins(Abs(), order)
      requires Free(order.id)
      modifies this`orders, this`userOrders, this`seqNo, this`bidQueue, this`askQueue, this`seen, bids, asks
      ensures Valid()
      ensures o == Sequenced(old(Abs()), order)
      ensures Abs() == Add(old(Abs()), order)
      ensures seen == old(seen) + {order.id}
      ensures forall id :: id != order.id && old(Free(id)) ==> Free(id)
    {
      hide StandsFor, Joins, Indexes, Insert, IsHeap, Resting, Unheaped, Gains;
      ghost var v, b := Inside(), Abs();
      JoinsIsNotLive(v, b, order);
      LiveIsIndexed(v, b);
      o := if order.bookSeq == 0 then order.(bookSeq := seqNo + 1) else order;
      seqNo := seqNo + 1;
      IndexAdd(o, orders);
      orders := orders[o.id := o];
      Enqueue(o);
      AddStandsFor(v, b, order, if o.side == Buy then bids.entries else asks.entries, userOrders);
      GainKeepsUnheaped(v, o, if o.side == Buy then bids.entries else asks.entries);
      assert Inside() == Added(v, o, if o.side == Buy then bids.entries else asks.entries, userOrders);
    }

    /** Pushes an order onto the heap of its side. */
    method Enqueue(o: Order)
      requires bids != asks && bids.side == Buy && asks.side == Sell && bids.Valid() && asks.Valid()
      modifies this`bidQueue, this`askQueue, this`seen, bids, asks
      ensures bids.Valid() && asks.Valid() && seen == old(seen) + {o.id}
      ensures o.side == Buy ==>
        && Gains(old(bids.entries), bids.entries, KeyOf(o)) && asks.entries == old(asks.entries)
        && bidQueue == Insert(old(bidQueue), o) && askQueue == old(askQueue)
      ensures o.side == Sell ==>
        && Gains(old(asks.entries), asks.entries, KeyOf(o)) && bids.entries == old(bids.entries)
        && askQueue == Insert(old(askQueue), o) && bidQueue == old(bidQueue)
    {
      if o.side == Buy {
        bids.Push(KeyOf(o));
        bidQueue := Insert(bidQueue, o);
      } else {
        asks.Push(KeyOf(o));
        askQueue := Insert(askQueue, o);
      }
      seen := seen + {o.id};
    }

    /** Deletes an order from the map, the index and the queue; the heaps are not touched. */
    method Forget(id: Id)
      requires Indexes(userOrders, orders) && id in orders && orders[id].id == id
      modifies this`orders, this`userOrders, this`seqNo, this`bidQueue, this`askQueue
      ensures orders == old(orders) - {id} && Indexes(userOrders, orders)
      ensures Abs() == Remove(old(Abs()), old(orders)[id])
    {
      hide Indexes, Without;
      ghost var live := orders;
      var o := orders[id];
      orders := orders - {id};
      IndexRemove(o, live);
      seqNo := seqNo + 1;
      if o.side == Buy { bidQueue := Without(bidQueue, id); } else { askQueue := Without(askQueue, id); }
    }

    /** Takes an order out of the live map; the heap entry is purged lazily. */
    method RemoveLocked(id: Id) returns (r: Option<Order>)
      requires Valid()
      modifies this`orders, this`userOrders, this`seqNo, this`bidQueue, this`askQueue
      ensures Valid()
      ensures id !in old(orders) ==> r == None && Abs() == old(Abs()) && orders == old(orders)
      ensures id in old(orders) ==>
        && r == Some(old(orders)[id].(status := Cancelled))
        && Abs() == Remove(old(Abs()), old(orders)[id])
        && orders == old(orders) - {id}
    {
      hide StandsFor, Indexes, Without, IsHeap, Remove;
      if id !in orders {
        return None;
      }
      ghost var v, b := Inside(), Abs();
      LiveIsIndexed(v, b);
      LiveIsQueued(v, b, id);
      r := Some(orders[id].(status := Cancelled));
      Forget(id);
      RemoveStandsFor(v, b, id, userOrders);
      assert Inside() == Dropped(v, id, userOrders);
    }

    /** The best live order of a side; stale entries met on the way are popped for good. */
    method BestLocked(side: Side) returns (r: Option<Order>)
      requires Valid()
      modifies bids, asks
      ensures Valid()
      ensures r == (if Abs().Queue(side) == [] then None else Some(Abs().Queue(side)[0]))
      ensures r.Some? ==> r.value.id in orders && orders[r.value.id] == r.value
      ensures forall id :: old(Free(id)) ==> Free(id)
    {
      hide StandsFor, IsHeap, Unheaped;
      var heap := if side == Buy then bids else asks;
      while |heap.entries| > 0
        invariant Valid() && forall id :: old(Free(id)) ==> Free(id)
        decreases |heap.entries|
      {
        BestIsHead(Inside(), Abs(), side);
        var top := heap.entries[0];
        if top.id in orders {
          LiveIsQueued(Inside(), Abs(), top.id);
          return Some(orders[top.id]);
        }
        ghost var v := Inside();
        var x := heap.Pop();
        PurgeStandsFor(v, Abs(), side, heap.entries, x);
        LossKeepsUnheaped(v.Heap(side), heap.entries, x);
        assert Inside() == v.WithHeap(side, heap.entries);
      }
      BestIsHead(Inside(), Abs(), side);
      r := None;
    }

    /** Removes and returns the best live order of a side. */
    method PopBest(side: Side) returns (r: Option<Order>)
      requires Valid()
      modifies this`orders, this`userOrders, this`seqNo, this`bidQueue, this`askQueue, bids, asks
      ensures Valid()
      ensures r == (if old(Abs()).Queue(side) == [] then None else Some(old(Abs()).Queue(side)[0]))
      ensures Abs() == (if r == None then old(Abs()) else Remove(old(Abs()), r.value))
    {
      hide StandsFor, IsHeap, Indexes, Gains, Remove;
      var heap := if side == Buy then bids else asks;
      while |heap.entries| > 0
        invariant Valid() && Abs() == old(Abs())
        decreases |heap.entries|
      {
        BestIsHead(Inside(), Abs(), side);
        ghost var v, b := Inside(), Abs();
        var x := heap.Pop();
        assert Inside() == v.WithHeap(side, heap.entries);
        if x.id in orders {
          LiveIsIndexed(v, b);
          LiveIsQueued(v, b, x.id);
          r := Some(orders[x.id]);
          Forget(x.id);
          RemoveStandsFor(v, b, x.id, userOrders);
          PurgeStandsFor(Dropped(v, x.id, userOrders), Remove(b, v.orders[x.id]), side, heap.entries, x);
          assert Inside() == Dropped(v, x.id, userOrders).WithHeap(side, heap.entries);
          return;
        }
        PurgeStandsFor(v, b, side, heap.entries, x);
      }
      BestIsHead(Inside(), Abs(), side);
      r := None;
    }

    /** Writes new quantities through the pointer of the best order of a side. */
    method WriteBest(side: Side, o: Order)
      requires Valid() && Abs().Queue(side) != [] && Reduced(Abs().Queue(side)[0], o)
      modifies this`orders, this`bidQueue, this`askQueue
      ensures Valid()
      ensures Abs() == old(Abs()).WithQueue(side, [o] + old(Abs()).Queue(side)[1..])
    {
      hide StandsFor;
      WriteStandsFor(Inside(), Abs(), side, o);
      orders := orders[o.id := o];
      if side == Buy { bidQueue := [o] + bidQueue[1..]; } else { askQueue := [o] + askQueue[1..]; }
    }

    method SetLastTradePrice(p: int)
      requires Valid()
      modifies this`last
      ensures Valid() && Abs() == old(Abs()).(last := p)
    {
      last := p;
    }

    /** Drops the parked stops that are about to fire. */
    method KeepStops(pending: seq<Order>)
      requires Valid() && StandsFor(Inside(), Abs().(stops := pending))
      modifies this`stops
      ensures Valid() && Abs() == old(Abs()).(stops := pending)
    {
      hide StandsFor;
      stops := pending;
    }

    /** Parks a stop order, giving it its place in time now. */
    method AddStopLocked(order: Order) returns (o: Order)
      requires Valid() && Parked(order) && Joins(Abs(), order)
      requires Free(order.id)
      modifies this`stops, this`seqNo, this`seen
      ensures Valid()
      ensures o == Sequenced(old(Abs()), order)
      ensures Abs() == Park(old(Abs()), order)
      ensures seen == old(seen) + {order.id}
    {
      hide StandsFor, IsHeap, Unheaped, WellFormed, Joins, Parked;
      ghost var v, b := Inside(), Abs();
      ParkStandsFor(v, b, order);
      o := if order.bookSeq == 0 then order.(bookSeq := seqNo + 1) else order;
      stops := stops + [o];
      seqNo := seqNo + 1;
      seen := seen + {o.id};
      assert Inside() == v.(seen := v.seen + {order.id});
    }

    /** The live orders of a user, read from the index. */
    method GetOrdersByUser(user: User) returns (out: seq<Order>)
      requires Valid()
      ensures forall o :: o in out <==> o.id in orders && orders[o.id] == o && o.user == user
      ensures |out| == |set id | id in orders && orders[id].user == user|
    {
      var ids := if user in userOrders then userOrders[user] else {};
      assert ids == set id | id in orders && orders[id].user == user;
      ghost var all := ids;
      out := [];
      while ids != {}
        invariant ids <= all && |out| + |ids| == |all|
        invariant forall o :: o in out <==> o.id in all && o.id !in ids && orders[o.id] == o
        decreases |ids|
      {
        var id :| id in ids;
        out := out + [orders[id]];
        ids := ids - {id};
      }
    }

    /** Copies of the live orders, in whatever order the map yields them, and of the parked stops. */
    method TakeSnapshot(lastWal: nat) returns (s: Snapshot)
      requires Valid()
      ensures IsSnapshotOf(s, Abs(), lastWal)
    {
      LiveIds(Inside(), Abs());
      hide StandsFor;
      var live: seq<Order>, ids := [], orders.Keys;
      while ids != {}
        invariant ids <= orders.Keys && OneEach(live)
        invariant forall o :: o in live <==> o.id in orders && o.id !in ids && o == Copied(orders[o.id])
        decreases |ids|
      {
        var id :| id in ids;
        live := live + [Copied(orders[id])];
        ids := ids - {id};
      }
      ListsLive(Inside(), Abs(), live);
      s := Snapshot(live, CopyAll(stops), seqNo, if last > 0 then Some(last) else None, lastWal);
    }

    /** Enters one restored order under the next fresh sequence number. */
    method Reenter(sorted: seq<Order>, i: nat)
      requires i < |sorted| && RefillReady(sorted) && Entered(Inside(), bidQueue, askQueue, sorted, i)
      requires bids != asks && bids.side == Buy && asks.side == Sell && bids.Valid() && asks.Valid()
      modifies this`orders, this`userOrders, this`bidQueue, this`askQueue, this`seen, bids, asks
      ensures bids.Valid() && asks.Valid() && Entered(Inside(), bidQueue, askQueue, sorted, i + 1)
    {
      hide StandsFor, Entered, IsHeap, Gains, Indexes, Insert, RefillReady;
      ghost var v, buys, sells := Inside(), bidQueue, askQueue;
      EnterNext(v, buys, sells, sorted, i);
      var o := sorted[i].(bookSeq := i + 1);
      IndexAdd(o, orders);
      orders := orders[o.id := o];
      Enqueue(o);
      ghost var heap := if o.side == Buy then bids.entries else asks.entries;
      EnteredNext(v, buys, sells, sorted, i, heap, userOrders, bidQueue, askQueue);
      assert Inside() == Added(v, o, heap, userOrders);
    }

    /** Re-enters the orders one by one, by age. */
    method ReenterAll(sorted: seq<Order>)
      requires RefillReady(sorted) && Entered(Inside(), bidQueue, askQueue, sorted, 0)
      requires bids != asks && bids.side == Buy && asks.side == Sell && bids.Valid() && asks.Valid()
      modifies this`orders, this`userOrders, this`bidQueue, this`askQueue, this`seen, bids, asks
      ensures bids.Valid() && asks.Valid() && Entered(Inside(), bidQueue, askQueue, sorted, |sorted|)
    {
      hide *;
      for i := 0 to |sorted|
        invariant bids.Valid() && asks.Valid() && Entered(Inside(), bidQueue, askQueue, sorted, i)
      {
        Reenter(sorted, i);
      }
    }

    /** Empty maps and heaps; counter, stops and last price as the snapshot has them. */
    method Reset(s: Snapshot)
      modifies this
      ensures fresh(bids) && fresh(asks) && bids != asks && bids.side == Buy && asks.side == Sell
      ensures bids.Valid() && asks.Valid() && Inside() == View([], [], map[], map[], {})
      ensures Abs() == Book([], [], s.stops, if s.last.Some? then s.last.value else 0, s.seqNo)
    {
      hide IsHeap;
      bids := new OrderHeap(Buy);
      asks := new OrderHeap(Sell);
      orders, userOrders, seqNo, stops := map[], map[], s.seqNo, s.stops;
      last := if s.last.Some? then s.last.value else 0;
      bidQueue, askQueue, seen := [], [], {};
    }

    /** Rebuilds maps, heaps and counter from a snapshot; priorities are renumbered by age. */
    method Restore(s: Snapshot)
      requires Restorable(s)
      modifies this
      ensures Valid() && Abs() == RestoreBook(s)
      ensures fresh(bids) && fresh(asks)
      ensures seen == IdsOf(s.orders) + IdsOf(s.stops)
    {
      hide StandsFor, Entered, SortByAge, IsHeap, RestoreBook, Restorable, RefillReady, IdsOf, Indexes, Gains;
      Reset(s);
      var sorted := SortByAge(s.orders);
      StartRestore(sorted, s);
      ReenterAll(sorted);
      AllEntered(Inside(), bidQueue, askQueue, sorted, s);
      seen := seen + IdsOf(s.stops);
    }
  }
}
