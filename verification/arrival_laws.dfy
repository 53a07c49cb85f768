/**
 * When ages agree with priorities: if orders are created in the order in which they reach the engine, every book the
 * engine can come to satisfies what a faithful restore needs, and recovery holds without further conditions on the book.
 */
module ArrivalLaws {
  import opened MatchingTypes
  import opened BookSpec
  import opened MatchingSpec
  import opened MatchingLaws
  import opened WriteAheadLog
  import opened RecoverySpec
  import opened RestoreLaws
  import opened EquivalenceLaws
  import opened RecoveryLaws

  /** At each price, later places belong to younger orders; none is younger than t. */
  ghost predicate Aged(q: seq<Order>, t: int) {
    && (forall x :: x in q ==> x.createdAt <= t)
    && (forall x, y :: x in q && y in q && x.bookSeq < y.bookSeq && x.price.Units() == y.price.Units() ==>
          x.createdAt < y.createdAt)
  }

  ghost predicate AgedBook(b: Book, t: int) {
    Aged(b.bids, t) && Aged(b.asks, t)
  }

  lemma AgedAgrees(side: Side, q: seq<Order>, n: nat, t: int)
    requires GoodQueue(side, q, n) && Aged(q, t)
    ensures AgesAgree(q)
  {
    forall i, j | 0 <= i < j < |q| && q[i].price.Units() == q[j].price.Units()
      ensures q[i].createdAt < q[j].createdAt
    {
      assert Precedes(q[i], q[j]) && q[i] in q && q[j] in q;
    }
  }

  lemma ShrunkIsAged(q: seq<Order>, rest: seq<Order>, t: int)
    requires Aged(q, t) && Shrunk(q, rest)
    ensures Aged(rest, t)
  {
    var k := |q| - |rest|;
    forall r | r in rest
      ensures exists o :: o in q && o.bookSeq == r.bookSeq && o.createdAt == r.createdAt && o.price == r.price
    {
      var i :| 0 <= i < |rest| && rest[i] == r;
      if i > 0 {
        assert rest[i] == rest[1..][i - 1] == q[k + 1..][i - 1];
      }
      assert q[k + i] in q && q[k + i].bookSeq == r.bookSeq && q[k + i].createdAt == r.createdAt && q[k + i].price == r.price;
    }
  }

  lemma InsertIsAged(q: seq<Order>, o: Order, n: nat, t: int)
    requires Aged(q, t) && t < o.createdAt && n < o.bookSeq && forall x :: x in q ==> x.bookSeq <= n
    ensures Aged(Insert(q, o), o.createdAt)
  {
    hide Insert;
    InsertContents(q, o);
  }

  lemma {:induction false} WalkKeepsAge(taker: Order, q: seq<Order>, engine: Stp)
    ensures Walk(taker, q, engine).taker.createdAt == taker.createdAt
    decreases |q|
  {
    if q != [] && taker.remaining > 0 && Crosses(taker, q[0].price.Units()) {
      if SelfTrade(taker, q[0], engine) {
        if Mode(taker, engine) == CancelMaker { WalkKeepsAge(taker, q[1..], engine); }
      } else if FillQty(taker, q[0]) == q[0].remaining {
        WalkKeepsAge(TakerAfter(taker, FillQty(taker, q[0])), q[1..], engine);
      }
    }
  }

  lemma SweepIsAged(b: Book, o: Order, engine: Stp, t: int)
    requires WellFormed(b) && AgedBook(b, t)
    ensures var s := Sweep(b, o, engine);
      AgedBook(s.book, t) && s.order.createdAt == o.createdAt
  {
    hide Walk;
    var q := b.Queue(o.side.Opposite());
    WalkRest(o, q, engine);
    ShrunkIsAged(q, Walk(o, q, engine).rest, t);
    WalkKeepsAge(o, q, engine);
  }

  lemma AddIsAged(b: Book, o: Order, t: int)
    requires AgedBook(b, t) && t < o.createdAt && o.bookSeq == 0
    requires forall x :: x in b.bids || x in b.asks ==> x.bookSeq <= b.seqNo
    ensures AgedBook(Add(b, o), o.createdAt)
  {
    InsertIsAged(b.Queue(o.side), Sequenced(b, o), b.seqNo, t);
  }

  lemma LimitIsAged(b: Book, o: Order, engine: Stp, t: int)
    requires WellFormed(b) && AgedBook(b, t) && t < o.createdAt && Submittable(o) && Joins(b, o)
    ensures AgedBook(MatchLimit(b, o, engine).book, o.createdAt)
  {
    hide Walk;
    var s := Sweep(b, o, engine);
    SweepIsAged(b, o, engine, t);
    if Rests(s.order) {
      var resting := s.order.(status := if s.order.status == PartiallyFilled then PartiallyFilled else New);
      WalkKeepsPlace(o, b.Queue(o.side.Opposite()), engine);
      SweptIsBounded(b, o, engine);
      AddIsAged(s.book, resting, t);
    }
  }

  lemma SweptIsBounded(b: Book, o: Order, engine: Stp)
    requires WellFormed(b)
    ensures var c := Sweep(b, o, engine).book;
      forall x :: x in c.bids || x in c.asks ==> x.bookSeq <= c.seqNo
  {
    hide Walk;
    RestBounded(o, b.Queue(o.side.Opposite()), engine, b.seqNo);
  }

  lemma StepIsAged(b: Book, input: Input, engine: Stp, t: int)
    requires WellFormed(b) && AgedBook(b, t) && PlainInput(input) && !input.Trigger?
    requires input.Submit? ==> Acceptable(b, input.order) && t < input.order.createdAt
    ensures AgedBook(Step(b, input, engine).0, if input.Submit? then input.order.createdAt else t)
  {
    hide Process, Cancel, AgedBook;
    match input
    case Submit(o) => SubmitIsAged(b, o, engine, t);
    case Withdraw(id, user) => CancelIsAged(b, id, user, t);
  }

  lemma SubmitIsAged(b: Book, o: Order, engine: Stp, t: int)
    requires WellFormed(b) && AgedBook(b, t) && Plain(o) && Acceptable(b, o) && t < o.createdAt
    ensures AgedBook(Process(b, o, engine).book, o.createdAt)
  {
    hide Sweep, MatchLimit, AgedBook, Add;
    AgedLater(b, t, o.createdAt);
    if o.quantity > 0 {
      match o.kind
      case Limit => LimitIsAged(b, o, engine, t);
      case PostOnly =>
        PlacesAreBounded(b);
        AddIsAged(b, o.(status := New), t);
      case _ =>
        SweepIsAged(b, o, engine, t);
        AgedLater(Sweep(b, o, engine).book, t, o.createdAt);
    }
  }

  lemma PlacesAreBounded(b: Book)
    requires WellFormed(b)
    ensures forall x :: x in b.bids || x in b.asks ==> x.bookSeq <= b.seqNo
  {
  }

  lemma CancelIsAged(b: Book, id: Id, user: User, t: int)
    requires AgedBook(b, t)
    ensures AgedBook(Cancel(b, id, user).0, t)
  {
    hide Without;
    if Lookup(b, id).Some? { WithoutContents(b.Queue(Lookup(b, id).value.side), id); }
  }

  // ----- histories in the order of creation -----

  ghost predicate ByArrival(events: seq<Event>) {
    forall i, j :: 0 <= i < j < |events| && events[i].input.Submit? && events[j].input.Submit? ==>
      events[i].input.order.createdAt < events[j].input.order.createdAt
  }

  lemma {:induction false} LiveIsAged(events: seq<Event>, engine: Stp, t: int)
    requires PlainHistory(events) && ByArrival(events)
    requires forall i :: 0 <= i < |events| && events[i].input.Submit? ==> events[i].input.order.createdAt <= t
    ensures AgedBook(LiveRun(EMPTY, events, engine).0, t)
    decreases |events|
  {
    hide Step, AgedBook;
    if events == [] {
      EmptyIsAged(t);
    } else {
      var n := |events| - 1;
      var input := events[n].input;
      var before := if input.Submit? then input.order.createdAt - 1 else t;
      HistoryPrefix(events, n);
      assert forall i :: 0 <= i < n ==> events[..n][i] == events[i];
      LiveIsAged(events[..n], engine, before);
      LiveIsWellFormed(events[..n], engine);
      var b := LiveRun(EMPTY, events[..n], engine).0;
      if input.Submit? {
        LastIsAbsent(events, engine);
      }
      StepIsAged(b, input, engine, before);
      AgedLater(b, before, t);
      AgedLater(Step(b, input, engine).0, if input.Submit? then input.order.createdAt else t, t);
    }
  }

  lemma LastIsAbsent(events: seq<Event>, engine: Stp)
    requires PlainHistory(events) && events != [] && events[|events| - 1].input.Submit?
    ensures Acceptable(LiveRun(EMPTY, events[..|events| - 1], engine).0, events[|events| - 1].input.order)
  {
    HistoryPrefix(events, |events| - 1);
    LiveIsWellFormed(events[..|events| - 1], engine);
  }

  lemma EmptyIsAged(t: int)
    ensures AgedBook(EMPTY, t)
  {
  }

  lemma AgedLater(b: Book, s: int, t: int)
    requires AgedBook(b, s) && s <= t
    ensures AgedBook(b, t)
  {
  }

  /** In a history in the order of creation, a restore of any snapshot gives the queues back. */
  lemma ArrivalAgrees(events: seq<Event>, engine: Stp)
    requires PlainHistory(events) && ByArrival(events)
    ensures var b := LiveRun(EMPTY, events, engine).0; AgesAgree(b.bids) && AgesAgree(b.asks)
  {
    hide AgesAgree, LiveRun;
    var t := Latest(events);
    LiveIsAged(events, engine, t);
    LiveIsWellFormed(events, engine);
    var b := LiveRun(EMPTY, events, engine).0;
    AgedAgrees(Buy, b.bids, b.seqNo, t);
    AgedAgrees(Sell, b.asks, b.seqNo, t);
  }

  function Latest(events: seq<Event>): (t: int)
    ensures forall i :: 0 <= i < |events| && events[i].input.Submit? ==> events[i].input.order.createdAt <= t
  {
    if events == [] then 0
    else
      var n := |events| - 1;
      var t := Latest(events[..n]);
      if events[n].input.Submit? && events[n].input.order.createdAt > t then events[n].input.order.createdAt else t
  }

  /** Crash recovery is invisible for every history in the order of creation, at every snapshot point. */
  lemma RecoveryByArrival(events: seq<Event>, k: nat, s: Snapshot, later: seq<Input>, engine: Stp)
    requires PlainHistory(events) && ByArrival(events) && k <= |events| && HonestAppends(events, k)
    requires IsSnapshotOf(s, LiveRun(EMPTY, events[..k], engine).0, k)
    requires forall i :: 0 <= i < |later| ==> Usual(later[i])
    ensures var live, recovered := LiveRun(EMPTY, events, engine), Replay(RestoreBook(s), Journal(events), s.lastWal, engine);
      && Equivalent(live.0, recovered.0)
      && live.1 == LiveRun(EMPTY, events[..k], engine).1 + recovered.1
      && Run(live.0, later, engine).1 == Run(recovered.0, later, engine).1
  {
    HistoryPrefix(events, k);
    assert forall i :: 0 <= i < k ==> events[..k][i] == events[i];
    ArrivalAgrees(events[..k], engine);
    CrashRecovery(events, k, s, later, engine);
  }

  // ----- and one out of order -----

  /** A limit bid at price 10 for one unit. */
  function Bid(id: Id, createdAt: int): Order {
    Order(id, "user", Buy, Limit, At(10), NoPrice, 1, 0, 1, GTC, New, Disabled, createdAt, 0)
  }

  /**
   * Two bids at one price reach the engine against the order of their creation. The later one queues ahead, and a
   * restore from a snapshot exchanges them.
   */
  lemma RacedArrivalIsExchanged(engine: Stp) returns (events: seq<Event>, s: Snapshot)
    ensures PlainHistory(events) && !ByArrival(events) && HonestAppends(events, 0)
    ensures var b := LiveRun(EMPTY, events, engine).0;
      !AgesAgree(b.bids) && IsSnapshotOf(s, b, |events|) && !SameBook(b, RestoreBook(s))
  {
    var first, second := Bid("first", 2), Bid("second", 1);
    events := [Event(Submit(first), 3, Durable), Event(Submit(second), 4, Durable)];
    assert PlainHistory(events) by {
      assert FreshIn("first", events[..0]) && FreshIn("second", events[..1]);
    }
    assert !ByArrival(events) by {
      assert events[0].input.order.createdAt > events[1].input.order.createdAt;
    }
    BidsQueueUp(first, second, engine);
    LiveIsWellFormed(events, engine);
    var b := LiveRun(EMPTY, events, engine).0;
    assert b.bids[0].createdAt >= b.bids[1].createdAt && b.bids[0].price.Units() == b.bids[1].price.Units();
    s := SomeSnapshotExchanges(b, Buy, 0, 1, |events|);
  }

  lemma BidsQueueUp(first: Order, second: Order, engine: Stp)
    requires first == Bid("first", 2) && second == Bid("second", 1)
    ensures var events := [Event(Submit(first), 3, Durable), Event(Submit(second), 4, Durable)];
      LiveRun(EMPTY, events, engine).0.bids == [first.(bookSeq := 1), second.(bookSeq := 2)]
  {
    BidsQueueInOrder(first, second, engine);
  }

  lemma BidsQueueInOrder(first: Order, second: Order, engine: Stp)
    requires GoodBid(first) && GoodBid(second) && first.price == second.price
    ensures var events := [Event(Submit(first), 3, Durable), Event(Submit(second), 4, Durable)];
      LiveRun(EMPTY, events, engine).0.bids == [first.(bookSeq := 1), second.(bookSeq := 2)]
  {
    hide LiveRun, Process, Rank, Add;
    var events := [Event(Submit(first), 3, Durable), Event(Submit(second), 4, Durable)];
    var one := [Event(Submit(first), 3, Durable)];
    assert events[..1] == one && one[..0] == [];
    var b := Book([first.(bookSeq := 1)], [], [], 0, 1);
    LiveRunOne(one, engine);
    LiveRunOne(events, engine);
    BidJoins(EMPTY, first, engine);
    FirstIsAlone(first);
    BidJoins(b, second, engine);
    RankBehind(b, second);
  }

  predicate GoodBid(o: Order) {
    o.side == Buy && o.kind == Limit && o.tif == GTC && Submittable(o) && o.quantity > 0
  }

  lemma FirstIsAlone(o: Order)
    requires GoodBid(o)
    ensures Add(EMPTY, o) == Book([o.(bookSeq := 1)], [], [], 0, 1)
  {
    assert Insert([], o.(bookSeq := 1)) == [o.(bookSeq := 1)];
  }

  lemma LiveRunOne(events: seq<Event>, engine: Stp)
    requires events != [] && events[|events| - 1].io == Durable && events[|events| - 1].input.Submit?
    ensures LiveRun(EMPTY, [], engine).0 == EMPTY
    ensures LiveRun(EMPTY, events, engine).0
         == Process(LiveRun(EMPTY, events[..|events| - 1], engine).0, events[|events| - 1].input.order, engine).book
  {
    hide Process;
  }

  lemma BidJoins(b: Book, o: Order, engine: Stp)
    requires b.asks == [] && o.side == Buy && o.kind == Limit && o.tif == GTC && Submittable(o) && o.quantity > 0
    ensures Process(b, o, engine).book == Add(b, o)
  {
    assert Walk(o, [], engine) == Walked(o, [], []);
    assert Sweep(b, o, engine) == Outcome(b, o, []);
  }

  lemma RankBehind(b: Book, o: Order)
    requires |b.bids| == 1 && b.seqNo == 1 && b.bids[0].bookSeq == 1 && b.bids[0].price == o.price && o.bookSeq == 0
    requires b.bids[0].side == o.side == Buy
    ensures Add(b, o).bids == [b.bids[0], o.(bookSeq := 2)]
  {
    var n := Sequenced(b, o);
    assert !Precedes(n, b.bids[0]);
    assert Rank(b.bids, n) == 1;
  }
}
