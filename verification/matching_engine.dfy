/** The matching engine of one pair: journaling, the match loops, cancels, stops and trade emission. */
module MatchingEngines {
  import opened MatchingTypes
  import opened BookSpec
  import opened MatchingSpec
  import opened MatchingLaws
  import opened OrderHeaps
  import opened OrderBooks
  import opened WriteAheadLog
  import opened RecoverySpec

  const CHANNEL_CAPACITY := 100_000

  datatype Stats = Stats(ordersMatched: nat, ordersRejected: nat, ordersCancelled: nat,
                         tradesExecuted: nat, tradesDropped: nat, fillsDropped: nat, walErrors: nat)

  /** The book after part of a match loop: what is left of a side, the last price, the removals counted. */
  function Progress(b: Book, side: Side, q: seq<Order>, trades: seq<Trade>): Book
    requires |q| <= |b.Queue(side)|
  {
    b.WithQueue(side, q).(last := LastPrice(b.last, trades), seqNo := b.seqNo + (|b.Queue(side)| - |q|))
  }

  /** What a walk still has to do after it made some trades. */
  function Resume(done: seq<Trade>, rest: Walked): Walked {
    Walked(rest.taker, rest.rest, done + rest.trades)
  }

  /** One turn of the match loop took the book from b to now and made some trades. */
  ghost predicate Turn(b: Book, order: Order, now: Book, t: Order, stop: bool, more: seq<Trade>, stp: Stp) {
    var side := order.side.Opposite();
    var q, q' := b.Queue(side), now.Queue(side);
    && t.side == order.side && |q'| <= |q| && now == Progress(b, side, q', more)
    && (stop ==> Walk(order, q, stp) == Walked(t, q', more))
    && (!stop ==> Walk(order, q, stp) == Resume(more, Walk(t, q', stp)) && (|q'| < |q| || t.remaining <= 0))
  }

  lemma TurnWithoutMaker(b: Book, order: Order, stp: Stp)
    requires var q := b.Queue(order.side.Opposite()); q == [] || !Crosses(order, q[0].price.Units())
    ensures Turn(b, order, b, order, true, [], stp)
  {
  }

  /** The best order of the other side was only removed. */
  lemma TurnOnOwn(b: Book, order: Order, stp: Stp)
    requires var q := b.Queue(order.side.Opposite());
      order.remaining > 0 && q != [] && Crosses(order, q[0].price.Units()) && SelfTrade(order, q[0], stp)
    ensures var q := b.Queue(order.side.Opposite());
      var removed := Progress(b, order.side.Opposite(), q[1..], []);
      var cancelled := order.(status := Cancelled);
      && (Mode(order, stp) == CancelTaker ==> Turn(b, order, b, cancelled, true, [], stp))
      && (Mode(order, stp) == CancelBoth ==> Turn(b, order, removed, cancelled, true, [], stp))
      && (Mode(order, stp) == CancelMaker ==> Turn(b, order, removed, order, false, [], stp))
  {
    var q := b.Queue(order.side.Opposite());
    var w := Walk(order, q[1..], stp);
    assert [] + w.trades == w.trades;
  }

  lemma TurnFills(b: Book, order: Order, stp: Stp)
    requires var q := b.Queue(order.side.Opposite());
      order.remaining > 0 && q != [] && Crosses(order, q[0].price.Units()) && !SelfTrade(order, q[0], stp)
    ensures var side := order.side.Opposite();
      var q := b.Queue(side);
      var qty := FillQty(order, q[0]);
      var now := Progress(b, side, if qty < q[0].remaining then [MakerAfter(q[0], qty)] + q[1..] else q[1..],
                          [TradeOf(order, q[0], qty)]);
      Turn(b, order, now, TakerAfter(order, qty), false, [TradeOf(order, q[0], qty)], stp)
  {
    var q := b.Queue(order.side.Opposite());
    var qty := FillQty(order, q[0]);
    if qty < q[0].remaining {
      var rest := [MakerAfter(q[0], qty)] + q[1..];
      assert Walk(TakerAfter(order, qty), rest, stp) == Walked(TakerAfter(order, qty), rest, []);
    }
  }

  /** The match loop has done part of the walk over b, and the rest of it is the walk from here. */
  ghost predicate Underway(b: Book, order: Order, now: Book, t: Order, stop: bool, done: seq<Trade>, stp: Stp) {
    var side := order.side.Opposite();
    var w, q := Walk(order, b.Queue(side), stp), now.Queue(side);
    && t.side == order.side && |q| <= |b.Queue(side)| && now == Progress(b, side, q, done)
    && (stop ==> w == Walked(t, q, done))
    && (!stop ==> w == Resume(done, Walk(t, q, stp)))
  }

  lemma StartUnderway(b: Book, order: Order, stp: Stp)
    ensures Underway(b, order, b, order, false, [], stp)
  {
    hide Walk;
    var w := Walk(order, b.Queue(order.side.Opposite()), stp);
    assert [] + w.trades == w.trades;
  }

  lemma TurnKeepsUnderway(b: Book, order: Order, mid: Book, t: Order, done: seq<Trade>,
                          now: Book, t': Order, stop: bool, more: seq<Trade>, stp: Stp)
    requires Underway(b, order, mid, t, false, done, stp) && Turn(mid, t, now, t', stop, more, stp)
    ensures Underway(b, order, now, t', stop, done + more, stp)
  {
    hide Walk;
    var rest := Walk(t', now.Queue(order.side.Opposite()), stp);
    assert done + (more + rest.trades) == (done + more) + rest.trades;
  }

  lemma UnderwayEnds(b: Book, order: Order, now: Book, t: Order, stop: bool, done: seq<Trade>, stp: Stp)
    requires Underway(b, order, now, t, stop, done, stp) && (stop || t.remaining <= 0)
    ensures Sweep(b, order, stp) == Outcome(now, t, done)
  {
    assert done + [] == done;
  }

  lemma SweptMayRest(b: Book, o: Order, stp: Stp)
    requires WellFormed(b) && Active(o) && Joins(b, o)
    ensures var s := Sweep(b, o, stp);
      && WellFormed(s.book) && Active(s.order) && SameTerms(s.order, o)
      && Joins(s.book, s.order) && Joins(s.book, s.order.(status := New))
  {
    hide Walk;
    SweepKeeps(b, o, stp);
  }

  lemma SameJoins(b: Book, o: Order, t: Order)
    requires Joins(b, o) && o.id == t.id && o.bookSeq == t.bookSeq
    ensures Joins(b, t)
  {
  }

  lemma ProcessByKind(b: Book, o: Order, stp: Stp)
    ensures Submittable(o) ==> (o.quantity <= 0 ==> Process(b, o, stp) == Outcome(b, o.(status := Rejected), []))
    ensures Submittable(o) ==> (o.quantity > 0 ==> Process(b, o, stp) == Dispatch(b, o, stp))
  {
  }

  /** Looking an order up by id in the queues finds what the live map holds. */
  lemma LookupAgrees(v: View, b: Book, id: Id)
    requires StandsFor(v, b)
    ensures Lookup(b, id) == if id in v.orders then Some(v.orders[id]) else None
  {
    var i, j := Find(b.bids, id), Find(b.asks, id);
    assert i < |b.bids| ==> b.bids[i] in b.bids;
    assert j < |b.asks| ==> b.asks[j] in b.asks;
    if id in v.orders {
      var o := v.orders[id];
      var k :| 0 <= k < |b.Queue(o.side)| && b.Queue(o.side)[k] == o;
    }
  }

  lemma {:induction false} SelectAppend(stops: seq<Order>, o: Order, last: int)
    ensures forall fire :: Select(stops + [o], last, fire)
                         == Select(stops, last, fire) + (if Triggers(o, last) == fire then [o] else [])
  {
    if stops != [] {
      SelectAppend(stops[1..], o, last);
      assert (stops + [o])[1..] == stops[1..] + [o];
    }
  }

  /** The stops that fire can each be entered in the book that keeps only the others. */
  lemma TriggeredJoin(v: View, b: Book)
    requires StandsFor(v, b)
    ensures var parked, fired := Select(b.stops, b.last, false), Select(b.stops, b.last, true);
      && StandsFor(v, b.(stops := parked)) && AllJoin(b.(stops := parked), fired)
      && forall o :: o in fired ==> Unheaped(o.id, v.bids) && Unheaped(o.id, v.asks) && o.id in v.seen
  {
    SelectContents(b.stops, b.last, false);
    SelectContents(b.stops, b.last, true);
    SelectedJoin(b);
  }

  /** Some of the fired stops were executed; the rest of the pass is a pass from here. */
  ghost predicate Firing(b: Book, fired: seq<Order>, now: Book, rest: seq<Order>, done: seq<Trade>, stp: Stp) {
    FireAll(b, fired, stp) == (FireAll(now, rest, stp).0, done + FireAll(now, rest, stp).1)
  }

  lemma StartFiring(b: Book, fired: seq<Order>, stp: Stp)
    ensures fired[0..] == fired && Firing(b, fired, b, fired, [], stp)
  {
    assert [] + FireAll(b, fired, stp).1 == FireAll(b, fired, stp).1;
  }

  lemma FiringStep(b: Book, fired: seq<Order>, now: Book, i: nat, done: seq<Trade>, stp: Stp)
    requires i < |fired| && WellFormed(now) && AllJoin(now, fired[i..])
    requires Firing(b, fired, now, fired[i..], done, stp)
    ensures Parked(fired[i]) && Joins(now, fired[i]) && fired[i] in fired[i..]
    ensures forall o :: o in fired[i + 1..] ==> o in fired[i..] && o.id != fired[i].id
    ensures var first := MatchFired(now, fired[i], stp);
      AllJoin(first.book, fired[i + 1..]) && Firing(b, fired, first.book, fired[i + 1..], done + first.trades, stp)
  {
    hide MatchFired;
    var rest := fired[i..];
    assert rest[0] == fired[i] && rest[1..] == fired[i + 1..];
    AllJoinTail(now, rest, stp);
    DistinctTail(rest);
    var first := MatchFired(now, fired[i], stp);
    var more := FireAll(first.book, rest[1..], stp).1;
    assert done + (first.trades + more) == (done + first.trades) + more;
  }

  lemma FiringEnds(b: Book, fired: seq<Order>, now: Book, done: seq<Trade>, stp: Stp)
    requires Firing(b, fired, now, fired[|fired|..], done, stp)
    ensures FireAll(b, fired, stp) == (now, done)
  {
    assert done + [] == done;
  }

  lemma DistinctTail(q: seq<Order>)
    requires PairwiseApart(q) && q != []
    ensures AbsentFrom(q[0].id, q[1..])
  {
    forall i | 0 <= i < |q[1..]| ensures q[1..][i].id != q[0].id {
      assert Apart(q[0], q[i + 1]);
    }
  }

  lemma StandsForIsWellFormed(v: View, b: Book)
    ensures StandsFor(v, b) ==> WellFormed(b)
  {
  }

  /** The ids that replay gives to the book. */
  function ReplayedIds(log: seq<Record>, lastWal: nat): set<Id> {
    set r | r in log && r.OrderRecord? && r.number > lastWal :: r.id
  }

  /** Order records above the snapshot carry usable orders under ids that are new to the book. */
  ghost predicate Replayable(log: seq<Record>, lastWal: nat, seen: set<Id>) {
    forall i :: 0 <= i < |log| && log[i].OrderRecord? && log[i].number > lastWal ==>
      && log[i].id !in seen && log[i].id !in ReplayedIds(log[..i], lastWal)
      && (log[i].kind == Limit || log[i].kind == StopLimit ==> log[i].price.At?)
  }

  lemma {:induction false} RecordsPrefix(file: seq<Line>, i: nat)
    requires i <= |file|
    ensures Records(file[..i]) <= Records(file)
    decreases |file|
  {
    if i < |file| {
      var n := |file| - 1;
      assert file[..n][..i] == file[..i];
      RecordsPrefix(file[..n], i);
    } else {
      assert file[..i] == file;
    }
  }

  /** A replay gone one record further. */
  function Further(done: (Book, seq<Trade>), r: Record, lastWal: nat, stp: Stp): (Book, seq<Trade>) {
    if r.number <= lastWal then done
    else (ReplayStep(done.0, r, stp).0, done.1 + ReplayStep(done.0, r, stp).1)
  }

  lemma FurtherTrades(before: seq<Trade>, done: seq<Trade>, more: seq<Trade>)
    ensures before + (done + more) == before + done + more
  {
  }

  lemma ReplayNext(b: Book, file: seq<Line>, i: nat, lastWal: nat, seen: set<Id>, stp: Stp)
    requires i < |file| && file[i].Good? && Replayable(Records(file), lastWal, seen)
    ensures var log, r := Records(file[..i]), file[i].rec;
      && Records(file[..i + 1]) == log + [r]
      && Replay(b, log + [r], lastWal, stp) == Further(Replay(b, log, lastWal, stp), r, lastWal, stp)
      && (r.OrderRecord? && r.number > lastWal ==>
            && r.id !in seen + ReplayedIds(log, lastWal)
            && r.id in ReplayedIds(log + [r], lastWal)
            && (r.kind == Limit || r.kind == StopLimit ==> r.price.At?))
      && ReplayedIds(log, lastWal) <= ReplayedIds(log + [r], lastWal)
  {
    var log, r := Records(file[..i]), file[i].rec;
    assert file[..i + 1][..i] == file[..i];
    assert Records(file[..i + 1]) == log + [r];
    ReplayLast(b, log, r, lastWal, stp);
    RecordsPrefix(file, i + 1);
    ReplayableAt(Records(file), log, r, lastWal, seen);
  }

  lemma ReplayLast(b: Book, log: seq<Record>, r: Record, lastWal: nat, stp: Stp)
    ensures Replay(b, log + [r], lastWal, stp) == Further(Replay(b, log, lastWal, stp), r, lastWal, stp)
  {
    assert (log + [r])[..|log|] == log;
  }

  lemma ReplayableAt(all: seq<Record>, log: seq<Record>, r: Record, lastWal: nat, seen: set<Id>)
    requires Replayable(all, lastWal, seen) && log + [r] <= all
    ensures r.OrderRecord? && r.number > lastWal ==>
      && r.id !in seen + ReplayedIds(log, lastWal)
      && r.id in ReplayedIds(log + [r], lastWal)
      && (r.kind == Limit || r.kind == StopLimit ==> r.price.At?)
    ensures ReplayedIds(log, lastWal) <= ReplayedIds(log + [r], lastWal)
  {
    assert all[|log|] == (log + [r])[|log|] == r && all[..|log|] == log;
    assert forall x :: x in log + [r] <==> x in log || x == r;
  }

  lemma NothingServed(b: Book, f: LogFile, number: nat, stp: Stp)
    ensures LiveRun(b, [], stp) == (b, []) && FileOn(f, number, []) == f
  {
  }

  /** One more event served: what it does to the book, the trades and the file, and whose ids are still fresh. */
  lemma ServedNext(b: Book, f: LogFile, number: nat, events: seq<Event>, i: nat, stp: Stp)
    requires i < |events| && NoTriggers(events)
    ensures var before, e := LiveRun(b, events[..i], stp), events[i];
      && LiveRun(b, events[..i + 1], stp)
         == (if e.io == Durable then (Step(before.0, e.input, stp).0, before.1 + Step(before.0, e.input, stp).1)
             else (before.0, before.1 + []))
      && FileOn(f, number, events[..i + 1])
         == Appended(FileOn(f, number, events[..i]), RecordFor(e.input).Stamped(number + i + 1, e.now), e.io)
    ensures forall id :: FreshIn(id, events[..i + 1]) ==>
      FreshIn(id, events[..i]) && (events[i].input.Submit? ==> events[i].input.order.id != id)
  {
    assert events[..i + 1][..i] == events[..i] && events[..i + 1][i] == events[i];
    assert LiveRun(b, events[..i], stp).1 + [] == LiveRun(b, events[..i], stp).1;
    forall id | FreshIn(id, events[..i + 1])
      ensures FreshIn(id, events[..i]) && (events[i].input.Submit? ==> events[i].input.order.id != id)
    {
      assert forall k :: 0 <= k < i ==> events[..i][k] == events[..i + 1][k];
      assert events[..i + 1][i] == events[i];
    }
  }

  /** Whatever was sent was received, waits, or was dropped, each as often as it was sent. */
  ghost predicate Balanced<T>(sent: seq<T>, received: seq<T>, waiting: seq<T>, dropped: seq<T>) {
    multiset(sent) == multiset(received) + multiset(waiting) + multiset(dropped)
  }

  lemma BalancedSend<T>(sent: seq<T>, received: seq<T>, waiting: seq<T>, dropped: seq<T>, x: T)
    requires Balanced(sent, received, waiting, dropped)
    ensures Balanced(sent + [x], received, waiting + [x], dropped)
    ensures Balanced(sent + [x], received, waiting, dropped + [x])
  {
  }

  lemma BalancedReceive<T>(sent: seq<T>, received: seq<T>, waiting: seq<T>, dropped: seq<T>)
    requires Balanced(sent, received, waiting, dropped) && waiting != []
    ensures Balanced(sent, received + [waiting[0]], waiting[1..], dropped)
  {
    assert waiting == [waiting[0]] + waiting[1..];
  }

  class MatchingEngine {
    const book: OrderBook
    const wal: WALWriter
    const stp: Stp
    var stats: Stats
    var degraded: bool
    var trades: seq<Trade>             // the outbound channels
    var fills: seq<FillNotification>

    ghost var executed: seq<Trade>
    ghost var received: seq<Trade>
    ghost var dropped: seq<Trade>
    ghost var notified: seq<FillNotification>
    ghost var handled: seq<FillNotification>
    ghost var lost: seq<FillNotification>

    /** Every executed trade was sent, in which case it waits or was received, or was dropped and counted. */
    ghost predicate Accounted()
      reads this
    {
      && stats.tradesExecuted == |executed|
      && stats.tradesDropped == |dropped|
      && |trades| <= CHANNEL_CAPACITY
      && Balanced(executed, received, trades, dropped)
      && FillsAccounted()
    }

    /** So was every fill, which is settled when it is received. */
    ghost predicate FillsAccounted()
      reads this
    {
      && stats.fillsDropped == |lost|
      && |fills| <= CHANNEL_CAPACITY
      && Balanced(notified, handled, fills, lost)
    }

    ghost predicate Valid()
      reads this, book, book.bids, book.asks
    {
      book.Valid() && Accounted() && TradesOf(notified) == executed
    }

    constructor (stp: Stp, wal: WALWriter)
      ensures Valid() && book.Abs() == EMPTY && book.seen == {} && executed == []
      ensures this.stp == stp && this.wal == wal
      ensures fresh(book) && fresh(book.bids) && fresh(book.asks)
    {
      this.stp, this.wal := stp, wal;
      book := new OrderBook();
      stats, degraded := Stats(0, 0, 0, 0, 0, 0, 0), false;
      trades, executed, received, dropped := [], [], [], [];
      fills, notified, handled, lost := [], [], [], [];
    }

    method CountRejected()
      requires Accounted()
      modifies this`stats
      ensures Accounted() && stats == old(stats).(ordersRejected := old(stats).ordersRejected + 1)
    {
      stats := stats.(ordersRejected := stats.ordersRejected + 1);
    }

    /** The engine goes on matching, but is no longer durable. */
    method MarkWALFailure()
      requires Accounted()
      modifies this`stats, this`degraded
      ensures Accounted() && stats == old(stats).(walErrors := old(stats).walErrors + 1) && degraded
    {
      stats := stats.(walErrors := stats.walErrors + 1);
      degraded := true;
    }

    method CountMatched(o: Order)
      requires Accounted()
      modifies this`stats
      ensures Accounted()
      ensures var one := if o.status == Filled || o.status == PartiallyFilled then 1 else 0;
        stats == old(stats).(ordersMatched := old(stats).ordersMatched + one)
    {
      if o.status == Filled || o.status == PartiallyFilled {
        stats := stats.(ordersMatched := stats.ordersMatched + 1);
      }
    }

    /** Non-blocking send: a full channel drops the trade and counts it. */
    method EmitTrade(t: Trade)
      requires Accounted()
      modifies this`stats, this`trades, this`executed, this`dropped
      ensures Accounted()
      ensures executed == old(executed) + [t]
      ensures stats == old(stats).(tradesExecuted := old(stats).tradesExecuted + 1, tradesDropped := stats.tradesDropped)
      ensures if |old(trades)| < CHANNEL_CAPACITY then trades == old(trades) + [t] && dropped == old(dropped)
              else trades == old(trades) && dropped == old(dropped) + [t]
    {
      hide Balanced;
      BalancedSend(executed, received, trades, dropped, t);
      stats := stats.(tradesExecuted := stats.tradesExecuted + 1);
      executed := executed + [t];
      if |trades| < CHANNEL_CAPACITY {
        trades := trades + [t];
      } else {
        stats := stats.(tradesDropped := stats.tradesDropped + 1);
        dropped := dropped + [t];
      }
    }

    /** The same for the notification that the trade is to be settled. */
    method EmitFill(f: FillNotification)
      requires Accounted()
      modifies this`stats, this`fills, this`notified, this`lost
      ensures Accounted()
      ensures notified == old(notified) + [f]
      ensures stats == old(stats).(fillsDropped := stats.fillsDropped)
      ensures if |old(fills)| < CHANNEL_CAPACITY then fills == old(fills) + [f] && lost == old(lost)
              else fills == old(fills) && lost == old(lost) + [f]
    {
      hide Balanced;
      BalancedSend(notified, handled, fills, lost, f);
      notified := notified + [f];
      if |fills| < CHANNEL_CAPACITY {
        fills := fills + [f];
      } else {
        stats := stats.(fillsDropped := stats.fillsDropped + 1);
        lost := lost + [f];
      }
    }

    /** Settlement takes the oldest fill from the channel. */
    method ReceiveFill() returns (f: Option<FillNotification>)
      requires Accounted()
      modifies this`fills, this`handled
      ensures Accounted()
      ensures f.Some? <==> old(fills) != []
      ensures f.Some? ==> old(fills) == [f.value] + fills && handled == old(handled) + [f.value]
    {
      if fills == [] {
        return None;
      }
      hide Balanced;
      BalancedReceive(notified, handled, fills, lost);
      f := Some(fills[0]);
      handled := handled + [fills[0]];
      fills := fills[1..];
    }

    /** The recorders of candles and prices take the oldest trade from the channel. */
    method ReceiveTrade() returns (t: Option<Trade>)
      requires Accounted()
      modifies this`trades, this`received
      ensures Accounted()
      ensures t.Some? <==> old(trades) != []
      ensures t.Some? ==> old(trades) == [t.value] + trades && received == old(received) + [t.value]
    {
      if trades == [] {
        return None;
      }
      hide Balanced;
      BalancedReceive(executed, received, trades, dropped);
      t := Some(trades[0]);
      received := received + [trades[0]];
      trades := trades[1..];
    }

    /** Sends out a trade, and the notification to settle it. */
    method Announce(taker: Order, maker: Order, qty: int)
      requires Accounted() && TradesOf(notified) == executed
      modifies this`stats, this`trades, this`executed, this`dropped, this`fills, this`notified, this`lost
      ensures Accounted() && TradesOf(notified) == executed
      ensures executed == old(executed) + [TradeOf(taker, maker, qty)]
      ensures notified == old(notified) + [NotificationOf(taker, maker, qty)]
    {
      hide Accounted, TradesOf;
      TradesOfAppend(notified, NotificationOf(taker, maker, qty));
      EmitTrade(TradeOf(taker, maker, qty));
      EmitFill(NotificationOf(taker, maker, qty));
    }

    /** One fill between the taker and the best order of the other side. */
    method FillLocked(taker: Order, maker: Order) returns (t: Order)
      requires Valid() && taker.remaining > 0
      requires book.Abs().Queue(taker.side.Opposite()) != []
      requires maker == book.Abs().Queue(taker.side.Opposite())[0]
      modifies this`stats, this`trades, this`executed, this`dropped, this`fills, this`notified, this`lost
      modifies book`orders, book`userOrders, book`seqNo, book`last, book`bidQueue, book`askQueue
      ensures Valid()
      ensures var qty, side := FillQty(taker, maker), taker.side.Opposite();
        && t == TakerAfter(taker, qty)
        && executed == old(executed) + [TradeOf(taker, maker, qty)]
        && notified == old(notified) + [NotificationOf(taker, maker, qty)]
        && var q := old(book.Abs()).Queue(side);
           book.Abs() == if qty < maker.remaining
             then old(book.Abs()).WithQueue(side, [MakerAfter(maker, qty)] + q[1..]).(last := maker.price.Units())
             else old(book.Abs()).WithQueue(side, q[1..])
                    .(last := maker.price.Units(), seqNo := old(book.Abs()).seqNo + 1)
    {
      var side := taker.side.Opposite();
      hide StandsFor, IsHeap, Remove, Accounted, TradesOf, TradeOf, NotificationOf;
      HeadIsLive(book.Inside(), book.Abs(), side);
      var qty := if taker.remaining >= maker.remaining then maker.remaining else taker.remaining;
      t := TakerAfter(taker, qty);
      if maker.remaining == qty {
        var _ := book.RemoveLocked(maker.id);
      } else {
        book.WriteBest(side, MakerAfter(maker, qty));
      }
      book.SetLastTradePrice(maker.price.Units());
      Announce(taker, maker, qty);
    }

    /** One turn of the match loop; stop says that the loop is left. */
    method MatchTurn(order: Order) returns (t: Order, stop: bool, ghost more: seq<Trade>)
      requires Valid() && order.remaining > 0
      modifies this`stats, this`trades, this`executed, this`dropped, this`fills, this`notified, this`lost
      modifies book`orders, book`userOrders, book`seqNo, book`last, book`bidQueue, book`askQueue, book.bids, book.asks
      ensures Valid()
      ensures Turn(old(book.Abs()), order, book.Abs(), t, stop, more, stp)
      ensures executed == old(executed) + more
      ensures forall id :: old(book.Free(id)) ==> book.Free(id)
    {
      hide StandsFor, IsHeap, Remove, Unheaped, Turn, Accounted, TradesOf;
      var side := order.side.Opposite();
      t, stop, more := order, true, [];
      var best := book.BestLocked(side);
      if best.None? || !Crosses(order, best.value.price.Units()) {
        TurnWithoutMaker(book.Abs(), order, stp);
        return;
      }
      var maker := best.value;
      HeadIsLive(book.Inside(), book.Abs(), side);
      if SelfTrade(order, maker, stp) {
        TurnOnOwn(book.Abs(), order, stp);
        var mode := if order.stp == Disabled then stp else order.stp;
        if mode == CancelTaker || mode == CancelBoth {
          t := order.(status := Cancelled);
        }
        if mode == CancelMaker || mode == CancelBoth {
          var _ := book.RemoveLocked(maker.id);
        }
        stop := mode != CancelMaker;
      } else {
        TurnFills(book.Abs(), order, stp);
        more := [TradeOf(order, maker, FillQty(order, maker))];
        t := FillLocked(order, maker);
        stop := false;
      }
    }

    /**
     * The match loop. The limit, market and IOC loops differ only in the price test, which Crosses makes
     * from the order's type and price.
     */
    method MatchLoop(order: Order) returns (t: Order)
      requires Valid()
      modifies this`stats, this`trades, this`executed, this`dropped, this`fills, this`notified, this`lost
      modifies book`orders, book`userOrders, book`seqNo, book`last, book`bidQueue, book`askQueue, book.bids, book.asks
      ensures Valid()
      ensures var s := Sweep(old(book.Abs()), order, stp);
        t == s.order && book.Abs() == s.book && executed == old(executed) + s.trades
      ensures forall id :: old(book.Free(id)) ==> book.Free(id)
    {
      hide StandsFor, IsHeap, Walk, Accounted, Unheaped, TradesOf;
      ghost var b, done: seq<Trade> := book.Abs(), [];
      t := order;
      var stop := false;
      StartUnderway(b, order, stp);
      while t.remaining > 0 && !stop
        invariant Valid() && Underway(b, order, book.Abs(), t, stop, done, stp)
        invariant executed == old(executed) + done
        invariant forall id :: old(book.Free(id)) ==> book.Free(id)
        decreases !stop, |book.Abs().Queue(order.side.Opposite())|, t.remaining
      {
        ghost var mid, before, more := book.Abs(), t, [];
        t, stop, more := MatchTurn(t);
        TurnKeepsUnderway(b, order, mid, before, done, book.Abs(), t, stop, more, stp);
        done := done + more;
      }
      UnderwayEnds(b, order, book.Abs(), t, stop, done, stp);
    }

    /** A limit order: match, then rest what is left if it is good till cancelled. */
    method MatchLimitLocked(order: Order) returns (t: Order)
      requires Valid() && Active(order) && Joins(book.Abs(), order) && order.price.At? && book.Free(order.id)
      modifies this`stats, this`trades, this`executed, this`dropped, this`fills, this`notified, this`lost
      modifies book`orders, book`userOrders, book`seqNo, book`last, book`bidQueue, book`askQueue, book`seen
      modifies book.bids, book.asks
      ensures Valid() && book.seen <= old(book.seen) + {order.id} && old(book.seen) <= book.seen
      ensures var out := MatchLimit(old(book.Abs()), order, stp);
        t == out.order && book.Abs() == out.book && executed == old(executed) + out.trades
      ensures forall id :: id != order.id && old(book.Free(id)) ==> book.Free(id)
    {
      hide StandsFor, IsHeap, Walk, Accounted, Unheaped, WellFormed, Joins, Sweep, TradesOf;
      StandsForIsWellFormed(book.Inside(), book.Abs());
      SweptMayRest(book.Abs(), order, stp);
      t := MatchLoop(order);
      if t.remaining > 0 && t.tif == GTC {
        if t.status != PartiallyFilled {
          t := t.(status := New);
        }
        t := book.AddLocked(t);
      }
    }

    /** Market and IOC orders: match, and drop what is left. */
    method MatchImmediateLocked(order: Order) returns (t: Order)
      requires Valid()
      modifies this`stats, this`trades, this`executed, this`dropped, this`fills, this`notified, this`lost
      modifies book`orders, book`userOrders, book`seqNo, book`last, book`bidQueue, book`askQueue, book.bids, book.asks
      ensures Valid()
      ensures var out := MatchImmediate(old(book.Abs()), order, stp);
        t == out.order && book.Abs() == out.book && executed == old(executed) + out.trades
      ensures forall id :: old(book.Free(id)) ==> book.Free(id)
    {
      hide StandsFor, IsHeap, Walk, Accounted, Unheaped, TradesOf;
      t := MatchLoop(order);
      if t.remaining > 0 {
        if t.filled > 0 {
          t := t.(status := PartiallyFilled);
        } else {
          t := t.(status := Cancelled);
        }
      }
    }

    /** A post-only order rests without matching, or is refused when it would cross. */
    method MatchPostOnlyLocked(order: Order) returns (t: Order)
      requires Valid() && Active(order) && order.remaining > 0 && Joins(book.Abs(), order) && book.Free(order.id)
      modifies this`stats, book`orders, book`userOrders, book`seqNo, book`bidQueue, book`askQueue, book`seen
      modifies book.bids, book.asks
      ensures Valid() && book.seen <= old(book.seen) + {order.id} && old(book.seen) <= book.seen
      ensures var out := MatchPostOnly(old(book.Abs()), order);
        t == out.order && book.Abs() == out.book && out.trades == []
    {
      hide StandsFor, IsHeap, Unheaped, Joins, Accounted, TradesOf;
      t := order.(status := Rejected);
      if order.price.NoPrice? || order.price.units <= 0 {
        CountRejected();
        return;
      }
      var best := book.BestLocked(order.side.Opposite());
      if best.Some? && Crosses(order, best.value.price.Units()) {
        CountRejected();
        return;
      }
      SameJoins(book.Abs(), order, order.(status := New));
      t := book.AddLocked(order.(status := New));
    }

    /** A stop that fires is matched at once; any other is parked. */
    method MatchStopLocked(order: Order) returns (t: Order)
      requires Valid() && Joins(book.Abs(), order) && book.Free(order.id)
      requires order.kind == StopLoss || (order.kind == StopLimit && order.price.At?)
      requires order.filled == 0 < order.remaining == order.quantity
      modifies this`stats, this`trades, this`executed, this`dropped, this`fills, this`notified, this`lost
      modifies book`orders, book`userOrders, book`seqNo, book`last, book`bidQueue, book`askQueue, book`seen, book`stops
      modifies book.bids, book.asks
      ensures Valid() && book.seen <= old(book.seen) + {order.id} && old(book.seen) <= book.seen
      ensures var out := MatchStop(old(book.Abs()), order, stp);
        t == out.order && book.Abs() == out.book && executed == old(executed) + out.trades
    {
      hide StandsFor, IsHeap, Unheaped, Joins, MatchLimit, MatchImmediate, Accounted, TradesOf;
      assert executed + [] == executed;
      if order.stopPrice.NoPrice? || order.stopPrice.units <= 0 {
        t := order.(status := Rejected);
        CountRejected();
      } else if Triggers(order, book.last) {
        t := FireLocked(order);
      } else {
        SameJoins(book.Abs(), order, order.(status := New));
        t := book.AddStopLocked(order.(status := New));
      }
    }

    /** A stop-loss becomes a market order, a stop-limit a limit order. */
    method FireLocked(order: Order) returns (t: Order)
      requires Valid() && Parked(order) && Joins(book.Abs(), order) && book.Free(order.id)
      modifies this`stats, this`trades, this`executed, this`dropped, this`fills, this`notified, this`lost
      modifies book`orders, book`userOrders, book`seqNo, book`last, book`bidQueue, book`askQueue, book`seen
      modifies book.bids, book.asks
      ensures Valid() && book.seen <= old(book.seen) + {order.id} && old(book.seen) <= book.seen
      ensures var out := MatchFired(old(book.Abs()), order, stp);
        t == out.order && book.Abs() == out.book && executed == old(executed) + out.trades
      ensures forall id :: id != order.id && old(book.Free(id)) ==> book.Free(id)
    {
      hide StandsFor, IsHeap, Unheaped, Joins, MatchLimit, MatchImmediate, Accounted, TradesOf;
      if order.kind == StopLoss {
        t := MatchImmediateLocked(order.(kind := Market));
      } else {
        SameJoins(book.Abs(), order, order.(kind := Limit));
        t := MatchLimitLocked(order.(kind := Limit));
      }
    }

    /** Executes an accepted order by its type. */
    method Execute(order: Order) returns (t: Order)
      requires Valid() && Submittable(order) && order.id !in book.seen
      modifies this`stats, this`trades, this`executed, this`dropped, this`fills, this`notified, this`lost
      modifies book`orders, book`userOrders, book`seqNo, book`last, book`bidQueue, book`askQueue, book`seen, book`stops
      modifies book.bids, book.asks
      ensures Valid() && book.seen <= old(book.seen) + {order.id} && old(book.seen) <= book.seen
      ensures var out := Process(old(book.Abs()), order, stp);
        t == out.order && book.Abs() == out.book && executed == old(executed) + out.trades
    {
      hide StandsFor, IsHeap, Unheaped, Joins, Absent, Accounted, Process, TradesOf;
      hide MatchLimit, MatchImmediate, MatchStop, MatchPostOnly, Walk;
      ProcessByKind(book.Abs(), order, stp);
      assert executed + [] == executed;
      if order.quantity <= 0 {
        CountRejected();
        return order.(status := Rejected);
      }
      FreshJoins(book.Inside(), book.Abs(), order);
      match order.kind {
        case Limit => t := MatchLimitLocked(order);
        case Market => t := MatchImmediateLocked(order);
        case ImmediateOrCancel => t := MatchImmediateLocked(order);
        case PostOnly => t := MatchPostOnlyLocked(order);
        case _ => t := MatchStopLocked(order);
      }
      CountMatched(t);
    }

    /**
     * Journals an order and, if that succeeded, executes it. An order that could not be journaled is refused
     * and changes nothing but the counters.
     */
    method ProcessOrder(order: Order, now: int, io: AppendResult) returns (t: Order)
      requires Valid() && Submittable(order) && order.id !in book.seen
      modifies this`stats, this`degraded, this`trades, this`executed, this`dropped, this`fills, this`notified, this`lost, wal
      modifies book`orders, book`userOrders, book`seqNo, book`last, book`bidQueue, book`askQueue, book`seen, book`stops
      modifies book.bids, book.asks
      ensures Valid() && book.seen <= old(book.seen) + {order.id} && old(book.seen) <= book.seen
      ensures wal.seqNo == old(wal.seqNo) + 1 && wal.broken == (old(wal.broken) || io.WriteFailed?)
      ensures wal.file == Appended(old(wal.file), RecordOf(order).Stamped(wal.seqNo, now), Effect(old(wal.broken), io))
      ensures Effect(old(wal.broken), io) != Durable ==>
        t == order.(status := Rejected) && book.Abs() == old(book.Abs()) && executed == old(executed) && degraded
      ensures Effect(old(wal.broken), io) == Durable ==>
        var out := Process(old(book.Abs()), order, stp);
        t == out.order && book.Abs() == out.book && executed == old(executed) + out.trades && degraded == old(degraded)
    {
      hide StandsFor, IsHeap, Unheaped, Process, Accounted, TradesOf;
      var ok := wal.Append(RecordOf(order), now, io);
      if !ok {
        MarkWALFailure();
        CountRejected();
        return order.(status := Rejected);
      }
      t := Execute(order);
    }

    /** Removes an order when it is live and, if a user is named, that user's own. */
    method CancelLocked(id: Id, user: User) returns (r: CancelResult)
      requires Valid()
      modifies this`stats, book`orders, book`userOrders, book`seqNo, book`bidQueue, book`askQueue
      ensures Valid()
      ensures (book.Abs(), r) == Cancel(old(book.Abs()), id, user)
    {
      hide StandsFor, IsHeap, Remove;
      LookupAgrees(book.Inside(), book.Abs(), id);
      if id !in book.orders {
        return NotFound;
      }
      if user != "" && book.orders[id].user != user {
        return NotOwned;
      }
      var o := book.RemoveLocked(id);
      stats := stats.(ordersCancelled := stats.ordersCancelled + 1);
      r := Done(o.value);
    }

    /** Journals a cancel and, if that succeeded, carries it out. */
    method ProcessCancel(id: Id, user: User, now: int, io: AppendResult) returns (r: Option<CancelResult>)
      requires Valid()
      modifies this`stats, this`degraded, wal
      modifies book`orders, book`userOrders, book`seqNo, book`bidQueue, book`askQueue
      ensures Valid()
      ensures wal.seqNo == old(wal.seqNo) + 1 && wal.broken == (old(wal.broken) || io.WriteFailed?)
      ensures wal.file == Appended(old(wal.file), CancelRecord(0, 0, id, user).Stamped(wal.seqNo, now),
                                   Effect(old(wal.broken), io))
      ensures Effect(old(wal.broken), io) != Durable ==> r == None && book.Abs() == old(book.Abs()) && degraded
      ensures Effect(old(wal.broken), io) == Durable ==>
        && r.Some? && (book.Abs(), r.value) == Cancel(old(book.Abs()), id, user) && degraded == old(degraded)
    {
      hide StandsFor, IsHeap, Cancel, Accounted, TradesOf;
      var ok := wal.Append(CancelRecord(0, 0, id, user), now, io);
      if !ok {
        MarkWALFailure();
        return None;
      }
      var result := CancelLocked(id, user);
      r := Some(result);
    }

    /** One pass over the parked stops after a batch of orders. */
    method TriggerParkedStops()
      requires Valid()
      modifies this`stats, this`trades, this`executed, this`dropped, this`fills, this`notified, this`lost
      modifies book`orders, book`userOrders, book`seqNo, book`last, book`bidQueue, book`askQueue, book`seen, book`stops
      modifies book.bids, book.asks
      ensures Valid() && book.seen == old(book.seen)
      ensures var (b, more) := TriggerStops(old(book.Abs()), stp);
        book.Abs() == b && executed == old(executed) + more
    {
      hide StandsFor, IsHeap, Unheaped, AllJoin, FireAll, Accounted, TradesOf;
      ghost var b := book.Abs();
      var stops, last := book.stops, book.last;
      var triggered, pending := [], [];
      for i := 0 to |stops|
        modifies {}
        invariant triggered == Select(stops[..i], last, true)
        invariant pending == Select(stops[..i], last, false)
      {
        SelectAppend(stops[..i], stops[i], last);
        assert stops[..i + 1] == stops[..i] + [stops[i]];
        if Triggers(stops[i], last) {
          triggered := triggered + [stops[i]];
        } else {
          pending := pending + [stops[i]];
        }
      }
      assert stops[..|stops|] == stops;
      TriggeredJoin(book.Inside(), b);
      book.KeepStops(pending);
      FireAllLocked(triggered);
    }

    /** Executes the triggered stops in the order they were parked. */
    method FireAllLocked(fired: seq<Order>)
      requires Valid() && AllJoin(book.Abs(), fired)
      requires forall o :: o in fired ==> book.Free(o.id) && o.id in book.seen
      modifies this`stats, this`trades, this`executed, this`dropped, this`fills, this`notified, this`lost
      modifies book`orders, book`userOrders, book`seqNo, book`last, book`bidQueue, book`askQueue, book`seen
      modifies book.bids, book.asks
      ensures Valid() && book.seen == old(book.seen)
      ensures var (b, more) := FireAll(old(book.Abs()), fired, stp);
        book.Abs() == b && executed == old(executed) + more
    {
      hide StandsFor, IsHeap, Unheaped, AllJoin, Accounted, FireAll, MatchFired, WellFormed, TradesOf;
      ghost var b, done: seq<Trade> := book.Abs(), [];
      StartFiring(b, fired, stp);
      for i := 0 to |fired|
        invariant Valid() && book.seen == old(book.seen) && executed == old(executed) + done
        invariant AllJoin(book.Abs(), fired[i..]) && Firing(b, fired, book.Abs(), fired[i..], done, stp)
        invariant forall o :: o in fired[i..] ==> book.Free(o.id) && o.id in book.seen
      {
        ghost var now := book.Abs();
        StandsForIsWellFormed(book.Inside(), now);
        FiringStep(b, fired, now, i, done, stp);
        var _ := FireLocked(fired[i]);
        done := done + MatchFired(now, fired[i], stp).trades;
      }
      FiringEnds(b, fired, book.Abs(), done, stp);
    }

    /** Takes one order or cancel from the loop. */
    method ServeOne(e: Event)
      requires Valid() && !e.input.Trigger? && e.io == Effect(wal.broken, e.io)
      requires e.input.Submit? ==> Submittable(e.input.order) && e.input.order.id !in book.seen
      modifies this`stats, this`degraded, this`trades, this`executed, this`dropped, this`fills, this`notified, this`lost, wal
      modifies book`orders, book`userOrders, book`seqNo, book`last, book`bidQueue, book`askQueue, book`seen, book`stops
      modifies book.bids, book.asks
      ensures Valid() && book.seen <= old(book.seen) + if e.input.Submit? then {e.input.order.id} else {}
      ensures wal.seqNo == old(wal.seqNo) + 1 && wal.broken == (old(wal.broken) || e.io.WriteFailed?)
      ensures wal.file == Appended(old(wal.file), RecordFor(e.input).Stamped(wal.seqNo, e.now), e.io)
      ensures var (b, made) := if e.io == Durable then Step(old(book.Abs()), e.input, stp) else (old(book.Abs()), []);
        book.Abs() == b && executed == old(executed) + made
    {
      hide StandsFor, IsHeap, Accounted, TradesOf, Unheaped, Process, Cancel, Appended;
      assert executed + [] == executed;
      match e.input {
        case Submit(o) => var _ := ProcessOrder(o, e.now, e.io);
        case Withdraw(id, user) => var _ := ProcessCancel(id, user, e.now, e.io);
        case Trigger => assert false;
      }
    }

    /** What the engine loop does with the orders and cancels that reach it, one after another. */
    method Serve(events: seq<Event>)
      requires Valid() && Servable(events) && OneProcess(events) && !wal.broken
      requires forall i :: 0 <= i < |events| && events[i].input.Submit? ==> events[i].input.order.id !in book.seen
      modifies this`stats, this`degraded, this`trades, this`executed, this`dropped, this`fills, this`notified, this`lost, wal
      modifies book`orders, book`userOrders, book`seqNo, book`last, book`bidQueue, book`askQueue, book`seen, book`stops
      modifies book.bids, book.asks
      ensures Valid()
      ensures wal.file == FileOn(old(wal.file), old(wal.seqNo), events) && wal.seqNo == old(wal.seqNo) + |events|
      ensures var (b, made) := LiveRun(old(book.Abs()), events, stp);
        book.Abs() == b && executed == old(executed) + made
    {
      hide StandsFor, IsHeap, Accounted, TradesOf, Unheaped, Step, Appended, FileOn, LiveRun;
      ghost var b, was, seen, f, number := book.Abs(), executed, book.seen, wal.file, wal.seqNo;
      NothingServed(b, f, number, stp);
      assert events[..0] == [] && executed + [] == executed;
      for i := 0 to |events|
        invariant Valid() && wal.file == FileOn(f, number, events[..i]) && wal.seqNo == number + i
        invariant wal.broken ==> exists j :: 0 <= j < i && events[j].io.WriteFailed?
        invariant book.Abs() == LiveRun(b, events[..i], stp).0 && executed == was + LiveRun(b, events[..i], stp).1
        invariant forall id :: id !in seen && FreshIn(id, events[..i]) ==> id !in book.seen
      {
        ServedNext(b, f, number, events, i, stp);
        ServeOne(events[i]);
        FurtherTrades(was, LiveRun(b, events[..i], stp).1,
                      if events[i].io == Durable then Step(LiveRun(b, events[..i], stp).0, events[i].input, stp).1 else []);
      }
      assert events[..|events|] == events;
    }

    /** A batch drained from the inbound queue: its orders, then one pass over the parked stops. */
    method ServeBatch(events: seq<Event>)
      requires Valid() && Servable(events) && OneProcess(events) && !wal.broken
      requires forall i :: 0 <= i < |events| && events[i].input.Submit? ==> events[i].input.order.id !in book.seen
      modifies this`stats, this`degraded, this`trades, this`executed, this`dropped, this`fills, this`notified, this`lost, wal
      modifies book`orders, book`userOrders, book`seqNo, book`last, book`bidQueue, book`askQueue, book`seen, book`stops
      modifies book.bids, book.asks
      ensures Valid()
      ensures wal.file == FileOn(old(wal.file), old(wal.seqNo), events) && wal.seqNo == old(wal.seqNo) + |events|
      ensures var (b, made) := LiveRun(old(book.Abs()), events, stp);
        var (after, more) := TriggerStops(b, stp);
        book.Abs() == after && executed == old(executed) + made + more
    {
      hide *;
      Serve(events);
      TriggerParkedStops();
    }

    /** Snapshot of a quiescent engine, with the number of the last journal append. */
    method TakeSnapshot() returns (s: Snapshot)
      requires Valid()
      ensures IsSnapshotOf(s, book.Abs(), wal.seqNo)
    {
      s := book.TakeSnapshot(wal.seqNo);
    }

    /** Executes one record again. */
    method Reexecute(r: Record)
      requires Valid()
      requires r.OrderRecord? ==> r.id !in book.seen && (r.kind == Limit || r.kind == StopLimit ==> r.price.At?)
      modifies this`stats, this`trades, this`executed, this`dropped, this`fills, this`notified, this`lost
      modifies book`orders, book`userOrders, book`seqNo, book`last, book`bidQueue, book`askQueue, book`seen, book`stops
      modifies book.bids, book.asks
      ensures Valid() && book.seen <= old(book.seen) + if r.OrderRecord? then {r.id} else {}
      ensures var (b, again) := ReplayStep(old(book.Abs()), r, stp);
        book.Abs() == b && executed == old(executed) + again
    {
      hide StandsFor, IsHeap, Accounted, Process, Cancel, TradesOf;
      assert executed + [] == executed;
      match r {
        case OrderRecord(_, _, _, _, _, _, _, _, _, _, _) =>
          var o := OrderOf(r);
          if o.Some? {
            var _ := Execute(o.value);
          }
        case CancelRecord(_, _, id, user) =>
          var _ := CancelLocked(id, user);
      }
    }

    /**
     * Re-executes the journal above the snapshot without journaling it again; lines that do not parse are skipped, and
     * the trades go out again.
     */
    method ReplayWAL(file: LogFile, lastWal: nat)
      requires Valid() && Replayable(Records(file.Read()), lastWal, book.seen)
      modifies this`stats, this`trades, this`executed, this`dropped, this`fills, this`notified, this`lost
      modifies book`orders, book`userOrders, book`seqNo, book`last, book`bidQueue, book`askQueue, book`seen, book`stops
      modifies book.bids, book.asks
      ensures Valid()
      ensures var (b, again) := Replay(old(book.Abs()), Records(file.Read()), lastWal, stp);
        book.Abs() == b && executed == old(executed) + again
    {
      hide StandsFor, IsHeap, Accounted, ReplayStep, Replayable, TradesOf;
      ghost var b, seen := book.Abs(), book.seen;
      var lines := file.Read();
      assert lines[..0] == [] && executed + [] == executed;
      for i := 0 to |lines|
        invariant Valid() && book.seen <= seen + ReplayedIds(Records(lines[..i]), lastWal)
        invariant (book.Abs(), executed) == (Replay(b, Records(lines[..i]), lastWal, stp).0,
                                             old(executed) + Replay(b, Records(lines[..i]), lastWal, stp).1)
      {
        assert lines[..i + 1][..i] == lines[..i];
        if lines[i].Corrupt? {
          continue;
        }
        var r := lines[i].rec;
        ghost var log := Records(lines[..i]);
        ReplayNext(b, lines, i, lastWal, seen, stp);
        if r.number <= lastWal {
          continue;
        }
        Reexecute(r);
        assert executed == old(executed) + Replay(b, log + [r], lastWal, stp).1 by {
          FurtherTrades(old(executed), Replay(b, log, lastWal, stp).1, ReplayStep(Replay(b, log, lastWal, stp).0, r, stp).1);
        }
      }
      assert lines[..|lines|] == lines;
    }

    /** Start-up: the snapshot first, then what was journaled after it. */
    method Recover(s: Snapshot, file: LogFile)
      requires Valid()
      requires Restorable(s) && Replayable(Records(file.Read()), s.lastWal, IdsOf(s.orders) + IdsOf(s.stops))
      modifies this, book, book.bids, book.asks
      ensures Valid()
      ensures var (b, again) := Replay(RestoreBook(s), Records(file.Read()), s.lastWal, stp);
        book.Abs() == b && executed == old(executed) + again
    {
      book.Restore(s);
      ReplayWAL(file, s.lastWal);
    }
  }
}
