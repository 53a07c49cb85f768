/** Over whole runs: every order is filled by exactly its trades, within its quantity and its limit. */
module LedgerLaws {
  import opened MatchingTypes
  import opened BookSpec
  import opened MatchingSpec
  import opened MatchingLaws
  import opened UncrossedLaws
  import opened PriorityLaws

  /** The quantity an order has traded. */
  function Traded(trades: seq<Trade>, id: Id): int {
    if trades == [] then 0
    else (if trades[0].buyOrder == id || trades[0].sellOrder == id then trades[0].quantity else 0)
         + Traded(trades[1..], id)
  }

  lemma {:induction false} TradedAppend(a: seq<Trade>, b: seq<Trade>, id: Id)
    ensures Traded(a + b, id) == Traded(a, id) + Traded(b, id)
  {
    if a == [] {
      assert a + b == b;
    } else {
      assert (a + b)[1..] == a[1..] + b;
      TradedAppend(a[1..], b, id);
    }
  }

  lemma {:induction false} UntouchedByWalk(taker: Order, q: seq<Order>, engine: Stp, id: Id)
    requires id != taker.id && AbsentFrom(id, q)
    ensures Traded(Walk(taker, q, engine).trades, id) == 0
    decreases |q|
  {
    if taker.remaining > 0 && q != [] && Crosses(taker, q[0].price.Units()) {
      assert q[0] in q;
      if SelfTrade(taker, q[0], engine) {
        if Mode(taker, engine) == CancelMaker { UntouchedByWalk(taker, q[1..], engine, id); }
      } else if taker.remaining >= q[0].remaining {
        UntouchedByWalk(TakerAfter(taker, q[0].remaining), q[1..], engine, id);
      }
    }
  }

  lemma {:induction false} TakerTraded(taker: Order, q: seq<Order>, engine: Stp)
    ensures var w := Walk(taker, q, engine);
      w.taker.filled == taker.filled + Traded(w.trades, taker.id)
    decreases |q|
  {
    if taker.remaining > 0 && q != [] && Crosses(taker, q[0].price.Units()) {
      if SelfTrade(taker, q[0], engine) {
        if Mode(taker, engine) == CancelMaker { TakerTraded(taker, q[1..], engine); }
      } else if taker.remaining >= q[0].remaining {
        TakerTraded(TakerAfter(taker, q[0].remaining), q[1..], engine);
      }
    }
  }

  /** A maker that leaves traded at most what it had left; one that stays, exactly its growth. */
  ghost predicate MakersTraded(q: seq<Order>, w: Walked) {
    && (forall o :: o in q ==> 0 <= Traded(w.trades, o.id) <= o.remaining)
    && (forall o, r :: o in q && r in w.rest && o.id == r.id ==>
          r.filled == o.filled + Traded(w.trades, o.id))
  }

  lemma SameIdSameOrder(q: seq<Order>, a: Order, z: Order)
    requires PairwiseApart(q) && a in q && z in q && a.id == z.id
    ensures a == z
  {
    var i :| 0 <= i < |q| && q[i] == a;
    var j :| 0 <= j < |q| && q[j] == z;
    IdsAreApart(q, i, j);
  }

  lemma IdsAreApart(q: seq<Order>, i: nat, j: nat)
    requires PairwiseApart(q) && i < |q| && j < |q|
    ensures i == j || q[i].id != q[j].id
  {
    assert i == j || (i < j && Apart(q[i], q[j])) || Apart(q[j], q[i]);
  }

  lemma TailApart(q: seq<Order>)
    requires PairwiseApart(q) && q != []
    ensures PairwiseApart(q[1..]) && AbsentFrom(q[0].id, q[1..])
  {
    forall i, j | 0 <= i < j < |q[1..]| ensures Apart(q[1..][i], q[1..][j]) {
      assert Apart(q[i + 1], q[j + 1]);
    }
    forall i | 0 <= i < |q[1..]| ensures q[1..][i].id != q[0].id {
      assert Apart(q[0], q[i + 1]);
    }
  }

  lemma TradedCons(t: Trade, trades: seq<Trade>, id: Id)
    ensures Traded([t] + trades, id) ==
      (if t.buyOrder == id || t.sellOrder == id then t.quantity else 0) + Traded(trades, id)
  {
    assert ([t] + trades)[1..] == trades;
  }

  lemma MakersTradedTail(q: seq<Order>, w: Walked, tail: Walked)
    requires q != [] && q[0].remaining > 0
    requires MakersTraded(q[1..], tail)
    requires w.rest == tail.rest && AbsentFrom(q[0].id, w.rest)
    requires 0 <= Traded(w.trades, q[0].id) <= q[0].remaining
    requires forall o :: o in q[1..] ==> Traded(w.trades, o.id) == Traded(tail.trades, o.id)
    ensures MakersTraded(q, w)
  {
    assert forall o :: o in q ==> o == q[0] || o in q[1..];
  }

  lemma HeadTraded(taker: Order, maker: Order, others: seq<Order>, w: Walked, tail: Walked)
    requires taker.id != maker.id && AbsentFrom(maker.id, others) && AbsentFrom(taker.id, others)
    requires w.trades == [TradeOf(taker, maker, maker.remaining)] + tail.trades
    requires Traded(tail.trades, maker.id) == 0
    ensures Traded(w.trades, maker.id) == maker.remaining
    ensures forall o :: o in others ==> Traded(w.trades, o.id) == Traded(tail.trades, o.id)
  {
    TradedCons(TradeOf(taker, maker, maker.remaining), tail.trades, maker.id);
    forall o | o in others ensures Traded(w.trades, o.id) == Traded(tail.trades, o.id) {
      TradedCons(TradeOf(taker, maker, maker.remaining), tail.trades, o.id);
    }
  }

  lemma PartialTraded(taker: Order, q: seq<Order>, w: Walked)
    requires q != [] && PairwiseApart(q) && AbsentFrom(taker.id, q)
    requires 0 < taker.remaining < q[0].remaining
    requires forall o :: o in q ==> o.remaining > 0
    requires w.trades == [TradeOf(taker, q[0], taker.remaining)]
    requires w.rest == [MakerAfter(q[0], taker.remaining)] + q[1..]
    ensures MakersTraded(q, w)
  {
    TailApart(q);
    assert forall o :: o in q ==> o == q[0] || o in q[1..];
    assert forall r :: r in w.rest ==> r == MakerAfter(q[0], taker.remaining) || r in q[1..];
    forall o, r | o in q[1..] && r in q[1..] && o.id == r.id ensures o == r {
      SameIdSameOrder(q, o, r);
    }
  }

  lemma NobodyTraded(q: seq<Order>, w: Walked)
    requires PairwiseApart(q) && forall o :: o in q ==> o.remaining > 0
    requires w.trades == [] && forall r :: r in w.rest ==> r in q
    ensures MakersTraded(q, w)
  {
    forall o, r | o in q && r in w.rest && o.id == r.id ensures o == r {
      SameIdSameOrder(q, o, r);
    }
  }

  lemma {:induction false} WalkMakersTraded(taker: Order, q: seq<Order>, engine: Stp)
    requires PairwiseApart(q) && AbsentFrom(taker.id, q)
    requires forall o :: o in q ==> o.remaining > 0
    ensures MakersTraded(q, Walk(taker, q, engine))
    decreases |q|
  {
    var w := Walk(taker, q, engine);
    if taker.remaining <= 0 || q == [] || !Crosses(taker, q[0].price.Units()) {
      NobodyTraded(q, w);
    } else if SelfTrade(taker, q[0], engine) && Mode(taker, engine) != CancelMaker {
      NobodyTraded(q, w);
    } else {
      TailApart(q);
      if SelfTrade(taker, q[0], engine) {
        assert w == Walk(taker, q[1..], engine);
        WalkMakersTraded(taker, q[1..], engine);
        UntouchedByWalk(taker, q[1..], engine, q[0].id);
        WalkRest(taker, q[1..], engine);
        ShrunkKeepsAbsent(q[1..], w.rest, q[0].id);
        MakersTradedTail(q, w, w);
      } else if taker.remaining >= q[0].remaining {
        var after := TakerAfter(taker, q[0].remaining);
        var tail := Walk(after, q[1..], engine);
        WalkMakersTraded(after, q[1..], engine);
        UntouchedByWalk(after, q[1..], engine, q[0].id);
        HeadTraded(taker, q[0], q[1..], w, tail);
        WalkRest(after, q[1..], engine);
        ShrunkKeepsAbsent(q[1..], tail.rest, q[0].id);
        MakersTradedTail(q, w, tail);
      } else {
        PartialTraded(taker, q, w);
      }
    }
  }

  // ----- the ledger of a run -----

  /** The order has a price that no trade may be worse than. */
  predicate Limited(s: Order) {
    s.price.At? && s.kind != Market && s.kind != StopLoss
  }

  /** o is what became of the submitted order s. */
  predicate Contract(o: Order, s: Order) {
    && o.id == s.id && o.user == s.user && o.side == s.side
    && o.price == s.price && o.quantity == s.quantity
    && (Limited(s) ==> o.kind != Market)
  }

  predicate WithinLimit(s: Order, price: int) {
    Limited(s) ==> if s.side == Buy then price <= s.price.units else price >= s.price.units
  }

  predicate Party(s: Order, side: Side, user: User, price: int) {
    s.side == side && s.user == user && WithinLimit(s, price)
  }

  /** A trade between two submitted orders of opposite sides, at a price both accepted. */
  predicate Honest(t: Trade, known: map<Id, Order>) {
    && t.quantity > 0
    && t.buyOrder in known && Party(known[t.buyOrder], Buy, t.buyer, t.price)
    && t.sellOrder in known && Party(known[t.sellOrder], Sell, t.seller, t.price)
  }

  predicate Accounted(o: Order, trades: seq<Trade>, known: map<Id, Order>) {
    o.id in known && Contract(o, known[o.id]) && o.filled == Traded(trades, o.id)
  }

  ghost predicate QueueAccounted(q: seq<Order>, trades: seq<Trade>, known: map<Id, Order>) {
    forall o :: o in q ==> Accounted(o, trades, known)
  }

  /** An order of no or negative quantity is refused and never trades. */
  function Cap(quantity: int): int {
    if quantity > 0 then quantity else 0
  }

  ghost predicate Ledger(b: Book, trades: seq<Trade>, known: map<Id, Order>) {
    && QueueAccounted(b.bids, trades, known)
    && QueueAccounted(b.asks, trades, known)
    && QueueAccounted(b.stops, trades, known)
    && (forall id :: id in known ==> 0 <= Traded(trades, id) <= Cap(known[id].quantity))
    && (forall t :: t in trades ==> Honest(t, known))
  }

  lemma WalkHonest(taker: Order, q: seq<Order>, engine: Stp, known: map<Id, Order>)
    requires Facing(taker, q)
    requires taker.id in known && Contract(taker, known[taker.id])
    requires forall o :: o in q ==> o.id in known && Contract(o, known[o.id])
    ensures forall t :: t in Walk(taker, q, engine).trades ==> Honest(t, known)
  {
    var trades := Walk(taker, q, engine).trades;
    var eligible := Eligible(taker, q, engine);
    FillsInPriorityOrder(taker, q, engine);
    CounterpartiesContents(taker, Reach(taker, q, engine), engine);
    forall i | 0 <= i < |trades| ensures Honest(trades[i], known) {
      assert eligible[i] in q;
    }
  }

  lemma UntouchedQueue(q: seq<Order>, taker: Order, opposite: seq<Order>, engine: Stp,
                       trades: seq<Trade>, known: map<Id, Order>)
    requires QueueAccounted(q, trades, known)
    requires AbsentFrom(taker.id, q) && forall o :: o in q ==> AbsentFrom(o.id, opposite)
    ensures QueueAccounted(q, trades + Walk(taker, opposite, engine).trades, known)
  {
    var more := Walk(taker, opposite, engine).trades;
    forall o | o in q ensures Accounted(o, trades + more, known) {
      UntouchedByWalk(taker, opposite, engine, o.id);
      TradedAppend(trades, more, o.id);
    }
  }

  lemma RestAccounted(q: seq<Order>, w: Walked, trades: seq<Trade>, known: map<Id, Order>)
    requires QueueAccounted(q, trades, known)
    requires MakersTraded(q, w) && Shrunk(q, w.rest)
    ensures QueueAccounted(w.rest, trades + w.trades, known)
  {
    var k := ShrunkOrders(q, w.rest);
    forall i | 0 <= i < |w.rest| ensures Accounted(w.rest[i], trades + w.trades, known) {
      assert q[k + i] in q && Accounted(q[k + i], trades, known);
      TradedAppend(trades, w.trades, q[k + i].id);
    }
  }

  lemma BoundedAfterWalk(taker: Order, q: seq<Order>, engine: Stp, trades: seq<Trade>, id: Id, quantity: int)
    requires Active(taker) && PairwiseApart(q) && AbsentFrom(taker.id, q)
    requires forall o :: o in q ==> Resting(o)
    requires 0 <= Traded(trades, id) <= Cap(quantity)
    requires taker.id == id ==> taker.filled == Traded(trades, id) && taker.quantity == quantity
    requires forall o :: o in q && o.id == id ==> o.filled == Traded(trades, id) && o.quantity == quantity
    ensures 0 <= Traded(trades + Walk(taker, q, engine).trades, id) <= Cap(quantity)
  {
    var w := Walk(taker, q, engine);
    TradedAppend(trades, w.trades, id);
    WalkTaker(taker, q, engine);
    TakerTraded(taker, q, engine);
    WalkMakersTraded(taker, q, engine);
    if id != taker.id && AbsentFrom(id, q) {
      UntouchedByWalk(taker, q, engine, id);
    }
  }

  lemma SweepLedger(b: Book, o: Order, engine: Stp, trades: seq<Trade>, known: map<Id, Order>)
    requires WellFormed(b) && Active(o) && Joins(b, o)
    requires Ledger(b, trades, known) && Accounted(o, trades, known)
    ensures var s := Sweep(b, o, engine);
      Ledger(s.book, trades + s.trades, known) && Accounted(s.order, trades + s.trades, known)
  {
    hide Walk;
    var side := o.side.Opposite();
    var q := b.Queue(side);
    var s := Sweep(b, o, engine);
    WalkHonest(o, q, engine, known);
    UntouchedQueue(b.Queue(o.side), o, q, engine, trades, known);
    UntouchedQueue(b.stops, o, q, engine, trades, known);
    WalkMakersTraded(o, q, engine);
    WalkRest(o, q, engine);
    RestAccounted(q, Walk(o, q, engine), trades, known);
    forall id | id in known
      ensures 0 <= Traded(trades + s.trades, id) <= Cap(known[id].quantity)
    {
      BoundedAfterWalk(o, q, engine, trades, id, known[id].quantity);
    }
    WalkTaker(o, q, engine);
    TakerTraded(o, q, engine);
    TradedAppend(trades, s.trades, o.id);
  }

  /** The flags of a notification say which of the two orders have traded their whole quantity with that trade. */
  lemma FlagsMeanCompletion(b: Book, taker: Order, trades: seq<Trade>, known: map<Id, Order>)
    requires WellFormed(b) && Active(taker) && taker.remaining > 0 && Ledger(b, trades, known) && Accounted(taker, trades, known)
    requires b.Queue(taker.side.Opposite()) != [] && AbsentFrom(taker.id, b.Queue(taker.side.Opposite()))
    ensures var maker := b.Queue(taker.side.Opposite())[0];
      var f := NotificationOf(taker, maker, FillQty(taker, maker));
      && (f.takerFilled <==> Traded(trades + [f.trade], taker.id) == known[taker.id].quantity)
      && (f.makerFilled <==> Traded(trades + [f.trade], maker.id) == known[maker.id].quantity)
  {
    var maker := b.Queue(taker.side.Opposite())[0];
    var f := NotificationOf(taker, maker, FillQty(taker, maker));
    assert maker in b.Queue(taker.side.Opposite());
    assert [f.trade][1..] == [];
    TradedAppend(trades, [f.trade], taker.id);
    TradedAppend(trades, [f.trade], maker.id);
  }

  lemma AddLedger(b: Book, o: Order, trades: seq<Trade>, known: map<Id, Order>)
    requires Ledger(b, trades, known) && Accounted(o, trades, known)
    ensures Ledger(Add(b, o), trades, known)
  {
    InsertContents(b.Queue(o.side), Sequenced(b, o));
  }

  lemma LimitLedger(b: Book, o: Order, engine: Stp, trades: seq<Trade>, known: map<Id, Order>)
    requires WellFormed(b) && Active(o) && Joins(b, o)
    requires Ledger(b, trades, known) && Accounted(o, trades, known)
    ensures var out := MatchLimit(b, o, engine); Ledger(out.book, trades + out.trades, known)
  {
    hide Walk;
    SweepLedger(b, o, engine, trades, known);
    var s := Sweep(b, o, engine);
    if Rests(s.order) {
      var resting := s.order.(status := if s.order.status == PartiallyFilled then PartiallyFilled else New);
      AddLedger(s.book, resting, trades + s.trades, known);
    }
  }

  lemma FiredLedger(b: Book, o: Order, engine: Stp, trades: seq<Trade>, known: map<Id, Order>)
    requires WellFormed(b) && Parked(o) && Joins(b, o)
    requires Ledger(b, trades, known) && Accounted(o, trades, known)
    requires Limited(known[o.id]) ==> o.kind != StopLoss
    ensures var out := MatchFired(b, o, engine); Ledger(out.book, trades + out.trades, known)
  {
    hide Walk;
    if Fired(o).kind == Market {
      SweepLedger(b, Fired(o), engine, trades, known);
    } else {
      LimitLedger(b, Fired(o), engine, trades, known);
    }
  }

  lemma {:induction false} TradesAreKnown(trades: seq<Trade>, known: map<Id, Order>, id: Id)
    requires forall t :: t in trades ==> Honest(t, known)
    requires id !in known
    ensures Traded(trades, id) == 0
  {
    if trades != [] {
      assert Honest(trades[0], known);
      TradesAreKnown(trades[1..], known, id);
    }
  }

  lemma LedgerGrows(b: Book, trades: seq<Trade>, known: map<Id, Order>, o: Order)
    requires Ledger(b, trades, known) && o.id !in known
    ensures Ledger(b, trades, known[o.id := o])
    ensures Traded(trades, o.id) == 0
  {
    TradesAreKnown(trades, known, o.id);
  }

  /** Stops in the book are stop orders as submitted. */
  ghost predicate StopsAreStops(stops: seq<Order>, known: map<Id, Order>) {
    forall o :: o in stops ==> o.id in known && o.kind == known[o.id].kind
  }

  lemma ProcessLedger(b: Book, o: Order, engine: Stp, trades: seq<Trade>, known: map<Id, Order>)
    requires WellFormed(b) && Acceptable(b, o) && o.id !in known
    requires Ledger(b, trades, known)
    ensures var out := Process(b, o, engine); Ledger(out.book, trades + out.trades, known[o.id := o])
  {
    hide Walk;
    LedgerGrows(b, trades, known, o);
    var known' := known[o.id := o];
    assert trades + [] == trades;
    if o.quantity > 0 {
      match o.kind
      case Limit => LimitLedger(b, o, engine, trades, known');
      case Market => SweepLedger(b, o, engine, trades, known');
      case ImmediateOrCancel => SweepLedger(b, o, engine, trades, known');
      case PostOnly => AddLedger(b, o.(status := New), trades, known');
      case _ =>
        if o.stopPrice.Units() > 0 && Triggers(o, b.last) {
          FiredLedger(b, o, engine, trades, known');
        }
    }
  }

  lemma FirstFiredLedger(b: Book, fired: seq<Order>, engine: Stp, trades: seq<Trade>, known: map<Id, Order>)
    requires fired != [] && WellFormed(b) && AllJoin(b, fired)
    requires Ledger(b, trades, known) && QueueAccounted(fired, trades, known) && StopsAreStops(fired, known)
    ensures var first := MatchFired(b, fired[0], engine);
      && WellFormed(first.book) && AllJoin(first.book, fired[1..])
      && Ledger(first.book, trades + first.trades, known)
      && QueueAccounted(fired[1..], trades + first.trades, known) && StopsAreStops(fired[1..], known)
  {
    hide Walk;
    FiredLedger(b, fired[0], engine, trades, known);
    AllJoinTail(b, fired, engine);
    OthersAccounted(b, fired, engine, trades, known);
  }

  lemma {:induction false} FireAllLedger(b: Book, fired: seq<Order>, engine: Stp, trades: seq<Trade>, known: map<Id, Order>)
    requires WellFormed(b) && AllJoin(b, fired)
    requires Ledger(b, trades, known) && QueueAccounted(fired, trades, known) && StopsAreStops(fired, known)
    ensures Ledger(FireAll(b, fired, engine).0, trades + FireAll(b, fired, engine).1, known)
    decreases |fired|, 0
  {
    if fired == [] {
      assert trades + [] == trades;
    } else {
      FirstFiredLedger(b, fired, engine, trades, known);
      FireRestLedger(MatchFired(b, fired[0], engine), fired[1..], engine, trades, known);
    }
  }

  lemma {:induction false} FireRestLedger(first: Outcome, fired: seq<Order>, engine: Stp, trades: seq<Trade>, known: map<Id, Order>)
    requires WellFormed(first.book) && AllJoin(first.book, fired) && Ledger(first.book, trades + first.trades, known)
    requires QueueAccounted(fired, trades + first.trades, known) && StopsAreStops(fired, known)
    ensures Ledger(FireAll(first.book, fired, engine).0,
                   trades + (first.trades + FireAll(first.book, fired, engine).1), known)
    decreases |fired|, 1
  {
    FireAllLedger(first.book, fired, engine, trades + first.trades, known);
    var more := FireAll(first.book, fired, engine).1;
    assert (trades + first.trades) + more == trades + (first.trades + more);
  }

  /** The stops still to fire traded nothing while the first one did. */
  lemma OthersAccounted(b: Book, fired: seq<Order>, engine: Stp, trades: seq<Trade>, known: map<Id, Order>)
    requires fired != [] && AllJoin(b, fired) && QueueAccounted(fired, trades, known)
    ensures QueueAccounted(fired[1..], trades + MatchFired(b, fired[0], engine).trades, known)
  {
    hide Walk;
    var o := Fired(fired[0]);
    var q := b.Queue(o.side.Opposite());
    forall i | 0 < i < |fired| ensures fired[i].id != o.id && AbsentFrom(fired[i].id, q) {
      assert Apart(fired[0], fired[i]);
      assert Joins(b, fired[i]);
    }
    forall x | x in fired[1..] ensures x.id != o.id && AbsentFrom(x.id, q) && x in fired {
      var i :| 0 <= i < |fired[1..]| && fired[1..][i] == x;
      assert fired[i + 1] == x;
    }
    UntouchedQueue(fired[1..], o, q, engine, trades, known);
  }

  lemma TriggerLedger(b: Book, engine: Stp, trades: seq<Trade>, known: map<Id, Order>)
    requires WellFormed(b) && Ledger(b, trades, known) && StopsAreStops(b.stops, known)
    ensures var (b', more) := TriggerStops(b, engine); Ledger(b', trades + more, known)
    ensures StopsAreStops(TriggerStops(b, engine).0.stops, known)
  {
    var parked := b.(stops := Select(b.stops, b.last, false));
    var fired := Select(b.stops, b.last, true);
    SelectContents(b.stops, b.last, false);
    SelectContents(b.stops, b.last, true);
    SelectedJoin(b);
    FireAllLedger(parked, fired, engine, trades, known);
    FireAllKeepsStops(parked, fired, engine);
  }

  lemma {:induction false} FireAllKeepsStops(b: Book, fired: seq<Order>, engine: Stp)
    ensures FireAll(b, fired, engine).0.stops == b.stops
    decreases |fired|
  {
    if fired != [] {
      FiredKeepsStops(b, fired[0], engine);
      FireAllKeepsStops(MatchFired(b, fired[0], engine).book, fired[1..], engine);
    }
  }

  /** The orders submitted by a run, by id. */
  function Submitted(inputs: seq<Input>): map<Id, Order> {
    if inputs == [] then map[]
    else
      var before := Submitted(inputs[..|inputs| - 1]);
      var last := inputs[|inputs| - 1];
      if last.Submit? then before[last.order.id := last.order] else before
  }

  lemma ProcessStopsAreStops(b: Book, o: Order, engine: Stp, known: map<Id, Order>)
    requires Submittable(o) && o.id !in known && StopsAreStops(b.stops, known)
    ensures StopsAreStops(Process(b, o, engine).book.stops, known[o.id := o])
  {
    ProcessKeepsStops(b, o, engine);
    StopsGrow(b.stops, Process(b, o, engine).book.stops, o, Sequenced(b, o.(status := New)), known);
  }

  lemma StopsGrow(stops: seq<Order>, stops': seq<Order>, o: Order, parked: Order, known: map<Id, Order>)
    requires o.id !in known && StopsAreStops(stops, known)
    requires stops' == stops || stops' == stops + [parked]
    requires parked.id == o.id && parked.kind == o.kind
    ensures StopsAreStops(stops', known[o.id := o])
  {
  }

  lemma StepLedger(b: Book, input: Input, engine: Stp, trades: seq<Trade>, known: map<Id, Order>)
    requires WellFormed(b) && Ledger(b, trades, known) && StopsAreStops(b.stops, known)
    requires input.Submit? ==> Acceptable(b, input.order) && input.order.id !in known
    ensures var (b', more) := Step(b, input, engine);
      var known' := if input.Submit? then known[input.order.id := input.order] else known;
      Ledger(b', trades + more, known') && StopsAreStops(b'.stops, known')
  {
    hide Process, Cancel, TriggerStops, Ledger;
    match input
    case Submit(o) =>
      ProcessLedger(b, o, engine, trades, known);
      ProcessStopsAreStops(b, o, engine, known);
    case Withdraw(id, user) => CancelLedger(b, id, user, trades, known);
    case Trigger => TriggerLedger(b, engine, trades, known);
  }

  lemma CancelLedger(b: Book, id: Id, user: User, trades: seq<Trade>, known: map<Id, Order>)
    requires Ledger(b, trades, known) && StopsAreStops(b.stops, known)
    ensures var b' := Cancel(b, id, user).0; Ledger(b', trades + [], known) && StopsAreStops(b'.stops, known)
  {
    assert trades + [] == trades;
    if Lookup(b, id).Some? {
      WithoutContents(b.Queue(Lookup(b, id).value.side), id);
    }
  }

  lemma {:induction false} UnusedIsUnknown(inputs: seq<Input>, id: Id)
    ensures Unused(id, inputs) <==> id !in Submitted(inputs)
  {
    if inputs != [] {
      var n := |inputs| - 1;
      UnusedIsUnknown(inputs[..n], id);
      assert Unused(id, inputs) ==> Unused(id, inputs[..n]);
      assert forall i :: 0 <= i < n ==> inputs[..n][i] == inputs[i];
    }
  }

  /** In every run the book, the trades and the submitted orders agree, order by order. */
  lemma {:induction false} RunLedger(inputs: seq<Input>, engine: Stp)
    requires Legal(inputs)
    ensures var (b, trades) := Run(EMPTY, inputs, engine);
      Ledger(b, trades, Submitted(inputs)) && StopsAreStops(b.stops, Submitted(inputs))
    decreases |inputs|
  {
    if inputs != [] {
      var n := |inputs| - 1;
      LegalPrefix(inputs, n);
      RunLedger(inputs[..n], engine);
      RunIsWellFormed(inputs[..n], engine);
      LastIsAcceptable(inputs, engine);
      if inputs[n].Submit? { UnusedIsUnknown(inputs[..n], inputs[n].order.id); }
      var (b, trades) := Run(EMPTY, inputs[..n], engine);
      StepLedger(b, inputs[n], engine, trades, Submitted(inputs[..n]));
    }
  }

  // ----- what was bought is what was sold -----

  /** The total that the submitted orders of one side have traded. */
  function SideFills(inputs: seq<Input>, trades: seq<Trade>, side: Side): int {
    if inputs == [] then 0
    else
      var last := inputs[|inputs| - 1];
      SideFills(inputs[..|inputs| - 1], trades, side)
        + (if last.Submit? && last.order.side == side then Traded(trades, last.order.id) else 0)
  }

  function IdOn(t: Trade, side: Side): Id {
    if side == Buy then t.buyOrder else t.sellOrder
  }

  lemma {:induction false} SideFillsCons(inputs: seq<Input>, t: Trade, trades: seq<Trade>, side: Side)
    requires Legal(inputs)
    requires forall i :: 0 <= i < |inputs| && inputs[i].Submit? && inputs[i].order.side == side ==>
      inputs[i].order.id != IdOn(t, side.Opposite())
    ensures SideFills(inputs, [t] + trades, side) == SideFills(inputs, trades, side)
      + (if IdOn(t, side) in Submitted(inputs) && Submitted(inputs)[IdOn(t, side)].side == side then t.quantity else 0)
    decreases |inputs|
  {
    if inputs != [] {
      var n := |inputs| - 1;
      LegalPrefix(inputs, n);
      SideFillsCons(inputs[..n], t, trades, side);
      if inputs[n].Submit? {
        UnusedIsUnknown(inputs[..n], inputs[n].order.id);
        TradedCons(t, trades, inputs[n].order.id);
      }
    }
  }

  lemma {:induction false} KnownOnce(inputs: seq<Input>, i: nat)
    requires Legal(inputs) && i < |inputs| && inputs[i].Submit?
    ensures inputs[i].order.id in Submitted(inputs) && Submitted(inputs)[inputs[i].order.id] == inputs[i].order
    decreases |inputs|
  {
    var n := |inputs| - 1;
    if i < n {
      LegalPrefix(inputs, n);
      KnownOnce(inputs[..n], i);
      if inputs[n].Submit? { UnusedIsUnknown(inputs[..n], inputs[n].order.id); }
    }
  }

  lemma {:induction false} SideFillsAreVolume(inputs: seq<Input>, trades: seq<Trade>, side: Side)
    requires Legal(inputs) && forall t :: t in trades ==> Honest(t, Submitted(inputs))
    ensures SideFills(inputs, trades, side) == Volume(trades)
    decreases |trades|
  {
    if trades == [] {
      NothingTraded(inputs, side);
    } else {
      var t := trades[0];
      assert trades == [t] + trades[1..];
      assert Honest(t, Submitted(inputs));
      forall i | 0 <= i < |inputs| && inputs[i].Submit? && inputs[i].order.side == side
        ensures inputs[i].order.id != IdOn(t, side.Opposite())
      {
        KnownOnce(inputs, i);
      }
      SideFillsCons(inputs, t, trades[1..], side);
      SideFillsAreVolume(inputs, trades[1..], side);
    }
  }

  lemma {:induction false} NothingTraded(inputs: seq<Input>, side: Side)
    ensures SideFills(inputs, [], side) == 0
  {
    if inputs != [] { NothingTraded(inputs[..|inputs| - 1], side); }
  }

  /** Trade conservation over a whole run. */
  lemma BoughtEqualsSold(inputs: seq<Input>, engine: Stp)
    requires Legal(inputs)
    ensures var trades := Run(EMPTY, inputs, engine).1;
      SideFills(inputs, trades, Buy) == Volume(trades) == SideFills(inputs, trades, Sell)
  {
    RunLedger(inputs, engine);
    var trades := Run(EMPTY, inputs, engine).1;
    SideFillsAreVolume(inputs, trades, Buy);
    SideFillsAreVolume(inputs, trades, Sell);
  }
}
