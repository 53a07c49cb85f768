/**
 * The settlement id of a fill is derived from the pair, the taker's and the maker's order and the fill's price and
 * quantity. Two orders trade with each other at most once in any run, so no two fills of a pair share an id.
 */
module FillIds {
  import opened MatchingTypes
  import opened BookSpec
  import opened MatchingSpec
  import opened MatchingLaws
  import opened LedgerLaws

  datatype FillId = FillId(taker: Id, maker: Id, price: int, quantity: int)

  function FillIdOf(t: Trade): FillId {
    if t.takerSide == Sell then FillId(t.sellOrder, t.buyOrder, t.price, t.quantity)
    else FillId(t.buyOrder, t.sellOrder, t.price, t.quantity)
  }

  predicate Mentions(t: Trade, id: Id) {
    t.buyOrder == id || t.sellOrder == id
  }

  predicate SamePair(t: Trade, u: Trade) {
    t.buyOrder == u.buyOrder && t.sellOrder == u.sellOrder
  }

  /** No two trades are between the same two orders. */
  ghost predicate OncePerPair(trades: seq<Trade>) {
    forall i, j :: 0 <= i < j < |trades| ==> !SamePair(trades[i], trades[j])
  }

  lemma {:induction false} Unmentioned(trades: seq<Trade>, id: Id)
    requires forall t :: t in trades ==> t.quantity > 0
    requires Traded(trades, id) == 0
    ensures forall t :: t in trades ==> !Mentions(t, id)
  {
    if trades != [] {
      assert trades[0] in trades;
      QuantitiesAddUp(trades[1..], id);
      Unmentioned(trades[1..], id);
    }
  }

  lemma {:induction false} QuantitiesAddUp(trades: seq<Trade>, id: Id)
    requires forall t :: t in trades ==> t.quantity > 0
    ensures Traded(trades, id) >= 0
  {
    if trades != [] {
      assert trades[0] in trades;
      QuantitiesAddUp(trades[1..], id);
    }
  }

  /** In one walk every trade is the taker's, and each is with another maker of the queue. */
  lemma {:induction false} WalkPairs(taker: Order, q: seq<Order>, engine: Stp)
    requires PairwiseApart(q) && AbsentFrom(taker.id, q)
    ensures var trades := Walk(taker, q, engine).trades;
      && OncePerPair(trades)
      && (forall t :: t in trades ==> Mentions(t, taker.id) && exists o :: o in q && Mentions(t, o.id) && OfTwo(t, taker, o))
    decreases |q|
  {
    if taker.remaining > 0 && q != [] && Crosses(taker, q[0].price.Units()) {
      TailApart(q);
      assert q[0] in q;
      if SelfTrade(taker, q[0], engine) {
        if Mode(taker, engine) == CancelMaker { WalkPairs(taker, q[1..], engine); }
      } else if taker.remaining >= q[0].remaining {
        var after := TakerAfter(taker, q[0].remaining);
        WalkPairs(after, q[1..], engine);
        HeadPair(taker, q[0], q[1..], TradeOf(taker, q[0], q[0].remaining), Walk(after, q[1..], engine).trades);
      } else {
        assert OfTwo(TradeOf(taker, q[0], taker.remaining), taker, q[0]);
      }
    }
  }

  predicate OfTwo(t: Trade, taker: Order, maker: Order) {
    if taker.side == Sell then t.buyOrder == maker.id && t.sellOrder == taker.id
    else t.buyOrder == taker.id && t.sellOrder == maker.id
  }

  lemma HeadPair(taker: Order, maker: Order, others: seq<Order>, t: Trade, trades: seq<Trade>)
    requires OncePerPair(trades) && OfTwo(t, taker, maker) && AbsentFrom(maker.id, others)
    requires forall u :: u in trades ==> exists o :: o in others && Mentions(u, o.id) && OfTwo(u, taker, o)
    ensures OncePerPair([t] + trades)
  {
    forall j | 0 <= j < |trades| ensures !SamePair(t, trades[j]) {
      assert trades[j] in trades;
      var o :| o in others && Mentions(trades[j], o.id) && OfTwo(trades[j], taker, o);
    }
  }

  lemma NewPairs(trades: seq<Trade>, more: seq<Trade>, id: Id)
    requires OncePerPair(trades) && OncePerPair(more)
    requires forall t :: t in trades ==> !Mentions(t, id)
    requires forall t :: t in more ==> Mentions(t, id)
    ensures OncePerPair(trades + more)
  {
    var all := trades + more;
    forall i, j | 0 <= i < j < |all| ensures !SamePair(all[i], all[j]) {
      if i < |trades| <= j {
        assert trades[i] in trades && more[j - |trades|] in more;
      }
    }
  }

  // ----- every operation -----

  lemma SweepPairs(b: Book, o: Order, engine: Stp, trades: seq<Trade>, known: map<Id, Order>)
    requires WellFormed(b) && Joins(b, o) && Ledger(b, trades, known)
    requires OncePerPair(trades) && Traded(trades, o.id) == 0
    ensures OncePerPair(trades + Sweep(b, o, engine).trades)
  {
    hide Walk;
    var q := b.Queue(o.side.Opposite());
    WalkPairs(o, q, engine);
    Unmentioned(trades, o.id);
    NewPairs(trades, Sweep(b, o, engine).trades, o.id);
  }

  lemma FiredPairs(b: Book, o: Order, engine: Stp, trades: seq<Trade>, known: map<Id, Order>)
    requires WellFormed(b) && Joins(b, o) && Ledger(b, trades, known)
    requires OncePerPair(trades) && Traded(trades, o.id) == 0
    ensures OncePerPair(trades + MatchFired(b, o, engine).trades)
  {
    hide Walk;
    SweepPairs(b, Fired(o), engine, trades, known);
  }

  lemma ProcessPairs(b: Book, o: Order, engine: Stp, trades: seq<Trade>, known: map<Id, Order>)
    requires WellFormed(b) && Acceptable(b, o) && o.id !in known && Ledger(b, trades, known)
    requires OncePerPair(trades)
    ensures OncePerPair(trades + Process(b, o, engine).trades)
  {
    hide Walk, Process, Sweep, MatchFired, OncePerPair;
    assert trades + [] == trades;
    LedgerGrows(b, trades, known, o);
    if o.quantity <= 0 {
      RefusedTradesNothing(b, o, engine);
    } else {
      SweepPairs(b, o, engine, trades, known);
      FiredPairs(b, o, engine, trades, known);
      ProcessTrades(b, o, engine);
    }
  }

  lemma RefusedTradesNothing(b: Book, o: Order, engine: Stp)
    requires o.quantity <= 0
    ensures Process(b, o, engine).trades == []
  {
  }

  /** A new order trades in one sweep, as it is or as the stop it fired as, or not at all. */
  lemma ProcessTrades(b: Book, o: Order, engine: Stp)
    requires Submittable(o) && o.quantity > 0
    ensures var trades := Process(b, o, engine).trades;
      trades == [] || trades == Sweep(b, o, engine).trades || trades == MatchFired(b, o, engine).trades
  {
    hide Walk, Sweep, MatchFired;
  }

  lemma {:induction false} FireAllPairs(b: Book, fired: seq<Order>, engine: Stp, trades: seq<Trade>, known: map<Id, Order>)
    requires WellFormed(b) && AllJoin(b, fired)
    requires Ledger(b, trades, known) && QueueAccounted(fired, trades, known) && StopsAreStops(fired, known)
    requires OncePerPair(trades)
    ensures OncePerPair(trades + FireAll(b, fired, engine).1)
    decreases |fired|
  {
    hide Walk, OncePerPair, MatchFired;
    if fired == [] {
      assert trades + [] == trades;
    } else {
      var first := MatchFired(b, fired[0], engine);
      assert fired[0] in fired;
      FiredPairs(b, fired[0], engine, trades, known);
      FirstFiredLedger(b, fired, engine, trades, known);
      FireAllPairs(first.book, fired[1..], engine, trades + first.trades, known);
      var more := FireAll(first.book, fired[1..], engine).1;
      assert (trades + first.trades) + more == trades + (first.trades + more);
    }
  }

  lemma StepPairs(b: Book, input: Input, engine: Stp, trades: seq<Trade>, known: map<Id, Order>)
    requires WellFormed(b) && Ledger(b, trades, known) && StopsAreStops(b.stops, known)
    requires input.Submit? ==> Acceptable(b, input.order) && input.order.id !in known
    requires OncePerPair(trades)
    ensures OncePerPair(trades + Step(b, input, engine).1)
  {
    hide Walk, OncePerPair, Process, FireAll;
    match input
    case Submit(o) => ProcessPairs(b, o, engine, trades, known);
    case Withdraw(id, user) => assert trades + [] == trades;
    case Trigger =>
      SelectContents(b.stops, b.last, false);
      SelectContents(b.stops, b.last, true);
      SelectedJoin(b);
      FireAllPairs(b.(stops := Select(b.stops, b.last, false)), Select(b.stops, b.last, true), engine, trades, known);
  }

  lemma {:induction false} PairsTradeOnce(inputs: seq<Input>, engine: Stp)
    requires Legal(inputs)
    ensures OncePerPair(Run(EMPTY, inputs, engine).1)
    decreases |inputs|
  {
    if inputs != [] {
      hide OncePerPair, Step;
      var n := |inputs| - 1;
      LegalPrefix(inputs, n);
      PairsTradeOnce(inputs[..n], engine);
      RunLedger(inputs[..n], engine);
      RunIsWellFormed(inputs[..n], engine);
      LastIsAcceptable(inputs, engine);
      if inputs[n].Submit? { UnusedIsUnknown(inputs[..n], inputs[n].order.id); }
      var (b, trades) := Run(EMPTY, inputs[..n], engine);
      StepPairs(b, inputs[n], engine, trades, Submitted(inputs[..n]));
    }
  }

  lemma SameIdSamePair(t: Trade, u: Trade, known: map<Id, Order>)
    requires Honest(t, known) && Honest(u, known) && FillIdOf(t) == FillIdOf(u)
    ensures SamePair(t, u)
  {
  }

  /** Two fills of one run with the same id are the same fill: deduplication by id never drops a genuine one. */
  lemma FillIdsAreUnique(inputs: seq<Input>, engine: Stp, i: nat, j: nat)
    requires Legal(inputs)
    requires var trades := Run(EMPTY, inputs, engine).1;
      i < |trades| && j < |trades| && FillIdOf(trades[i]) == FillIdOf(trades[j])
    ensures i == j
  {
    hide Run;
    var trades := Run(EMPTY, inputs, engine).1;
    PairsTradeOnce(inputs, engine);
    RunLedger(inputs, engine);
    SameIdSamePair(trades[i], trades[j], Submitted(inputs));
  }
}
