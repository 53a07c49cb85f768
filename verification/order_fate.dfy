/**
 * What becomes of an order, told in prices, quantities and users: when it rests, when it may trade with its own user,
 * who can take it out of the book, and for what other reason it can leave.
 */
module OrderFate {
  import opened MatchingTypes
  import opened BookSpec
  import opened MatchingSpec
  import opened MatchingLaws
  import opened UncrossedLaws
  import opened PriorityLaws
  import opened LedgerLaws
  import opened StopLaws
  import E = ExchangeLaws

  // ----- what rests -----

  /** The order with this id that a queue holds. */
  ghost predicate Holds(q: seq<Order>, o: Order) {
    exists x :: x in q && x.id == o.id
  }

  /** It rests with what it did not trade, under its own terms. */
  ghost predicate RestsWith(q: seq<Order>, o: Order, left: int) {
    exists x :: x in q && x.id == o.id && x.user == o.user && x.price == o.price
                && x.remaining == left && x.filled == o.quantity - left
  }

  lemma InsertHolds(q: seq<Order>, o: Order)
    ensures o in Insert(q, o)
  {
    InsertContents(q, o);
  }

  lemma SweepLeaves(b: Book, o: Order, engine: Stp)
    requires WellFormed(b) && Acceptable(b, o) && o.quantity > 0
    ensures var s := Sweep(b, o, engine);
      && SameTerms(s.order, o) && s.order.remaining == o.quantity - Volume(s.trades) >= 0
      && s.order.filled == Volume(s.trades) && s.book.Queue(o.side) == b.Queue(o.side)
      && (forall x :: x in s.book.Queue(o.side.Opposite()) ==> x.id != o.id)
  {
    hide Walk, Eligible;
    var q := b.Queue(o.side.Opposite());
    FillsAllItCan(o, q, engine);
    WalkTaker(o, q, engine);
    WalkRest(o, q, engine);
    ShrunkKeepsAbsent(q, Walk(o, q, engine).rest, o.id);
  }

  /** A limit order rests exactly when it is good till cancelled and was not filled, with the rest of its quantity. */
  lemma LimitRestsIff(b: Book, o: Order, engine: Stp)
    requires WellFormed(b) && Acceptable(b, o) && o.quantity > 0 && o.kind == Limit
    ensures var out := Process(b, o, engine);
      && (Holds(out.book.Queue(o.side), o) <==> o.tif == GTC && Volume(out.trades) < o.quantity)
      && (Holds(out.book.Queue(o.side), o) ==> RestsWith(out.book.Queue(o.side), o, o.quantity - Volume(out.trades)))
      && !Holds(out.book.Queue(o.side.Opposite()), o) && !Holds(out.book.stops, o)
  {
    hide Sweep, WellFormed;
    SweepLeaves(b, o, engine);
    LimitKeepsStops(b, o, engine);
    var s := Sweep(b, o, engine);
    if Rests(s.order) {
      var resting := s.order.(status := if s.order.status == PartiallyFilled then PartiallyFilled else New);
      InsertHolds(b.Queue(o.side), Sequenced(s.book, resting));
    }
  }

  /** A market or immediate-or-cancel order never rests. */
  lemma ImmediateNeverRests(b: Book, o: Order, engine: Stp)
    requires WellFormed(b) && Acceptable(b, o) && (o.kind == Market || o.kind == ImmediateOrCancel)
    ensures var b' := Process(b, o, engine).book; !Holds(b'.bids, o) && !Holds(b'.asks, o) && !Holds(b'.stops, o)
  {
    hide Sweep, WellFormed;
    if o.quantity > 0 {
      SweepLeaves(b, o, engine);
      SweepStops(b, o, engine);
    }
  }

  lemma {:induction false} WalkFills(taker: Order, q: seq<Order>, engine: Stp)
    requires taker.remaining > 0 && forall o :: o in q ==> o.remaining > 0
    ensures var t := Walk(taker, q, engine).taker; t.remaining == 0 ==> t.status == Filled
    decreases |q|
  {
    if q != [] && Crosses(taker, q[0].price.Units()) {
      if SelfTrade(taker, q[0], engine) {
        if Mode(taker, engine) == CancelMaker { WalkFills(taker, q[1..], engine); }
      } else if taker.remaining > q[0].remaining {
        WalkFills(TakerAfter(taker, q[0].remaining), q[1..], engine);
      }
    }
  }

  /** Its status then says whether all, some or nothing of it was traded. */
  lemma ImmediateStatus(b: Book, o: Order, engine: Stp)
    requires WellFormed(b) && Acceptable(b, o) && (o.kind == Market || o.kind == ImmediateOrCancel) && o.quantity > 0
    ensures var out := Process(b, o, engine);
      out.order.status ==
        if Volume(out.trades) == o.quantity then Filled else if Volume(out.trades) > 0 then PartiallyFilled else Cancelled
  {
    hide Walk;
    SweepLeaves(b, o, engine);
    WalkFills(o, b.Queue(o.side.Opposite()), engine);
  }

  lemma SweepStops(b: Book, o: Order, engine: Stp)
    ensures Sweep(b, o, engine).book.stops == b.stops
  {
    hide Walk;
  }

  /** No order on the other side is at a price the order would take. */
  ghost predicate TakesNothing(o: Order, opposite: seq<Order>) {
    forall x :: x in opposite ==> if o.side == Buy then x.price.Units() > o.price.Units() else x.price.Units() < o.price.Units()
  }

  /** A post-only order rests in full when it has a positive price and takes nothing, and otherwise leaves no trace. */
  lemma PostOnlyRestsIff(b: Book, o: Order, engine: Stp)
    requires WellFormed(b) && Acceptable(b, o) && o.quantity > 0 && o.kind == PostOnly
    ensures var out := Process(b, o, engine);
      && out.trades == []
      && if o.price.Units() > 0 && TakesNothing(o, b.Queue(o.side.Opposite()))
         then RestsWith(out.book.Queue(o.side), o, o.quantity)
              && out.book == b.WithQueue(o.side, out.book.Queue(o.side)).(seqNo := b.seqNo + 1)
         else out.book == b
  {
    var q := b.Queue(o.side.Opposite());
    if o.price.Units() > 0 { BestDecides(b, o); }
    InsertHolds(b.Queue(o.side), Sequenced(b, o.(status := New)));
  }

  lemma BestDecides(b: Book, o: Order)
    requires WellFormed(b) && o.kind == PostOnly && o.price.Units() > 0
    ensures var q := b.Queue(o.side.Opposite());
      TakesNothing(o, q) <==> (q == [] || !Crosses(o, q[0].price.Units()))
  {
    var q := b.Queue(o.side.Opposite());
    if q != [] {
      assert q[0] in q;
      forall x | x in q && Crosses(o, x.price.Units()) ensures Crosses(o, q[0].price.Units()) {
        var j :| 0 <= j < |q| && q[j] == x;
        CrossingIsAPrefix(o, q, j);
      }
      if TakesNothing(o, q) { assert !Crosses(o, q[0].price.Units()); }
    }
  }

  /** An order for nothing is refused. */
  lemma NothingIsRefused(b: Book, o: Order, engine: Stp)
    requires o.quantity <= 0
    ensures Process(b, o, engine).book == b && Process(b, o, engine).trades == []
  {
  }

  // ----- self-trade prevention -----

  /** An order's own mode counts, whatever the engine's default. */
  lemma {:induction false} OwnModeCounts(taker: Order, q: seq<Order>, engine: Stp, other: Stp)
    requires taker.stp != Disabled
    ensures Walk(taker, q, engine) == Walk(taker, q, other)
    decreases |q|
  {
    if taker.remaining > 0 && q != [] && Crosses(taker, q[0].price.Units()) {
      if SelfTrade(taker, q[0], engine) {
        if Mode(taker, engine) == CancelMaker { OwnModeCounts(taker, q[1..], engine, other); }
      } else if taker.remaining >= q[0].remaining {
        OwnModeCounts(TakerAfter(taker, q[0].remaining), q[1..], engine, other);
      }
    }
  }

  /** An order without a mode of its own is treated as if it had the engine's. */
  lemma {:induction false} DefaultModeCounts(taker: Order, q: seq<Order>, engine: Stp)
    requires taker.stp == Disabled
    ensures var w, v := Walk(taker, q, engine), Walk(taker.(stp := engine), q, Disabled);
      v.trades == w.trades && v.rest == w.rest
    decreases |q|
  {
    if taker.remaining > 0 && q != [] && Crosses(taker, q[0].price.Units()) {
      if SelfTrade(taker, q[0], engine) {
        if Mode(taker, engine) == CancelMaker { DefaultModeCounts(taker, q[1..], engine); }
      } else {
        var qty := FillQty(taker, q[0]);
        assert TakerAfter(taker.(stp := engine), qty) == TakerAfter(taker, qty).(stp := engine);
        assert TradeOf(taker.(stp := engine), q[0], qty) == TradeOf(taker, q[0], qty);
        hide TakerAfter, TradeOf;
        if qty == q[0].remaining { DefaultModeCounts(TakerAfter(taker, qty), q[1..], engine); }
      }
    }
  }

  /** An order of nobody in particular trades with everyone: prevention is as if it were off. */
  lemma {:induction false} AnonymousTradesFreely(taker: Order, q: seq<Order>, engine: Stp)
    requires taker.user == ""
    ensures var w, v := Walk(taker, q, engine), Walk(taker.(stp := Disabled), q, Disabled);
      v.trades == w.trades && v.rest == w.rest
    decreases |q|
  {
    if taker.remaining > 0 && q != [] && Crosses(taker, q[0].price.Units()) {
      var qty := FillQty(taker, q[0]);
      assert !SelfTrade(taker, q[0], engine) && !SelfTrade(taker.(stp := Disabled), q[0], Disabled);
      assert TakerAfter(taker.(stp := Disabled), qty) == TakerAfter(taker, qty).(stp := Disabled);
      assert TradeOf(taker.(stp := Disabled), q[0], qty) == TradeOf(taker, q[0], qty);
      assert TakerAfter(taker, qty).user == "";
      hide TakerAfter, TradeOf, SelfTrade;
      if qty == q[0].remaining { AnonymousTradesFreely(TakerAfter(taker, qty), q[1..], engine); }
    }
  }

  predicate Prevents(o: Order, engine: Stp) {
    o.stp != Disabled || engine != Disabled
  }

  lemma {:induction false} WalkAvoidsSelf(taker: Order, q: seq<Order>, engine: Stp)
    requires Prevents(taker, engine)
    ensures forall t :: t in Walk(taker, q, engine).trades ==> t.buyer != t.seller || t.buyer == ""
    decreases |q|
  {
    if taker.remaining > 0 && q != [] && Crosses(taker, q[0].price.Units()) {
      if SelfTrade(taker, q[0], engine) {
        if Mode(taker, engine) == CancelMaker { WalkAvoidsSelf(taker, q[1..], engine); }
      } else if taker.remaining >= q[0].remaining {
        WalkAvoidsSelf(TakerAfter(taker, q[0].remaining), q[1..], engine);
      }
    }
  }

  ghost predicate NoSelfTrade(trades: seq<Trade>) {
    forall t :: t in trades ==> t.buyer != t.seller || t.buyer == ""
  }

  lemma SweepAvoidsSelf(b: Book, o: Order, engine: Stp)
    requires Prevents(o, engine)
    ensures NoSelfTrade(MatchLimit(b, o, engine).trades) && NoSelfTrade(MatchImmediate(b, o, engine).trades)
  {
    hide Walk;
    WalkAvoidsSelf(o, b.Queue(o.side.Opposite()), engine);
  }

  lemma ProcessAvoidsSelf(b: Book, o: Order, engine: Stp)
    requires engine != Disabled
    ensures NoSelfTrade(Process(b, o, engine).trades)
  {
    hide MatchLimit, MatchImmediate;
    var x := if o.remaining <= 0 then o.(remaining := o.quantity) else o;
    SweepAvoidsSelf(b, x, engine);
    SweepAvoidsSelf(b, Fired(x), engine);
  }

  lemma {:induction false} FireAllAvoidsSelf(b: Book, fired: seq<Order>, engine: Stp)
    requires engine != Disabled
    ensures NoSelfTrade(FireAll(b, fired, engine).1)
    decreases |fired|
  {
    hide MatchLimit, MatchImmediate;
    if fired != [] {
      SweepAvoidsSelf(b, Fired(fired[0]), engine);
      FireAllAvoidsSelf(MatchFired(b, fired[0], engine).book, fired[1..], engine);
    }
  }

  /** With self-trade prevention on, no run ever trades a user with itself. */
  lemma {:induction false} NobodyTradesWithItself(inputs: seq<Input>, engine: Stp)
    requires engine != Disabled
    ensures NoSelfTrade(Run(EMPTY, inputs, engine).1)
    decreases |inputs|
  {
    hide Process, FireAll, Cancel;
    if inputs != [] {
      var n := |inputs| - 1;
      NobodyTradesWithItself(inputs[..n], engine);
      var b := Run(EMPTY, inputs[..n], engine).0;
      match inputs[n]
      case Submit(o) => ProcessAvoidsSelf(b, o, engine);
      case Withdraw(id, user) =>
      case Trigger => FireAllAvoidsSelf(b.(stops := Select(b.stops, b.last, false)), Select(b.stops, b.last, true), engine);
    }
  }

  // ----- who may cancel -----

  predicate Live(b: Book, x: Order) {
    x in b.bids || x in b.asks
  }

  /** The same book but for one live order. */
  ghost predicate OnlyWithout(b: Book, b': Book, x: Order) {
    && (forall y :: Live(b', y) <==> Live(b, y) && y != x)
    && AbsentFrom(x.id, b'.bids) && AbsentFrom(x.id, b'.asks)
    && b'.stops == b.stops && b'.last == b.last
  }

  lemma FoundWhereItIs(q: seq<Order>, x: Order)
    requires PairwiseApart(q) && x in q
    ensures Find(q, x.id) < |q| && q[Find(q, x.id)] == x
  {
    var k := Find(q, x.id);
    assert k < |q|;
    SameIdSameOrder(q, q[k], x);
  }

  lemma LookupFinds(b: Book, x: Order)
    requires WellFormed(b) && Live(b, x)
    ensures Lookup(b, x.id) == Some(x) && x in b.Queue(x.side)
  {
    if x in b.bids {
      FoundWhereItIs(b.bids, x);
    } else {
      FoundWhereItIs(b.asks, x);
      NotFoundIn(b.bids, x);
    }
  }

  lemma NotFoundIn(q: seq<Order>, x: Order)
    requires ApartFrom(q, x)
    ensures Find(q, x.id) == |q|
  {
    forall k | 0 <= k < |q| ensures q[k].id != x.id {
      assert q[k] in q;
    }
  }

  /** A live order is cancelled by its user or by nobody in particular, and by no one else. */
  lemma CancelledIff(b: Book, x: Order, user: User)
    requires WellFormed(b) && Live(b, x)
    ensures var (b', r) := Cancel(b, x.id, user);
      if user == "" || user == x.user then r == Done(x.(status := Cancelled)) && OnlyWithout(b, b', x)
      else r == NotOwned && b' == b
  {
    hide WellFormed, Without, Lookup;
    LookupFinds(b, x);
    TakenOut(b, x);
  }

  lemma TakenOut(b: Book, x: Order)
    requires WellFormed(b) && x in b.Queue(x.side)
    ensures OnlyWithout(b, Remove(b, x), x)
  {
    hide Without;
    var q := b.Queue(x.side);
    WithoutContents(q, x.id);
    forall y | y in q && y != x ensures y in Without(q, x.id) { PartsApart(q, y, x); }
    var other := b.Queue(x.side.Opposite());
    forall y | y in other ensures y.id != x.id {
      if x.side == Buy { assert ApartFrom(b.bids, y); } else { assert ApartFrom(b.bids, x); }
    }
  }

  /** An id that no live order has, that of a parked stop included, is not found. */
  lemma OnlyLiveAreFound(b: Book, id: Id, user: User)
    requires AbsentFrom(id, b.bids) && AbsentFrom(id, b.asks)
    ensures Cancel(b, id, user) == (b, NotFound)
  {
  }

  // ----- why an order leaves -----

  /** The taker's self-trade prevention takes this order of its user out. */
  predicate PreventedBy(taker: Order, x: Order, engine: Stp) {
    && taker.user == x.user != ""
    && var mode := if taker.stp != Disabled then taker.stp else engine; mode == CancelMaker || mode == CancelBoth
  }

  ghost predicate StaysWith(q: seq<Order>, x: Order, left: int) {
    exists y :: y in q && y.id == x.id && y.user == x.user && y.side == x.side && y.remaining == left
  }

  /** An order that was live is still so, less what it traded; or it traded all; or prevention took it out. */
  ghost predicate Explained(q: seq<Order>, x: Order, trades: seq<Trade>, prevented: bool) {
    || StaysWith(q, x, x.remaining - Traded(trades, x.id))
    || (AbsentFrom(x.id, q) && Traded(trades, x.id) == x.remaining)
    || prevented
  }

  lemma WalkUntouched(q: seq<Order>, x: Order, trades: seq<Trade>, prevented: bool)
    requires x in q && Traded(trades, x.id) == 0
    ensures Explained(q, x, trades, prevented)
  {
  }

  lemma TradedByOne(taker: Order, maker: Order, qty: int, id: Id)
    requires taker.id != maker.id && taker.id != id
    ensures Traded([TradeOf(taker, maker, qty)], id) == if maker.id == id then qty else 0
  {
    assert [TradeOf(taker, maker, qty)][1..] == [];
  }

  lemma {:induction false} WalkExplains(taker: Order, q: seq<Order>, engine: Stp, x: Order)
    requires PairwiseApart(q) && AbsentFrom(taker.id, q) && x in q && forall o :: o in q ==> o.remaining > 0
    ensures var w := Walk(taker, q, engine); Explained(w.rest, x, w.trades, PreventedBy(taker, x, engine))
    decreases |q|
  {
    hide Explained;
    var w := Walk(taker, q, engine);
    if taker.remaining <= 0 || !Crosses(taker, q[0].price.Units()) {
      WalkUntouched(q, x, [], PreventedBy(taker, x, engine));
    } else {
      TailApart(q);
      if SelfTrade(taker, q[0], engine) {
        OwnExplains(taker, q, engine, x);
        if Mode(taker, engine) == CancelMaker && x != q[0] { WalkExplains(taker, q[1..], engine, x); }
      } else if taker.remaining < q[0].remaining {
        PartExplains(taker, q, x, w, PreventedBy(taker, x, engine));
      } else {
        var after := TakerAfter(taker, q[0].remaining);
        var tail := Walk(after, q[1..], engine);
        if x == q[0] {
          UntouchedByWalk(after, q[1..], engine, x.id);
          WalkRest(after, q[1..], engine);
          ShrunkKeepsAbsent(q[1..], tail.rest, x.id);
        } else {
          WalkExplains(after, q[1..], engine, x);
        }
        FillExplains(taker, q, x, tail, PreventedBy(taker, x, engine));
      }
    }
  }

  lemma OwnExplains(taker: Order, q: seq<Order>, engine: Stp, x: Order)
    requires x in q && taker.remaining > 0 && Crosses(taker, q[0].price.Units()) && SelfTrade(taker, q[0], engine)
    ensures Mode(taker, engine) != CancelMaker || x == q[0] ==>
      var w := Walk(taker, q, engine); Explained(w.rest, x, w.trades, PreventedBy(taker, x, engine))
  {
  }

  lemma PartExplains(taker: Order, q: seq<Order>, x: Order, w: Walked, prevented: bool)
    requires q != [] && x in q && AbsentFrom(taker.id, q) && AbsentFrom(q[0].id, q[1..])
    requires w.rest == [MakerAfter(q[0], taker.remaining)] + q[1..] && w.trades == [TradeOf(taker, q[0], taker.remaining)]
    ensures Explained(w.rest, x, w.trades, prevented)
  {
    TradedByOne(taker, q[0], taker.remaining, x.id);
    if x == q[0] { assert w.rest[0].id == x.id; } else { assert x in q[1..] && x in w.rest; }
  }

  lemma FillExplains(taker: Order, q: seq<Order>, x: Order, tail: Walked, prevented: bool)
    requires q != [] && x in q && AbsentFrom(taker.id, q) && AbsentFrom(q[0].id, q[1..])
    requires if x == q[0] then AbsentFrom(x.id, tail.rest) && Traded(tail.trades, x.id) == 0
             else Explained(tail.rest, x, tail.trades, prevented)
    ensures Explained(tail.rest, x, [TradeOf(taker, q[0], q[0].remaining)] + tail.trades, prevented)
  {
    TradedCons(TradeOf(taker, q[0], q[0].remaining), tail.trades, x.id);
    if x != q[0] { assert x in q[1..]; }
  }

  /** An order that joins a queue changes nothing for another one. */
  lemma InsertExplains(q: seq<Order>, o: Order, x: Order, trades: seq<Trade>, prevented: bool)
    requires Explained(q, x, trades, prevented) && o.id != x.id
    ensures Explained(Insert(q, o), x, trades, prevented)
  {
    InsertContents(q, o);
  }

  lemma LiveSide(b: Book, x: Order)
    requires WellFormed(b) && Live(b, x)
    ensures x in b.Queue(x.side) && PairwiseApart(b.Queue(x.side)) && AbsentFrom(x.id, b.Queue(x.side.Opposite()))
    ensures AbsentFrom(x.id, b.stops) && forall o :: o in b.Queue(x.side) ==> o.remaining > 0
  {
    forall y | y in b.Queue(x.side.Opposite()) ensures y.id != x.id {
      if x.side == Buy { assert ApartFrom(b.bids, y); } else { assert ApartFrom(b.bids, x); }
    }
    forall y | y in b.stops ensures y.id != x.id {
      assert ApartFrom(b.bids, y) && ApartFrom(b.asks, y);
    }
  }

  lemma SweepExplains(b: Book, o: Order, engine: Stp, x: Order)
    requires WellFormed(b) && Live(b, x) && AbsentFrom(o.id, b.bids) && AbsentFrom(o.id, b.asks)
    ensures var s := Sweep(b, o, engine); Explained(s.book.Queue(x.side), x, s.trades, PreventedBy(o, x, engine))
  {
    hide Walk, WellFormed, Explained;
    LiveSide(b, x);
    if x.side == o.side {
      UntouchedByWalk(o, b.Queue(o.side.Opposite()), engine, x.id);
      WalkUntouched(b.Queue(x.side), x, Sweep(b, o, engine).trades, PreventedBy(o, x, engine));
    } else {
      WalkExplains(o, b.Queue(x.side), engine, x);
    }
  }

  lemma MatchExplains(b: Book, o: Order, engine: Stp, x: Order)
    requires WellFormed(b) && Live(b, x) && AbsentFrom(o.id, b.bids) && AbsentFrom(o.id, b.asks)
    ensures var out := MatchLimit(b, o, engine); Explained(out.book.Queue(x.side), x, out.trades, PreventedBy(o, x, engine))
    ensures var out := MatchImmediate(b, o, engine); Explained(out.book.Queue(x.side), x, out.trades, PreventedBy(o, x, engine))
  {
    hide Sweep, WellFormed, Explained, Insert, PreventedBy;
    SweepExplains(b, o, engine, x);
    SweepKeepsId(b, o, engine);
    var s := Sweep(b, o, engine);
    var resting := s.order.(status := if s.order.status == PartiallyFilled then PartiallyFilled else New);
    InsertExplains(s.book.Queue(x.side), Sequenced(s.book, resting), x, s.trades, PreventedBy(o, x, engine));
  }

  lemma {:induction false} WalkKeepsId(taker: Order, q: seq<Order>, engine: Stp)
    ensures Walk(taker, q, engine).taker.id == taker.id
    decreases |q|
  {
    if taker.remaining > 0 && q != [] && Crosses(taker, q[0].price.Units()) {
      if SelfTrade(taker, q[0], engine) {
        if Mode(taker, engine) == CancelMaker { WalkKeepsId(taker, q[1..], engine); }
      } else if taker.remaining >= q[0].remaining {
        WalkKeepsId(TakerAfter(taker, q[0].remaining), q[1..], engine);
      }
    }
  }

  lemma SweepKeepsId(b: Book, o: Order, engine: Stp)
    ensures Sweep(b, o, engine).order.id == o.id
  {
    hide Walk;
    WalkKeepsId(o, b.Queue(o.side.Opposite()), engine);
  }

  lemma FiredExplains(b: Book, o: Order, engine: Stp, x: Order)
    requires WellFormed(b) && Live(b, x) && AbsentFrom(o.id, b.bids) && AbsentFrom(o.id, b.asks)
    ensures var out := MatchFired(b, o, engine); Explained(out.book.Queue(x.side), x, out.trades, PreventedBy(o, x, engine))
  {
    hide MatchLimit, MatchImmediate, WellFormed, Explained;
    MatchExplains(b, Fired(o), engine, x);
  }

  lemma ProcessExplains(b: Book, o: Order, engine: Stp, x: Order)
    requires WellFormed(b) && Acceptable(b, o) && Live(b, x)
    ensures var out := Process(b, o, engine); Explained(out.book.Queue(x.side), x, out.trades, PreventedBy(o, x, engine))
  {
    hide MatchLimit, MatchImmediate, MatchFired, WellFormed, Explained, Insert, PreventedBy;
    LiveSide(b, x);
    WalkUntouched(b.Queue(x.side), x, [], PreventedBy(o, x, engine));
    MatchExplains(b, o, engine, x);
    FiredExplains(b, o, engine, x);
    InsertExplains(b.Queue(x.side), Sequenced(b, o.(status := New)), x, [], PreventedBy(o, x, engine));
  }

  // ----- passes over the stops -----

  ghost predicate SomePrevents(fired: seq<Order>, x: Order, engine: Stp) {
    exists y :: y in fired && PreventedBy(y, x, engine)
  }

  /** Two stages, one after the other. */
  lemma StagesExplain(q: seq<Order>, x: Order, y: Order, first: seq<Trade>, more: seq<Trade>, prevented: bool)
    requires y.id == x.id && y.user == x.user && y.side == x.side && y.remaining == x.remaining - Traded(first, x.id)
    requires Explained(q, y, more, prevented)
    ensures Explained(q, x, first + more, prevented)
  {
    TradedAppend(first, more, x.id);
  }

  lemma {:induction false} FireAllExplains(b: Book, fired: seq<Order>, engine: Stp, x: Order)
    requires WellFormed(b) && AllJoin(b, fired) && Live(b, x) && AbsentFrom(x.id, fired)
    ensures var (b', trades) := FireAll(b, fired, engine);
      Explained(b'.Queue(x.side), x, trades, SomePrevents(fired, x, engine))
    decreases |fired|
  {
    hide WellFormed, MatchFired, PreventedBy;
    LiveSide(b, x);
    if fired == [] {
      WalkUntouched(b.Queue(x.side), x, [], SomePrevents(fired, x, engine));
    } else {
      var first := MatchFired(b, fired[0], engine);
      AllJoinTail(b, fired, engine);
      FirstJoins(b, fired);
      FiredExplains(b, fired[0], engine, x);
      var (b', more) := FireAll(first.book, fired[1..], engine);
      if PreventedBy(fired[0], x, engine) {
        assert fired[0] in fired;
      } else if StaysWith(first.book.Queue(x.side), x, x.remaining - Traded(first.trades, x.id)) {
        var y :| y in first.book.Queue(x.side) && y.id == x.id && y.user == x.user && y.side == x.side
                 && y.remaining == x.remaining - Traded(first.trades, x.id);
        FireAllExplains(first.book, fired[1..], engine, y);
        StagesExplain(b'.Queue(x.side), x, y, first.trades, more, SomePrevents(fired[1..], y, engine));
        SomeOfRest(fired, x, y, engine);
      } else {
        GoneStaysGone(b, fired, engine, x);
      }
    }
  }

  lemma FirstJoins(b: Book, fired: seq<Order>)
    requires fired != [] && AllJoin(b, fired)
    ensures AbsentFrom(fired[0].id, b.bids) && AbsentFrom(fired[0].id, b.asks)
  {
    assert Joins(b, fired[0]);
  }

  lemma FiredParked(b: Book, fired: seq<Order>)
    ensures AllJoin(b, fired) && fired != [] ==> Parked(fired[0]) && Joins(b, fired[0])
  {
  }

  lemma SomeOfRest(fired: seq<Order>, x: Order, y: Order, engine: Stp)
    requires fired != [] && y.user == x.user
    ensures SomePrevents(fired[1..], y, engine) ==> SomePrevents(fired, x, engine)
  {
    if SomePrevents(fired[1..], y, engine) {
      var z :| z in fired[1..] && PreventedBy(z, y, engine);
      assert z in fired && PreventedBy(z, x, engine);
    }
  }

  lemma GoneStaysGone(b: Book, fired: seq<Order>, engine: Stp, x: Order)
    requires WellFormed(b) && AllJoin(b, fired) && Live(b, x) && AbsentFrom(x.id, fired) && fired != []
    requires var first := MatchFired(b, fired[0], engine);
      AbsentFrom(x.id, first.book.Queue(x.side)) && Traded(first.trades, x.id) == x.remaining
    ensures var (b', trades) := FireAll(b, fired, engine);
      AbsentFrom(x.id, b'.Queue(x.side)) && Traded(trades, x.id) == x.remaining
  {
    hide WellFormed, MatchFired, AllJoin;
    var first := MatchFired(b, fired[0], engine);
    LiveSide(b, x);
    AllJoinTail(b, fired, engine);
    assert fired[0] in fired;
    FiredParked(b, fired);
    OtherSideWithout(b, fired[0], engine, x);
    FiredKeepsStops(b, fired[0], engine);
    E.FireAllLeavesOut(first.book, fired[1..], engine, x.id);
    FireAllSucceeds(first.book, fired[1..], engine);
    TradedAppend(first.trades, FireAll(first.book, fired[1..], engine).1, x.id);
  }

  lemma OtherSideWithout(b: Book, o: Order, engine: Stp, x: Order)
    requires WellFormed(b) && AbsentFrom(x.id, b.Queue(x.side.Opposite())) && o.id != x.id && Parked(o) && Joins(b, o)
    ensures AbsentFrom(x.id, MatchFired(b, o, engine).book.Queue(x.side.Opposite()))
  {
    hide Sweep, WellFormed, Shrunk, Insert;
    var side := x.side.Opposite();
    SweepKeeps(b, Fired(o), engine);
    SweepKeepsId(b, Fired(o), engine);
    var s := Sweep(b, Fired(o), engine);
    if side == o.side.Opposite() { ShrunkKeepsAbsent(b.Queue(side), s.book.Queue(side), x.id); }
    var resting := s.order.(status := if s.order.status == PartiallyFilled then PartiallyFilled else New);
    InsertContents(s.book.Queue(o.side), Sequenced(s.book, resting));
  }

  /** Why an order that was live is not as it was: it traded, its user took it out, or prevention did. */
  ghost predicate Reason(b: Book, input: Input, engine: Stp, x: Order) {
    match input
    case Submit(o) => PreventedBy(o, x, engine)
    case Withdraw(id, user) => id == x.id && (user == "" || user == x.user)
    case Trigger => exists y :: y in b.stops && !Waits(y, b.last) && PreventedBy(y, x, engine)
  }

  /**
   * Whatever the engine does next, an order that was live still is, with what it traded taken off; or it traded all it
   * had; or its user cancelled it; or self-trade prevention of an order of the same user took it out.
   */
  lemma LeavesForAReason(b: Book, input: Input, engine: Stp, x: Order)
    requires WellFormed(b) && (input.Submit? ==> Acceptable(b, input.order)) && Live(b, x)
    ensures var (b', trades) := Step(b, input, engine); Explained(b'.Queue(x.side), x, trades, Reason(b, input, engine, x))
  {
    hide Process, WellFormed, FireAll, Cancel, PreventedBy, Select, Explained;
    match input
    case Submit(o) => ProcessExplains(b, o, engine, x);
    case Withdraw(id, user) => CancelExplains(b, id, user, x, Reason(b, input, engine, x));
    case Trigger =>
      var c, fired := b.(stops := Select(b.stops, b.last, false)), Select(b.stops, b.last, true);
      SelectedJoin(b);
      Selected(b.stops, b.last, true);
      LiveSide(b, x);
      FireAllExplains(c, fired, engine, x);
      FiredForAReason(b, fired, engine, x);
      ExplainedMore(FireAll(c, fired, engine).0.Queue(x.side), x, FireAll(c, fired, engine).1,
                    SomePrevents(fired, x, engine), Reason(b, input, engine, x));
  }

  lemma ExplainedMore(q: seq<Order>, x: Order, trades: seq<Trade>, p: bool, p': bool)
    requires Explained(q, x, trades, p) && (p ==> p')
    ensures Explained(q, x, trades, p')
  {
  }

  lemma FiredForAReason(b: Book, fired: seq<Order>, engine: Stp, x: Order)
    requires forall y :: y in fired ==> y in b.stops && !Waits(y, b.last)
    ensures SomePrevents(fired, x, engine) ==> Reason(b, Trigger, engine, x)
  {
  }

  lemma CancelExplains(b: Book, id: Id, user: User, x: Order, prevented: bool)
    requires WellFormed(b) && Live(b, x)
    requires id == x.id && (user == "" || user == x.user) ==> prevented
    ensures Explained(Cancel(b, id, user).0.Queue(x.side), x, [], prevented)
  {
    hide WellFormed, Without;
    LiveSide(b, x);
    if id == x.id {
      CancelledIff(b, x, user);
      if user != "" && user != x.user { WalkUntouched(b.Queue(x.side), x, [], prevented); }
    } else {
      WithoutContents(b.Queue(x.side), id);
      if Lookup(b, id).Some? { assert Lookup(b, id).value.id == id; }
      WalkUntouched(Cancel(b, id, user).0.Queue(x.side), x, [], prevented);
    }
  }
}
