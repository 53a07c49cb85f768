/**
 * When a stop order fires, told in prices: a buy stop waits while the last price is below its stop price, a sell stop
 * while it is above, and both while nothing has traded. A pass over the stops submits the others, in the order in which
 * they were parked, as market and limit orders.
 */
module StopLaws {
  import opened MatchingTypes
  import opened BookSpec
  import opened MatchingSpec
  import opened MatchingLaws

  predicate IsStop(o: Order) {
    o.kind == StopLoss || o.kind == StopLimit
  }

  /** The last price has not reached the stop price. */
  predicate Waits(o: Order, last: int) {
    || last <= 0
    || (o.side == Buy && last < o.stopPrice.Units())
    || (o.side == Sell && last > o.stopPrice.Units())
  }

  /** The order a stop becomes. */
  function Activated(o: Order): Order {
    o.(kind := if o.kind == StopLoss then Market else Limit)
  }

  // ----- a stop arrives -----

  /** A stop is parked behind the others while it waits, and otherwise handled as the order it becomes. */
  lemma ParkedIff(b: Book, o: Order, engine: Stp)
    requires Submittable(o) && IsStop(o) && o.quantity > 0
    ensures var out := Process(b, o, engine);
      if o.stopPrice.Units() <= 0 then out.book == b && out.trades == []
      else if Waits(o, b.last) then
        out.book == b.(stops := b.stops + [o.(bookSeq := b.seqNo + 1)], seqNo := b.seqNo + 1) && out.trades == []
      else out == Process(b, Activated(o), engine)
  {
    hide MatchImmediate, MatchLimit;
  }

  // ----- a pass over the stops -----

  /** The elements of part stand in whole in the same order. */
  predicate InOrder(part: seq<Order>, whole: seq<Order>) {
    part == [] ||
      (whole != [] && ((part[0] == whole[0] && InOrder(part[1..], whole[1..])) || InOrder(part, whole[1..])))
  }

  function Submissions(fired: seq<Order>): (inputs: seq<Input>)
    ensures |inputs| == |fired| && forall i :: 0 <= i < |fired| ==> inputs[i] == Submit(Activated(fired[i]))
  {
    if fired == [] then [] else [Submit(Activated(fired[0]))] + Submissions(fired[1..])
  }

  lemma {:induction false} Selected(stops: seq<Order>, last: int, fire: bool)
    ensures InOrder(Select(stops, last, fire), stops)
    ensures forall o :: o in Select(stops, last, fire) <==> o in stops && Waits(o, last) != fire
    ensures |Select(stops, last, fire)| + |Select(stops, last, !fire)| == |stops|
  {
    if stops != [] {
      Selected(stops[1..], last, fire);
      var rest, part := Select(stops[1..], last, fire), Select(stops, last, fire);
      if Triggers(stops[0], last) == fire {
        assert part[1..] == rest && InOrder(part[1..], stops[1..]);
      } else {
        assert part == rest && InOrder(part, stops[1..]);
      }
    }
  }

  lemma {:induction false} RunCons(b: Book, first: Input, rest: seq<Input>, engine: Stp)
    ensures var (b', made) := Step(b, first, engine);
      Run(b, [first] + rest, engine) == (Run(b', rest, engine).0, made + Run(b', rest, engine).1)
    decreases |rest|
  {
    hide Step;
    var (b', made) := Step(b, first, engine);
    if rest == [] {
      assert [first] + rest == [first] && [first][..0] == [];
      assert [] + made == made && made + [] == made;
    } else {
      var n := |rest| - 1;
      RunCons(b, first, rest[..n], engine);
      assert ([first] + rest)[..n + 1] == [first] + rest[..n];
      var more := Step(Run(b', rest[..n], engine).0, rest[n], engine).1;
      assert made + (Run(b', rest[..n], engine).1 + more) == made + Run(b', rest[..n], engine).1 + more;
    }
  }

  lemma ActivatedRuns(b: Book, o: Order, engine: Stp)
    requires Parked(o)
    ensures Step(b, Submit(Activated(o)), engine) == (MatchFired(b, o, engine).book, MatchFired(b, o, engine).trades)
    ensures MatchFired(b, o, engine).book.stops == b.stops
  {
  }

  lemma {:induction false} FiringRuns(b: Book, fired: seq<Order>, engine: Stp)
    requires forall o :: o in fired ==> Parked(o)
    ensures FireAll(b, fired, engine) == Run(b, Submissions(fired), engine)
    ensures FireAll(b, fired, engine).0.stops == b.stops
    decreases |fired|
  {
    hide Run, Step, MatchFired;
    if fired == [] {
      NothingRuns(b, engine);
    } else {
      ActivatedRuns(b, fired[0], engine);
      FiringRuns(MatchFired(b, fired[0], engine).book, fired[1..], engine);
      RunCons(b, Submit(Activated(fired[0])), Submissions(fired[1..]), engine);
    }
  }

  lemma NothingRuns(b: Book, engine: Stp)
    ensures Run(b, [], engine) == (b, [])
  {
  }

  /**
   * A pass leaves the stops that wait, in their order, and does what submitting the others one after another, in the
   * order they were parked, as market and limit orders would do.
   */
  lemma PassIsARun(b: Book, engine: Stp) returns (kept: seq<Order>, fired: seq<Order>)
    requires WellFormed(b)
    ensures InOrder(kept, b.stops) && InOrder(fired, b.stops) && |kept| + |fired| == |b.stops|
    ensures forall o :: o in b.stops ==> (o in kept <==> Waits(o, b.last)) && (o in fired <==> !Waits(o, b.last))
    ensures TriggerStops(b, engine) == Run(b.(stops := kept), Submissions(fired), engine)
    ensures TriggerStops(b, engine).0.stops == kept
  {
    hide Run, FireAll, InOrder, Select;
    kept, fired := Select(b.stops, b.last, false), Select(b.stops, b.last, true);
    Selected(b.stops, b.last, false);
    Selected(b.stops, b.last, true);
    FiringRuns(b.(stops := kept), fired, engine);
  }

  /**
   * A stop that fires and rests takes the place it was given when it was parked, ahead of whatever arrived at its price
   * since.
   */
  lemma FiredKeepsItsPlace(b: Book, o: Order, engine: Stp, x: Order)
    requires WellFormed(b) && Parked(o) && Joins(b, o) && o.bookSeq > 0 && AbsentFrom(o.id, b.bids) && AbsentFrom(o.id, b.asks)
    requires x in MatchFired(b, o, engine).book.Queue(o.side) && x.id == o.id
    ensures x.bookSeq == o.bookSeq && x.price == o.price
    ensures forall y :: y in MatchFired(b, o, engine).book.Queue(o.side) && y.price == o.price && y.bookSeq > o.bookSeq ==>
      Precedes(x, y)
  {
    hide Walk, Insert;
    var f := Fired(o);
    SweepKeeps(b, f, engine);
    FiredSucceeds(b, o, engine);
    var s := Sweep(b, f, engine);
    if f.kind == Limit && Rests(s.order) {
      var resting := s.order.(status := if s.order.status == PartiallyFilled then PartiallyFilled else New);
      InsertContents(s.book.Queue(o.side), Sequenced(s.book, resting));
    }
  }

  // ----- the last price -----

  /** The price a list of trades ends with. */
  predicate EndsAt(trades: seq<Trade>, before: int, after: int) {
    after == if trades == [] then before else trades[|trades| - 1].price
  }

  lemma EndsThen(t: seq<Trade>, u: seq<Trade>, x: int, y: int, z: int)
    ensures EndsAt(t, x, y) && EndsAt(u, y, z) ==> EndsAt(t + u, x, z)
  {
  }

  lemma MatchEnds(b: Book, o: Order, engine: Stp)
    ensures var out := MatchLimit(b, o, engine); EndsAt(out.trades, b.last, out.book.last)
    ensures var out := MatchImmediate(b, o, engine); EndsAt(out.trades, b.last, out.book.last)
  {
    hide Walk;
  }

  lemma FiredEnds(b: Book, o: Order, engine: Stp)
    ensures EndsAt(MatchFired(b, o, engine).trades, b.last, MatchFired(b, o, engine).book.last)
  {
    hide MatchLimit, MatchImmediate, EndsAt;
    MatchEnds(b, Fired(o), engine);
  }

  lemma RestEnds(b: Book, o: Order)
    ensures MatchPostOnly(b, o).trades == [] && MatchPostOnly(b, o).book.last == b.last
    ensures Park(b, o).last == b.last
  {
  }

  lemma ProcessEnds(b: Book, o: Order, engine: Stp)
    ensures EndsAt(Process(b, o, engine).trades, b.last, Process(b, o, engine).book.last)
  {
    hide MatchLimit, MatchImmediate, MatchPostOnly, MatchFired, Park;
    var x := if o.remaining <= 0 then o.(remaining := o.quantity) else o;
    MatchEnds(b, x, engine);
    FiredEnds(b, x, engine);
    RestEnds(b, x);
    RestEnds(b, x.(status := New));
  }

  lemma {:induction false} FireAllEnds(b: Book, fired: seq<Order>, engine: Stp)
    ensures var (b', trades) := FireAll(b, fired, engine); EndsAt(trades, b.last, b'.last)
    decreases |fired|
  {
    hide MatchFired, EndsAt;
    if fired == [] {
      NothingEnds(b.last);
    } else {
      var first := MatchFired(b, fired[0], engine);
      FiredEnds(b, fired[0], engine);
      FireAllEnds(first.book, fired[1..], engine);
      var (b', trades) := FireAll(first.book, fired[1..], engine);
      EndsThen(first.trades, trades, b.last, first.book.last, b'.last);
    }
  }

  lemma NothingEnds(last: int)
    ensures EndsAt([], last, last)
  {
  }

  lemma StepEnds(b: Book, input: Input, engine: Stp)
    ensures var (b', trades) := Step(b, input, engine); EndsAt(trades, b.last, b'.last)
  {
    hide Process, FireAll, Lookup;
    match input
    case Submit(o) => ProcessEnds(b, o, engine);
    case Withdraw(id, user) =>
    case Trigger => FireAllEnds(b.(stops := Select(b.stops, b.last, false)), Select(b.stops, b.last, true), engine);
  }

  /** In every run, the last price stops look at is the price of the last trade. */
  lemma {:induction false} LastPriceIsTraded(inputs: seq<Input>, engine: Stp)
    ensures var (b, trades) := Run(EMPTY, inputs, engine); b.last == if trades == [] then 0 else trades[|trades| - 1].price
    decreases |inputs|
  {
    hide Step;
    if inputs != [] {
      var n := |inputs| - 1;
      LastPriceIsTraded(inputs[..n], engine);
      var (b, trades) := Run(EMPTY, inputs[..n], engine);
      StepEnds(b, inputs[n], engine);
      var (b', more) := Step(b, inputs[n], engine);
      EndsThen(trades, more, 0, b.last, b'.last);
    }
  }

  /** In every run a pass leaves exactly the stops that the last trade of the run has not reached. */
  lemma StopsWaitForTrades(inputs: seq<Input>, engine: Stp, o: Order)
    requires Legal(inputs) && o in Run(EMPTY, inputs, engine).0.stops
    ensures var trades := Run(EMPTY, inputs, engine).1;
      o in Run(EMPTY, inputs + [Trigger], engine).0.stops
      <==> trades == [] || Waits(o, trades[|trades| - 1].price)
  {
    hide Run, TriggerStops, WellFormed;
    RunIsWellFormed(inputs, engine);
    LastPriceIsTraded(inputs, engine);
    var b := Run(EMPTY, inputs, engine).0;
    var kept, fired := PassIsARun(b, engine);
    TriggerLast(inputs, engine);
  }

  lemma TriggerLast(inputs: seq<Input>, engine: Stp)
    ensures Run(EMPTY, inputs + [Trigger], engine).0 == TriggerStops(Run(EMPTY, inputs, engine).0, engine).0
  {
    hide TriggerStops;
    assert (inputs + [Trigger])[..|inputs|] == inputs;
  }

  // ----- a stop that waits, and then fires -----

  function LimitOrder(id: Id, side: Side, price: int, quantity: int): Order {
    Order(id, id, side, Limit, At(price), NoPrice, quantity, 0, quantity, GTC, New, Disabled, 0, 0)
  }

  const ASK := LimitOrder("ask", Sell, 100, 1)
  const BID := LimitOrder("bid", Buy, 100, 1)
  const DEEP_BID := LimitOrder("deep", Buy, 90, 2)
  const LOW_ASK := LimitOrder("low", Sell, 90, 1)
  const STOP := Order("stop", "stop", Sell, StopLoss, NoPrice, At(90), 1, 0, 1, GTC, New, Disabled, 0, 0)

  /** A trade at 100; a sell stop at 90 is parked and passed over; a trade at 90; and the next pass. */
  const FALLING := [Submit(ASK), Submit(BID), Submit(DEEP_BID), Submit(STOP), Trigger, Submit(LOW_ASK), Trigger]

  const PARKED := Book([DEEP_BID.(bookSeq := 3)], [], [STOP.(bookSeq := 4)], 100, 4)
  const LAST_BID := Order("deep", "deep", Buy, Limit, At(90), NoPrice, 2, 1, 1, GTC, PartiallyFilled, Disabled, 0, 3)
  const FALLEN := Book([LAST_BID], [], [STOP.(bookSeq := 4)], 90, 4)
  const SOLD := Trade("deep", "stop", "deep", "stop", 90, 1, Sell)

  lemma RunMore(inputs: seq<Input>, input: Input, b: Book, trades: seq<Trade>, b': Book, more: seq<Trade>)
    requires Run(EMPTY, inputs, Disabled) == (b, trades) && Step(b, input, Disabled) == (b', more)
    ensures Run(EMPTY, inputs + [input], Disabled) == (b', trades + more)
    ensures more == [] ==> trades + more == trades
  {
    assert (inputs + [input])[..|inputs|] == inputs;
  }

  /** A limit order that meets nothing joins an empty queue. */
  lemma RestsAlone(b: Book, o: Order)
    requires Submittable(o) && o.kind == Limit && o.tif == GTC && o.quantity > 0
    requires b.Queue(Buy) == [] && b.Queue(Sell) == []
    ensures Step(b, Submit(o), Disabled) == (b.WithQueue(o.side, [o.(bookSeq := b.seqNo + 1)]).(seqNo := b.seqNo + 1), [])
  {
    assert Walk(o, [], Disabled) == Walked(o, [], []);
    assert Sweep(b, o, Disabled) == Outcome(b, o, []);
    assert Insert([], o.(bookSeq := b.seqNo + 1)) == [o.(bookSeq := b.seqNo + 1)];
  }

  /** An order that one maker can fill. */
  predicate FilledBy(o: Order, maker: Order) {
    && 0 < o.remaining == o.quantity && o.remaining <= maker.remaining && o.stp == Disabled
    && (o.kind == Limit || o.kind == Market) && Crosses(o, maker.price.Units())
  }

  lemma MeetsOne(o: Order, maker: Order)
    requires FilledBy(o, maker)
    ensures Walk(o, [maker], Disabled) == Walked(
      TakerAfter(o, o.remaining), if o.remaining < maker.remaining then [MakerAfter(maker, o.remaining)] else [],
      [TradeOf(o, maker, o.remaining)])
  {
    assert [maker][1..] == [];
  }

  lemma TradesWithOne(b: Book, o: Order, maker: Order)
    requires FilledBy(o, maker) && b.Queue(o.side.Opposite()) == [maker]
    ensures Step(b, Submit(o), Disabled) ==
      (if o.remaining < maker.remaining
       then b.WithQueue(o.side.Opposite(), [MakerAfter(maker, o.remaining)]).(last := maker.price.Units())
       else b.WithQueue(o.side.Opposite(), []).(last := maker.price.Units(), seqNo := b.seqNo + 1),
       [TradeOf(o, maker, o.remaining)])
  {
    hide Walk, Crosses;
    MeetsOne(o, maker);
  }

  lemma FirstTrade()
    ensures var b := EMPTY.(asks := [ASK.(bookSeq := 1)], seqNo := 1);
      Step(b, Submit(BID), Disabled) == (EMPTY.(last := 100, seqNo := 2), [Trade("bid", "ask", "bid", "ask", 100, 1, Buy)])
  {
    hide Step;
    TradesWithOne(EMPTY.(asks := [ASK.(bookSeq := 1)], seqNo := 1), BID, ASK.(bookSeq := 1));
  }

  lemma StopIsParked()
    ensures var b := Book([DEEP_BID.(bookSeq := 3)], [], [], 100, 3); Step(b, Submit(STOP), Disabled) == (PARKED, [])
  {
    var b := Book([DEEP_BID.(bookSeq := 3)], [], [], 100, 3);
    ParkedIff(b, STOP, Disabled);
    assert [] + [STOP.(bookSeq := 4)] == [STOP.(bookSeq := 4)];
  }

  lemma StopWaits()
    ensures Step(PARKED, Trigger, Disabled) == (PARKED, [])
  {
    SelectOne(STOP.(bookSeq := 4), 100);
  }

  lemma LeftOfDeepBid(maker: Order)
    requires maker == DEEP_BID.(bookSeq := 3)
    ensures MakerAfter(maker, 1) == LAST_BID
  {
  }

  lemma PriceFalls()
    ensures Step(PARKED, Submit(LOW_ASK), Disabled) == (FALLEN, [Trade("deep", "low", "deep", "low", 90, 1, Sell)])
  {
    hide Step, MakerAfter;
    TradesWithOne(PARKED, LOW_ASK, DEEP_BID.(bookSeq := 3));
    LeftOfDeepBid(DEEP_BID.(bookSeq := 3));
  }

  lemma SelectOne(stop: Order, last: int)
    ensures Select([stop], last, true) == if Waits(stop, last) then [] else [stop]
    ensures Select([stop], last, false) == if Waits(stop, last) then [stop] else []
  {
    assert [stop][1..] == [];
    assert forall fire :: Select([], last, fire) == [];
  }

  /** One stop fires, with one maker to fill it. */
  lemma OneFires(b: Book, stop: Order, maker: Order)
    requires b.stops == [stop] && Parked(stop) && !Waits(stop, b.last)
    requires FilledBy(Activated(stop), maker) && b.Queue(stop.side.Opposite()) == [maker]
    ensures Step(b, Trigger, Disabled) == Step(b.(stops := []), Submit(Activated(stop)), Disabled)
  {
    hide MatchFired, Select;
    SelectOne(stop, b.last);
    var after := b.(stops := []);
    ActivatedRuns(after, stop, Disabled);
    var made := MatchFired(after, stop, Disabled);
    assert FireAll(made.book, [], Disabled) == (made.book, []);
    assert FireAll(after, [stop], Disabled) == (made.book, made.trades + []);
    assert made.trades + [] == made.trades;
  }

  lemma OneFiresIntoOne(b: Book, stop: Order, maker: Order)
    requires b.stops == [stop] && Parked(stop) && !Waits(stop, b.last)
    requires FilledBy(Activated(stop), maker) && b.Queue(stop.side.Opposite()) == [maker] && maker.remaining == stop.remaining
    ensures Step(b, Trigger, Disabled) ==
      (b.WithQueue(stop.side.Opposite(), []).(stops := [], last := maker.price.Units(), seqNo := b.seqNo + 1),
       [TradeOf(Activated(stop), maker, stop.remaining)])
  {
    hide Step, FilledBy;
    OneFires(b, stop, maker);
    TradesWithOne(b.(stops := []), Activated(stop), maker);
  }

  lemma StopFires()
    ensures Step(FALLEN, Trigger, Disabled) == (EMPTY.(last := 90, seqNo := 5), [SOLD])
  {
    hide Step;
    assert Parked(STOP.(bookSeq := 4)) && !Waits(STOP.(bookSeq := 4), 90);
    assert FilledBy(Activated(STOP.(bookSeq := 4)), LAST_BID);
    assert TradeOf(Activated(STOP.(bookSeq := 4)), LAST_BID, 1) == SOLD;
    hide FilledBy, Waits, Parked, Activated, TradeOf;
    OneFiresIntoOne(FALLEN, STOP.(bookSeq := 4), LAST_BID);
  }

  lemma FallingIsLegal()
    ensures Legal(FALLING)
  {
    assert FALLING[..5] == [Submit(ASK), Submit(BID), Submit(DEEP_BID), Submit(STOP), Trigger];
  }

  const BEFORE_STOP := Book([DEEP_BID.(bookSeq := 3)], [], [], 100, 3)
  const BOUGHT := Trade("bid", "ask", "bid", "ask", 100, 1, Buy)
  const SOLD_LOW := Trade("deep", "low", "deep", "low", 90, 1, Sell)

  lemma FallingStarts()
    ensures Run(EMPTY, FALLING[..3], Disabled) == (BEFORE_STOP, [BOUGHT])
  {
    hide Run, Step;
    var asked, traded := EMPTY.(asks := [ASK.(bookSeq := 1)], seqNo := 1), EMPTY.(last := 100, seqNo := 2);
    assert FALLING[..1] == [] + [Submit(ASK)] && FALLING[..2] == FALLING[..1] + [Submit(BID)];
    assert FALLING[..3] == FALLING[..2] + [Submit(DEEP_BID)];
    NothingRuns(EMPTY, Disabled);
    RestsAlone(EMPTY, ASK);
    RunMore([], Submit(ASK), EMPTY, [], asked, []);
    FirstTrade();
    RunMore(FALLING[..1], Submit(BID), asked, [], traded, [BOUGHT]);
    assert [] + [BOUGHT] == [BOUGHT];
    RestsAlone(traded, DEEP_BID);
    RunMore(FALLING[..2], Submit(DEEP_BID), traded, [BOUGHT], BEFORE_STOP, []);
  }

  lemma FallingParks()
    ensures Run(EMPTY, FALLING[..5], Disabled) == (PARKED, [BOUGHT])
  {
    hide Run, Step;
    FallingStarts();
    assert FALLING[..4] == FALLING[..3] + [Submit(STOP)] && FALLING[..5] == FALLING[..4] + [Trigger];
    StopIsParked();
    RunMore(FALLING[..3], Submit(STOP), BEFORE_STOP, [BOUGHT], PARKED, []);
    StopWaits();
    RunMore(FALLING[..4], Trigger, PARKED, [BOUGHT], PARKED, []);
  }

  /** A sell stop below the market is passed over at 100, and sells after a trade at its price. */
  lemma StopFiresOnTheWayDown()
    ensures Legal(FALLING)
    ensures Run(EMPTY, FALLING[..5], Disabled).0.stops == [STOP.(bookSeq := 4)]
    ensures Run(EMPTY, FALLING[..6], Disabled).0.stops == [STOP.(bookSeq := 4)]
    ensures Run(EMPTY, FALLING, Disabled) == (EMPTY.(last := 90, seqNo := 5), [BOUGHT, SOLD_LOW, SOLD])
  {
    hide Run, Step, Legal;
    FallingIsLegal();
    FallingParks();
    FallingFalls();
    FallingEnds();
  }

  lemma FallingFalls()
    ensures Run(EMPTY, FALLING[..6], Disabled) == (FALLEN, [BOUGHT, SOLD_LOW])
  {
    hide Run, Step;
    FallingParks();
    PriceFalls();
    assert FALLING[..6] == FALLING[..5] + [Submit(LOW_ASK)];
    RunMore(FALLING[..5], Submit(LOW_ASK), PARKED, [BOUGHT], FALLEN, [SOLD_LOW]);
    assert [BOUGHT] + [SOLD_LOW] == [BOUGHT, SOLD_LOW];
  }

  lemma FallingEnds()
    ensures Run(EMPTY, FALLING, Disabled) == (EMPTY.(last := 90, seqNo := 5), [BOUGHT, SOLD_LOW, SOLD])
  {
    hide Run, Step;
    FallingFalls();
    StopFires();
    assert FALLING == FALLING[..6] + [Trigger];
    RunMore(FALLING[..6], Trigger, FALLEN, [BOUGHT, SOLD_LOW], EMPTY.(last := 90, seqNo := 5), [SOLD]);
    assert [BOUGHT, SOLD_LOW] + [SOLD] == [BOUGHT, SOLD_LOW, SOLD];
  }
}
