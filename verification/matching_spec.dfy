/** What the engine does to a book, told on sorted queues: a walk over the opposite side. */
module MatchingSpec {
  import opened MatchingTypes
  import opened BookSpec

  // ----- one walk -----

  predicate Crosses(taker: Order, price: int) {
    || taker.kind == Market
    || taker.price.NoPrice?
    || (if taker.side == Buy then price <= taker.price.units else price >= taker.price.units)
  }

  function Mode(taker: Order, engine: Stp): Stp {
    if taker.stp == Disabled then engine else taker.stp
  }

  predicate SelfTrade(taker: Order, maker: Order, engine: Stp) {
    Mode(taker, engine) != Disabled && taker.user == maker.user && taker.user != ""
  }

  function FillQty(taker: Order, maker: Order): int {
    if taker.remaining >= maker.remaining then maker.remaining else taker.remaining
  }

  function TakerAfter(taker: Order, qty: int): Order {
    taker.(filled := taker.filled + qty,
           remaining := taker.remaining - qty,
           status := if taker.remaining == qty then Filled else PartiallyFilled)
  }

  function MakerAfter(maker: Order, qty: int): Order {
    maker.(filled := maker.filled + qty, remaining := maker.remaining - qty, status := PartiallyFilled)
  }

  function TradeOf(taker: Order, maker: Order, qty: int): Trade {
    var (buy, sell) := if taker.side == Sell then (maker, taker) else (taker, maker);
    Trade(buy.id, sell.id, buy.user, sell.user, maker.price.Units(), qty, taker.side)
  }

  /** What settlement is told of a trade: what the taker has left, and which of the two orders it completes. */
  datatype FillNotification = FillNotification(trade: Trade, remaining: int, takerFilled: bool, makerFilled: bool)

  function NotificationOf(taker: Order, maker: Order, qty: int): FillNotification {
    FillNotification(TradeOf(taker, maker, qty), taker.remaining - qty, taker.remaining == qty, maker.remaining == qty)
  }

  function TradesOf(fills: seq<FillNotification>): (trades: seq<Trade>)
    ensures |trades| == |fills|
    ensures forall i :: 0 <= i < |fills| ==> trades[i] == fills[i].trade
  {
    if fills == [] then [] else TradesOf(fills[..|fills| - 1]) + [fills[|fills| - 1].trade]
  }

  lemma TradesOfAppend(fills: seq<FillNotification>, f: FillNotification)
    ensures TradesOf(fills + [f]) == TradesOf(fills) + [f.trade]
  {
    assert (fills + [f])[..|fills|] == fills;
  }

  datatype Walked = Walked(taker: Order, rest: seq<Order>, trades: seq<Trade>)

  /** Consumes the opposite queue from its front until the taker is done, nothing crosses or STP stops it. */
  function Walk(taker: Order, opposite: seq<Order>, engine: Stp): (w: Walked)
    ensures |w.rest| <= |opposite|
    decreases |opposite|
  {
    if taker.remaining <= 0 || opposite == [] || !Crosses(taker, opposite[0].price.Units()) then
      Walked(taker, opposite, [])
    else if SelfTrade(taker, opposite[0], engine) then
      if Mode(taker, engine) == CancelTaker then Walked(taker.(status := Cancelled), opposite, [])
      else if Mode(taker, engine) == CancelBoth then Walked(taker.(status := Cancelled), opposite[1..], [])
      else Walk(taker, opposite[1..], engine)
    else
      var qty := FillQty(taker, opposite[0]);
      var trade := TradeOf(taker, opposite[0], qty);
      if qty < opposite[0].remaining then
        Walked(TakerAfter(taker, qty), [MakerAfter(opposite[0], qty)] + opposite[1..], [trade])
      else
        var w := Walk(TakerAfter(taker, qty), opposite[1..], engine);
        Walked(w.taker, w.rest, [trade] + w.trades)
  }

  // ----- operations on the book -----

  datatype Outcome = Outcome(book: Book, order: Order, trades: seq<Trade>)

  function LastPrice(last: int, trades: seq<Trade>): int {
    if trades == [] then last else trades[|trades| - 1].price
  }

  /** The match loop: every removal from the live orders takes one book sequence number. */
  function Sweep(b: Book, o: Order, engine: Stp): Outcome {
    var opposite := b.Queue(o.side.Opposite());
    var w := Walk(o, opposite, engine);
    Outcome(b.WithQueue(o.side.Opposite(), w.rest)
             .(last := LastPrice(b.last, w.trades), seqNo := b.seqNo + (|opposite| - |w.rest|)),
            w.taker, w.trades)
  }

  function Sequenced(b: Book, o: Order): Order {
    if o.bookSeq == 0 then o.(bookSeq := b.seqNo + 1) else o
  }

  function Add(b: Book, o: Order): Book {
    b.WithQueue(o.side, Insert(b.Queue(o.side), Sequenced(b, o))).(seqNo := b.seqNo + 1)
  }

  function Park(b: Book, o: Order): Book {
    b.(stops := b.stops + [Sequenced(b, o)], seqNo := b.seqNo + 1)
  }

  predicate Rests(o: Order) {
    o.remaining > 0 && o.tif == GTC
  }

  function MatchLimit(b: Book, o: Order, engine: Stp): Outcome {
    var s := Sweep(b, o, engine);
    if Rests(s.order) then
      var resting := s.order.(status := if s.order.status == PartiallyFilled then PartiallyFilled else New);
      Outcome(Add(s.book, resting), Sequenced(s.book, resting), s.trades)
    else s
  }

  /** Market and IOC orders never rest. */
  function MatchImmediate(b: Book, o: Order, engine: Stp): Outcome {
    var s := Sweep(b, o, engine);
    if s.order.remaining > 0 then
      s.(order := s.order.(status := if s.order.filled > 0 then PartiallyFilled else Cancelled))
    else s
  }

  function Refuse(b: Book, o: Order): Outcome {
    Outcome(b, o.(status := Rejected), [])
  }

  function MatchPostOnly(b: Book, o: Order): Outcome {
    var opposite := b.Queue(o.side.Opposite());
    if o.price.Units() <= 0 || (opposite != [] && Crosses(o, opposite[0].price.Units())) then
      Refuse(b, o)
    else
      Outcome(Add(b, o.(status := New)), Sequenced(b, o.(status := New)), [])
  }

  predicate Triggers(o: Order, last: int) {
    last > 0 && (if o.side == Buy then last >= o.stopPrice.Units() else last <= o.stopPrice.Units())
  }

  /** What a stop becomes when it fires. */
  function Fired(o: Order): Order {
    o.(kind := if o.kind == StopLoss then Market else Limit)
  }

  function MatchFired(b: Book, o: Order, engine: Stp): Outcome {
    if Fired(o).kind == Market then MatchImmediate(b, Fired(o), engine) else MatchLimit(b, Fired(o), engine)
  }

  function MatchStop(b: Book, o: Order, engine: Stp): Outcome {
    if o.stopPrice.Units() <= 0 then Refuse(b, o)
    else if Triggers(o, b.last) then MatchFired(b, o, engine)
    else Outcome(Park(b, o.(status := New)), Sequenced(b, o.(status := New)), [])
  }

  function Dispatch(b: Book, o: Order, engine: Stp): Outcome {
    match o.kind
    case Limit => MatchLimit(b, o, engine)
    case Market => MatchImmediate(b, o, engine)
    case ImmediateOrCancel => MatchImmediate(b, o, engine)
    case PostOnly => MatchPostOnly(b, o)
    case _ => MatchStop(b, o, engine)
  }

  /** An order that was accepted by the journal. */
  function Process(b: Book, o: Order, engine: Stp): Outcome {
    if o.quantity <= 0 then Refuse(b, o)
    else Dispatch(b, if o.remaining <= 0 then o.(remaining := o.quantity) else o, engine)
  }

  datatype CancelResult = Done(order: Order) | NotFound | NotOwned

  function Lookup(b: Book, id: Id): Option<Order> {
    var i, j := Find(b.bids, id), Find(b.asks, id);
    if i < |b.bids| then Some(b.bids[i]) else if j < |b.asks| then Some(b.asks[j]) else None
  }

  function Remove(b: Book, o: Order): Book {
    b.WithQueue(o.side, Without(b.Queue(o.side), o.id)).(seqNo := b.seqNo + 1)
  }

  /** Cancels reach live orders only; a parked stop is not found. */
  function Cancel(b: Book, id: Id, user: User): (Book, CancelResult) {
    match Lookup(b, id)
    case None => (b, NotFound)
    case Some(o) =>
      if user != "" && o.user != user then (b, NotOwned)
      else (Remove(b, o), Done(o.(status := Cancelled)))
  }

  function Select(stops: seq<Order>, last: int, fire: bool): seq<Order> {
    if stops == [] then []
    else (if Triggers(stops[0], last) == fire then [stops[0]] else []) + Select(stops[1..], last, fire)
  }

  function FireAll(b: Book, fired: seq<Order>, engine: Stp): (Book, seq<Trade>)
    decreases |fired|
  {
    if fired == [] then (b, [])
    else
      var first := MatchFired(b, fired[0], engine);
      var (b', trades) := FireAll(first.book, fired[1..], engine);
      (b', first.trades + trades)
  }

  /** One pass over the parked stops against the last price at its start. */
  function TriggerStops(b: Book, engine: Stp): (Book, seq<Trade>) {
    FireAll(b.(stops := Select(b.stops, b.last, false)), Select(b.stops, b.last, true), engine)
  }

  // ----- runs -----

  datatype Input = Submit(order: Order) | Withdraw(id: Id, user: User) | Trigger

  function Step(b: Book, input: Input, engine: Stp): (Book, seq<Trade>) {
    match input
    case Submit(o) => var out := Process(b, o, engine); (out.book, out.trades)
    case Withdraw(id, user) => (Cancel(b, id, user).0, [])
    case Trigger => TriggerStops(b, engine)
  }

  function Run(b: Book, inputs: seq<Input>, engine: Stp): (Book, seq<Trade>)
    decreases |inputs|
  {
    if inputs == [] then (b, [])
    else
      var (before, trades) := Run(b, inputs[..|inputs| - 1], engine);
      var (after, more) := Step(before, inputs[|inputs| - 1], engine);
      (after, trades + more)
  }

  /** An order as NewOrder makes it. */
  predicate Submittable(o: Order) {
    && o.bookSeq == 0
    && o.filled == 0
    && o.remaining == o.quantity
    && o.status == New
    && (o.kind == Limit || o.kind == StopLimit ==> o.price.At?)
  }
}
