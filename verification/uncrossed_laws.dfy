/** The book is never crossed, and exactly when self-trade prevention would break that. */
module UncrossedLaws {
  import opened MatchingTypes
  import opened BookSpec
  import opened MatchingSpec
  import opened MatchingLaws

  /** A queue the taker may walk over. */
  ghost predicate Facing(taker: Order, q: seq<Order>) {
    Sorted(q) && forall o :: o in q ==> o.side == taker.side.Opposite() && Resting(o)
  }

  function Liquidity(q: seq<Order>): int {
    if q == [] then 0 else q[0].remaining + Liquidity(q[1..])
  }

  lemma {:induction false} LiquidityPositive(q: seq<Order>)
    requires forall o :: o in q ==> o.remaining > 0
    ensures Liquidity(q) >= |q|
  {
    if q != [] { LiquidityPositive(q[1..]); }
  }

  /** The first order of the queue that self-trade prevention would catch, or the queue's length. */
  function FirstOwn(taker: Order, q: seq<Order>, engine: Stp): (k: nat)
    ensures k <= |q|
    ensures k < |q| ==> SelfTrade(taker, q[k], engine)
    ensures forall i :: 0 <= i < k ==> !SelfTrade(taker, q[i], engine)
  {
    if q == [] || SelfTrade(taker, q[0], engine) then 0 else 1 + FirstOwn(taker, q[1..], engine)
  }

  predicate CancelsTaker(mode: Stp) {
    mode == CancelTaker || mode == CancelBoth
  }

  /** The walk will stop on an own order while quantity is left and something still crosses. */
  predicate Stranded(taker: Order, q: seq<Order>, engine: Stp) {
    var k := FirstOwn(taker, q, engine);
    && CancelsTaker(Mode(taker, engine))
    && k < |q| && Crosses(taker, q[k].price.Units())
    && Liquidity(q[..k]) < taker.remaining
    && (Mode(taker, engine) == CancelBoth ==> k + 1 < |q| && Crosses(taker, q[k + 1].price.Units()))
  }

  predicate StillCrossing(w: Walked) {
    w.taker.remaining > 0 && w.rest != [] && Crosses(w.taker, w.rest[0].price.Units())
  }

  lemma CrossingIsAPrefix(taker: Order, q: seq<Order>, j: nat)
    requires Facing(taker, q) && j < |q| && Crosses(taker, q[j].price.Units())
    ensures Crosses(taker, q[0].price.Units())
  {
    assert q[0] in q && q[j] in q;
    assert 0 < j ==> Precedes(q[0], q[j]);
  }

  lemma {:induction false} WalkEnd(taker: Order, q: seq<Order>, engine: Stp)
    requires Facing(taker, q) && taker.remaining > 0
    ensures StillCrossing(Walk(taker, q, engine)) <==> Stranded(taker, q, engine)
    decreases |q|
  {
    var k := FirstOwn(taker, q, engine);
    if q == [] {
    } else if !Crosses(taker, q[0].price.Units()) {
      if k < |q| && Crosses(taker, q[k].price.Units()) { CrossingIsAPrefix(taker, q, k); }
    } else if SelfTrade(taker, q[0], engine) {
      if Mode(taker, engine) == CancelMaker { WalkEnd(taker, q[1..], engine); }
    } else {
      WalkEndAfterFill(taker, q, engine);
    }
  }

  lemma StrandedTail(taker: Order, after: Order, q: seq<Order>, engine: Stp)
    requires q != [] && !SelfTrade(taker, q[0], engine)
    requires after == TakerAfter(taker, q[0].remaining)
    ensures Stranded(after, q[1..], engine) <==> Stranded(taker, q, engine)
  {
    var k, k' := FirstOwn(taker, q, engine), FirstOwn(after, q[1..], engine);
    assert k == k' + 1;
    var head := q[..k];
    assert head[0] == q[0] && head[1..] == q[1..][..k'];
    hide FirstOwn;
    assert Liquidity(q[..k]) == q[0].remaining + Liquidity(q[1..][..k']);
  }

  lemma NotStrandedWhenHeadSuffices(taker: Order, q: seq<Order>, engine: Stp)
    requires Facing(taker, q) && q != [] && taker.remaining <= q[0].remaining
    requires !SelfTrade(taker, q[0], engine)
    ensures !Stranded(taker, q, engine)
  {
    var k := FirstOwn(taker, q, engine);
    LiquidityPositive(q[..k][1..]);
  }

  lemma {:induction false} WalkEndAfterFill(taker: Order, q: seq<Order>, engine: Stp)
    requires Facing(taker, q) && taker.remaining > 0
    requires q != [] && Crosses(taker, q[0].price.Units()) && !SelfTrade(taker, q[0], engine)
    ensures StillCrossing(Walk(taker, q, engine)) <==> Stranded(taker, q, engine)
    decreases |q|, 0
  {
    if taker.remaining > q[0].remaining {
      var after := TakerAfter(taker, q[0].remaining);
      WalkEnd(after, q[1..], engine);
      StrandedTail(taker, after, q, engine);
      assert Walk(taker, q, engine).taker == Walk(after, q[1..], engine).taker;
    } else {
      NotStrandedWhenHeadSuffices(taker, q, engine);
      assert Walk(taker, q, engine).taker.remaining == 0;
    }
  }

  /** After a limit order that rests unless filled, the book is uncrossed exactly when STP did not strand it. */
  lemma LimitUncrossedIff(b: Book, o: Order, engine: Stp)
    requires WellFormed(b) && Uncrossed(b) && Active(o) && Joins(b, o)
    requires o.kind == Limit && o.price.At? && o.tif == GTC && o.remaining > 0
    ensures Uncrossed(MatchLimit(b, o, engine).book) <==>
            !Stranded(o, b.Queue(o.side.Opposite()), engine)
  {
    hide Walk;
    var opposite := b.Queue(o.side.Opposite());
    var w := Walk(o, opposite, engine);
    var s := Sweep(b, o, engine);
    WalkEnd(o, opposite, engine);
    SweepKeeps(b, o, engine);
    SweepUncrossed(b, o, engine);
    if Rests(s.order) {
      var resting := s.order.(status := if s.order.status == PartiallyFilled then PartiallyFilled else New);
      RestingUncrossedIff(s.book, resting);
    }
  }

  lemma SweepUncrossed(b: Book, o: Order, engine: Stp)
    requires WellFormed(b) && Uncrossed(b)
    ensures Uncrossed(Sweep(b, o, engine).book)
  {
    var side := o.side.Opposite();
    WalkRest(o, b.Queue(side), engine);
    ShrunkKeepsUncrossed(b, side, Walk(o, b.Queue(side), engine).rest);
  }

  lemma RestingUncrossedIff(b: Book, o: Order)
    requires WellFormed(b) && Uncrossed(b) && o.kind != Market && o.price.At?
    ensures var q := b.Queue(o.side.Opposite());
      Uncrossed(Add(b, o)) <==> (q == [] || !Crosses(o, q[0].price.Units()))
  {
    var q := b.Queue(o.side.Opposite());
    var n := Sequenced(b, o);
    InsertContents(b.Queue(o.side), n);
    assert n in Add(b, o).Queue(o.side) && n.price == o.price;
    if q != [] {
      assert q[0] in q;
      forall x | x in q && Crosses(o, x.price.Units()) ensures Crosses(o, q[0].price.Units()) {
        var j :| 0 <= j < |q| && q[j] == x;
        CrossingIsAPrefix(o, q, j);
      }
    }
  }

  // ----- whole runs -----

  predicate Safe(o: Order, engine: Stp) {
    !CancelsTaker(Mode(o, engine))
  }

  lemma LimitStaysUncrossed(b: Book, o: Order, engine: Stp)
    requires WellFormed(b) && Uncrossed(b) && Active(o) && Joins(b, o)
    requires o.kind == Limit && o.price.At? && Safe(o, engine)
    ensures Uncrossed(MatchLimit(b, o, engine).book)
  {
    if o.remaining > 0 && o.tif == GTC {
      LimitUncrossedIff(b, o, engine);
    } else {
      SweepUncrossed(b, o, engine);
      SweepKeeps(b, o, engine);
    }
  }

  lemma FiredStaysUncrossed(b: Book, o: Order, engine: Stp)
    requires WellFormed(b) && Uncrossed(b) && Parked(o) && Joins(b, o) && Safe(o, engine)
    ensures Uncrossed(MatchFired(b, o, engine).book)
  {
    hide Walk;
    if Fired(o).kind == Market {
      SweepUncrossed(b, Fired(o), engine);
    } else {
      LimitStaysUncrossed(b, Fired(o), engine);
    }
  }

  lemma ProcessStaysUncrossed(b: Book, o: Order, engine: Stp)
    requires WellFormed(b) && Uncrossed(b) && Acceptable(b, o) && Safe(o, engine)
    ensures Uncrossed(Process(b, o, engine).book)
  {
    hide Walk;
    if o.quantity > 0 {
      match o.kind
      case Limit => LimitStaysUncrossed(b, o, engine);
      case Market => SweepUncrossed(b, o, engine);
      case ImmediateOrCancel => SweepUncrossed(b, o, engine);
      case PostOnly =>
        if MatchPostOnly(b, o).order.status == New { RestingUncrossedIff(b, o.(status := New)); }
      case _ =>
        if o.stopPrice.Units() > 0 && Triggers(o, b.last) { FiredStaysUncrossed(b, o, engine); }
    }
  }

  ghost predicate SafeStops(stops: seq<Order>, engine: Stp) {
    forall o :: o in stops ==> Safe(o, engine)
  }

  lemma {:induction false} FireAllStaysUncrossed(b: Book, fired: seq<Order>, engine: Stp)
    requires WellFormed(b) && Uncrossed(b) && AllJoin(b, fired) && SafeStops(fired, engine)
    ensures Uncrossed(FireAll(b, fired, engine).0)
    ensures FireAll(b, fired, engine).0.stops == b.stops
    decreases |fired|
  {
    if fired != [] {
      FiredStaysUncrossed(b, fired[0], engine);
      FiredKeepsStops(b, fired[0], engine);
      AllJoinTail(b, fired, engine);
      FireAllStaysUncrossed(MatchFired(b, fired[0], engine).book, fired[1..], engine);
    }
  }

  lemma LimitKeepsStops(b: Book, o: Order, engine: Stp)
    ensures MatchLimit(b, o, engine).book.stops == b.stops
  {
  }

  lemma FiredKeepsStops(b: Book, o: Order, engine: Stp)
    ensures MatchFired(b, o, engine).book.stops == b.stops
  {
  }

  lemma TriggerStaysUncrossed(b: Book, engine: Stp)
    requires WellFormed(b) && Uncrossed(b) && SafeStops(b.stops, engine)
    ensures Uncrossed(TriggerStops(b, engine).0) && SafeStops(TriggerStops(b, engine).0.stops, engine)
  {
    SelectContents(b.stops, b.last, false);
    SelectContents(b.stops, b.last, true);
    SelectedJoin(b);
    FireAllStaysUncrossed(b.(stops := Select(b.stops, b.last, false)), Select(b.stops, b.last, true), engine);
  }

  lemma ProcessKeepsStops(b: Book, o: Order, engine: Stp)
    requires Submittable(o)
    ensures var stops := Process(b, o, engine).book.stops;
      stops == b.stops || stops == b.stops + [Sequenced(b, o.(status := New))]
  {
    hide Walk;
    if o.quantity > 0 {
      match o.kind
      case Limit => LimitKeepsStops(b, o, engine);
      case Market =>
      case ImmediateOrCancel =>
      case PostOnly =>
      case _ => FiredKeepsStops(b, o, engine);
    }
  }

  lemma SafeStopsGrow(stops: seq<Order>, stops': seq<Order>, o: Order, engine: Stp)
    requires SafeStops(stops, engine) && Safe(o, engine)
    requires stops' == stops || stops' == stops + [o]
    ensures SafeStops(stops', engine)
  {
  }

  lemma SubmitStaysUncrossed(b: Book, o: Order, engine: Stp)
    requires WellFormed(b) && Uncrossed(b) && SafeStops(b.stops, engine)
    requires Acceptable(b, o) && Safe(o, engine)
    ensures var b' := Process(b, o, engine).book; Uncrossed(b') && SafeStops(b'.stops, engine)
  {
    hide Walk;
    ProcessStaysUncrossed(b, o, engine);
    ProcessKeepsStops(b, o, engine);
    SafeStopsGrow(b.stops, Process(b, o, engine).book.stops, Sequenced(b, o.(status := New)), engine);
  }

  lemma StepStaysUncrossed(b: Book, input: Input, engine: Stp)
    requires WellFormed(b) && Uncrossed(b) && SafeStops(b.stops, engine)
    requires input.Submit? ==> Acceptable(b, input.order) && Safe(input.order, engine)
    ensures var b' := Step(b, input, engine).0; Uncrossed(b') && SafeStops(b'.stops, engine)
  {
    hide Walk;
    match input
    case Submit(o) => SubmitStaysUncrossed(b, o, engine);
    case Withdraw(id, user) =>
      if Lookup(b, id).Some? { RemoveSucceeds(b, Lookup(b, id).value); }
    case Trigger => TriggerStaysUncrossed(b, engine);
  }

  /** A run that starts with an empty book and submits only safe orders, each id once. */
  ghost predicate SafeRun(inputs: seq<Input>, engine: Stp) {
    Legal(inputs) && forall i :: 0 <= i < |inputs| && inputs[i].Submit? ==> Safe(inputs[i].order, engine)
  }

  lemma {:induction false} NeverCrossed(inputs: seq<Input>, engine: Stp)
    requires SafeRun(inputs, engine)
    ensures var b := Run(EMPTY, inputs, engine).0;
      Uncrossed(b) && SafeStops(b.stops, engine)
    decreases |inputs|
  {
    if inputs != [] {
      var n := |inputs| - 1;
      LegalPrefix(inputs, n);
      NeverCrossed(inputs[..n], engine);
      RunIsWellFormed(inputs[..n], engine);
      LastIsAcceptable(inputs, engine);
      StepStaysUncrossed(Run(EMPTY, inputs[..n], engine).0, inputs[n], engine);
    }
  }

  // ----- and a run that crosses -----

  /** A limit order at price 10 for one unit. */
  function OwnOrder(id: Id, side: Side, stp: Stp): Order {
    Order(id, "user", side, Limit, At(10), NoPrice, 1, 0, 1, GTC, New, stp, 0, 0)
  }

  lemma RestsFirst(o: Order, engine: Stp)
    requires Submittable(o) && o.kind == Limit && o.tif == GTC && o.quantity > 0
    ensures Run(EMPTY, [Submit(o)], engine) == (Add(EMPTY, o), [])
    ensures Add(EMPTY, o) == EMPTY.WithQueue(o.side, [o.(bookSeq := 1)]).(seqNo := 1)
  {
    var inputs := [Submit(o)];
    assert inputs[..0] == [];
    assert Sweep(EMPTY, o, engine) == Outcome(EMPTY, o, []);
    assert Insert([], Sequenced(EMPTY, o)) == [Sequenced(EMPTY, o)];
    assert [] + Step(EMPTY, Submit(o), engine).1 == [];
  }

  /** An order that self-trade prevention cancelled rests all the same, across from the order it would have hit. */
  lemma CancelledTakerCrosses(engine: Stp) returns (inputs: seq<Input>)
    ensures Legal(inputs) && !Uncrossed(Run(EMPTY, inputs, engine).0)
  {
    hide Walk, MatchLimit, Run, Stranded, WellFormed;
    var ask, bid := OwnOrder("ask", Sell, Disabled), OwnOrder("bid", Buy, CancelTaker);
    inputs := [Submit(ask), Submit(bid)];
    assert inputs[..1] == [Submit(ask)];
    RestsFirst(ask, engine);
    var b := Add(EMPTY, ask);
    RunIsWellFormed(inputs[..1], engine);
    LastIsAcceptable(inputs, engine);
    OwnIsStranded(b, bid, engine);
    LimitUncrossedIff(b, bid, engine);
    RunsOn(inputs, engine);
  }

  lemma OwnIsStranded(b: Book, o: Order, engine: Stp)
    requires o.side == Buy && o.kind == Limit && o.stp == CancelTaker && o.remaining > 0 && o.price.At? && o.user != ""
    requires b.asks != [] && b.asks[0].user == o.user && b.asks[0].price == o.price
    ensures Stranded(o, b.asks, engine)
  {
    assert FirstOwn(o, b.asks, engine) == 0 && Liquidity(b.asks[..0]) == 0;
  }

  lemma RunsOn(inputs: seq<Input>, engine: Stp)
    requires |inputs| == 2 && inputs[1].Submit? && inputs[1].order.kind == Limit && inputs[1].order.remaining > 0
    requires inputs[1].order.quantity > 0
    ensures Run(EMPTY, inputs, engine).0 == MatchLimit(Run(EMPTY, inputs[..1], engine).0, inputs[1].order, engine).book
  {
    hide MatchLimit;
  }
}
