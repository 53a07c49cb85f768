/** What a walk means: the taker is filled from the crossing orders in price-time order, and only from them. */
module PriorityLaws {
  import opened MatchingTypes
  import opened BookSpec
  import opened MatchingSpec
  import opened MatchingLaws
  import opened UncrossedLaws

  /** The orders of a queue a taker may trade with, in priority order. */
  function Counterparties(taker: Order, q: seq<Order>, engine: Stp): seq<Order> {
    if q == [] then []
    else (if Crosses(taker, q[0].price.Units()) && !SelfTrade(taker, q[0], engine) then [q[0]] else [])
         + Counterparties(taker, q[1..], engine)
  }

  /** Self-trade prevention that cancels the taker cuts the queue at its first own order. */
  function Reach(taker: Order, q: seq<Order>, engine: Stp): seq<Order> {
    if CancelsTaker(Mode(taker, engine)) then q[..FirstOwn(taker, q, engine)] else q
  }

  function Eligible(taker: Order, q: seq<Order>, engine: Stp): seq<Order> {
    Counterparties(taker, Reach(taker, q, engine), engine)
  }

  function Volume(trades: seq<Trade>): int {
    if trades == [] then 0 else trades[0].quantity + Volume(trades[1..])
  }

  function Min(a: int, b: int): int {
    if a < b then a else b
  }

  lemma {:induction false} NoCounterparty(taker: Order, q: seq<Order>, engine: Stp)
    requires forall o :: o in q ==> !Crosses(taker, o.price.Units())
    ensures Counterparties(taker, q, engine) == []
  {
    if q != [] { NoCounterparty(taker, q[1..], engine); }
  }

  /** How the first order of a queue decides who is eligible. */
  lemma EligibleStep(taker: Order, q: seq<Order>, engine: Stp)
    requires Facing(taker, q) && q != []
    ensures Eligible(taker, q, engine) ==
      if !Crosses(taker, q[0].price.Units()) then []
      else if !SelfTrade(taker, q[0], engine) then [q[0]] + Eligible(taker, q[1..], engine)
      else if CancelsTaker(Mode(taker, engine)) then []
      else Eligible(taker, q[1..], engine)
  {
    var r := Reach(taker, q, engine);
    if !Crosses(taker, q[0].price.Units()) {
      forall o | o in r ensures !Crosses(taker, o.price.Units()) {
        var j :| 0 <= j < |q| && q[j] == o;
        if Crosses(taker, q[j].price.Units()) { CrossingIsAPrefix(taker, q, j); }
      }
      NoCounterparty(taker, r, engine);
    } else if !SelfTrade(taker, q[0], engine) {
      assert r[0] == q[0] && r[1..] == Reach(taker, q[1..], engine);
    }
  }

  /** Eligibility looks at who the taker is and what it pays, not at how much it still wants. */
  lemma {:induction false} SameCounterparties(taker: Order, after: Order, q: seq<Order>, engine: Stp)
    requires SameTerms(taker, after)
    ensures Counterparties(taker, q, engine) == Counterparties(after, q, engine)
  {
    if q != [] { SameCounterparties(taker, after, q[1..], engine); }
  }

  lemma SameEligible(taker: Order, after: Order, q: seq<Order>, engine: Stp)
    requires SameTerms(taker, after)
    ensures Eligible(taker, q, engine) == Eligible(after, q, engine)
  {
    assert FirstOwn(taker, q, engine) == FirstOwn(after, q, engine);
    SameCounterparties(taker, after, Reach(taker, q, engine), engine);
  }

  /** The totals of a walk: what was traded, and what the taker has filled and left. */
  ghost predicate FilledBy(taker: Order, w: Walked, available: int) {
    && Volume(w.trades) == Min(taker.remaining, available)
    && w.taker.filled == taker.filled + Volume(w.trades)
    && w.taker.remaining == taker.remaining - Volume(w.trades)
  }

  /** A fill in front of a walk that fills all it can. */
  lemma FillInFront(taker: Order, maker: Order, w: Walked, tail: Walked, available: int)
    requires taker.remaining >= maker.remaining > 0 && available >= 0
    requires FilledBy(TakerAfter(taker, maker.remaining), tail, available)
    requires w.taker == tail.taker && w.trades == [TradeOf(taker, maker, maker.remaining)] + tail.trades
    ensures FilledBy(taker, w, maker.remaining + available)
  {
    assert w.trades[1..] == tail.trades;
  }

  lemma PartialFill(taker: Order, maker: Order, w: Walked, available: int)
    requires 0 < taker.remaining < maker.remaining && available >= 0
    requires w.taker == TakerAfter(taker, taker.remaining) && w.trades == [TradeOf(taker, maker, taker.remaining)]
    ensures FilledBy(taker, w, maker.remaining + available)
  {
    assert w.trades[1..] == [];
  }

  /** Filled in full, or by all there is to trade with; no more and no less. */
  lemma {:induction false} FillsAllItCan(taker: Order, q: seq<Order>, engine: Stp)
    requires Facing(taker, q) && taker.remaining >= 0
    ensures FilledBy(taker, Walk(taker, q, engine), Liquidity(Eligible(taker, q, engine)))
    decreases |q|
  {
    if q != [] {
      hide Eligible, FilledBy;
      var w := Walk(taker, q, engine);
      EligibleStep(taker, q, engine);
      EligiblePositive(taker, q[1..], engine);
      if taker.remaining <= 0 || !Crosses(taker, q[0].price.Units()) {
        NothingFilled(taker, q, engine);
      } else if SelfTrade(taker, q[0], engine) {
        if Mode(taker, engine) == CancelMaker {
          FillsAllItCan(taker, q[1..], engine);
        } else {
          StoppedAtOwn(taker, w);
        }
      } else {
        LiquidityFrom(q[0], Eligible(taker, q[1..], engine));
        if taker.remaining < q[0].remaining {
          PartialFill(taker, q[0], w, Liquidity(Eligible(taker, q[1..], engine)));
        } else {
          var after := TakerAfter(taker, q[0].remaining);
          SameEligible(taker, after, q[1..], engine);
          FillsAllItCan(after, q[1..], engine);
          FillInFront(taker, q[0], w, Walk(after, q[1..], engine), Liquidity(Eligible(taker, q[1..], engine)));
        }
      }
    }
  }

  lemma StoppedAtOwn(taker: Order, w: Walked)
    requires taker.remaining >= 0 && w.trades == [] && w.taker == taker.(status := Cancelled)
    ensures FilledBy(taker, w, Liquidity([]))
  {
  }

  lemma NothingFilled(taker: Order, q: seq<Order>, engine: Stp)
    requires Facing(taker, q) && taker.remaining >= 0 && q != []
    requires taker.remaining == 0 || !Crosses(taker, q[0].price.Units())
    ensures FilledBy(taker, Walk(taker, q, engine), Liquidity(Eligible(taker, q, engine)))
  {
    EligibleStep(taker, q, engine);
    EligiblePositive(taker, q, engine);
  }

  lemma LiquidityFrom(o: Order, rest: seq<Order>)
    ensures Liquidity([o] + rest) == o.remaining + Liquidity(rest)
  {
    assert ([o] + rest)[1..] == rest;
  }

  lemma {:induction false} CounterpartiesContents(taker: Order, q: seq<Order>, engine: Stp)
    ensures forall o :: o in Counterparties(taker, q, engine) <==>
      o in q && Crosses(taker, o.price.Units()) && !SelfTrade(taker, o, engine)
  {
    if q != [] { CounterpartiesContents(taker, q[1..], engine); }
  }

  lemma EligiblePositive(taker: Order, q: seq<Order>, engine: Stp)
    requires Facing(taker, q)
    ensures Liquidity(Eligible(taker, q, engine)) >= 0
  {
    CounterpartiesContents(taker, Reach(taker, q, engine), engine);
    LiquidityPositive(Eligible(taker, q, engine));
  }

  /** The trades are with the first eligible makers, each at its own price, all but the last to exhaustion. */
  ghost predicate FillsFirst(taker: Order, eligible: seq<Order>, trades: seq<Trade>) {
    && |trades| <= |eligible|
    && (forall i :: 0 <= i < |trades| ==>
          trades[i] == TradeOf(taker, eligible[i], trades[i].quantity)
          && 0 < trades[i].quantity <= eligible[i].remaining)
    && (forall i :: 0 <= i < |trades| - 1 ==> trades[i].quantity == eligible[i].remaining)
  }

  lemma {:induction false} FillsInPriorityOrder(taker: Order, q: seq<Order>, engine: Stp)
    requires Facing(taker, q)
    ensures FillsFirst(taker, Eligible(taker, q, engine), Walk(taker, q, engine).trades)
    decreases |q|
  {
    if taker.remaining > 0 && q != [] && Crosses(taker, q[0].price.Units()) {
      EligibleStep(taker, q, engine);
      if SelfTrade(taker, q[0], engine) {
        if Mode(taker, engine) == CancelMaker { FillsInPriorityOrder(taker, q[1..], engine); }
      } else if taker.remaining >= q[0].remaining {
        var after := TakerAfter(taker, q[0].remaining);
        SameEligible(taker, after, q[1..], engine);
        FillsInPriorityOrder(after, q[1..], engine);
        FillsFirstCons(taker, after, q[0], Eligible(taker, q[1..], engine), Walk(after, q[1..], engine).trades);
      } else {
        assert Walk(taker, q, engine).trades == [TradeOf(taker, q[0], taker.remaining)];
      }
    }
  }

  lemma FillsFirstCons(taker: Order, after: Order, maker: Order, eligible: seq<Order>, trades: seq<Trade>)
    requires SameTerms(taker, after) && FillsFirst(after, eligible, trades) && maker.remaining > 0
    ensures FillsFirst(taker, [maker] + eligible, [TradeOf(taker, maker, maker.remaining)] + trades)
  {
  }

  /** What leaves the queue: the exhausted makers, and own orders that self-trade prevention removed. */
  lemma {:induction false} OnlyTradedOrOwnLeave(taker: Order, q: seq<Order>, engine: Stp)
    requires Facing(taker, q)
    ensures var w := Walk(taker, q, engine);
      forall i :: 0 <= i < |q| - |w.rest| ==>
        && Crosses(taker, q[i].price.Units())
        && (SelfTrade(taker, q[i], engine) || TradeOf(taker, q[i], q[i].remaining) in w.trades)
    decreases |q|
  {
    if taker.remaining > 0 && q != [] && Crosses(taker, q[0].price.Units()) {
      if SelfTrade(taker, q[0], engine) {
        if Mode(taker, engine) == CancelMaker { OnlyTradedOrOwnLeave(taker, q[1..], engine); }
      } else if taker.remaining >= q[0].remaining {
        OnlyTradedOrOwnLeave(TakerAfter(taker, q[0].remaining), q[1..], engine);
      }
    }
  }
}
