/**
 * Fill-or-kill. The engine first adds up what the opposite heap offers, over the raw slice of the heap, in which
 * cancelled orders may still linger, and then matches like a limit order.
 */
module FokLaws {
  import opened MatchingTypes
  import opened BookSpec
  import opened MatchingSpec
  import opened MatchingLaws
  import opened UncrossedLaws
  import opened PriorityLaws

  /** What one entry of the slice offers the taker: a crossing order that is not the taker's own. */
  function Offer(o: Order, x: Order, engine: Stp): int {
    if Crosses(o, x.price.Units()) && !SelfTrade(o, x, engine) then x.remaining else 0
  }

  function Offered(o: Order, slice: seq<Order>, engine: Stp): int {
    if slice == [] then 0 else Offered(o, slice[..|slice| - 1], engine) + Offer(o, slice[|slice| - 1], engine)
  }

  method CountOffers(o: Order, slice: seq<Order>, engine: Stp) returns (available: int)
    ensures available == Offered(o, slice, engine)
  {
    available := 0;
    for i := 0 to |slice|
      invariant available == Offered(o, slice[..i], engine)
    {
      assert slice[..i + 1][..i] == slice[..i];
      if Crosses(o, slice[i].price.Units()) && !SelfTrade(o, slice[i], engine) {
        available := available + slice[i].remaining;
      }
    }
    assert slice[..|slice|] == slice;
  }

  /** The resting order is the one that was matched: a status set afterwards shows in the book. */
  function Restatus(q: seq<Order>, id: Id, status: OrderStatus): seq<Order> {
    var i := Find(q, id);
    if i < |q| then q[i := q[i].(status := status)] else q
  }

  /** An order left unfilled after all is marked rejected, whatever it traded. */
  function MatchFok(b: Book, o: Order, engine: Stp, slice: seq<Order>): Outcome {
    if Offered(o, slice, engine) < o.quantity then Refuse(b, o)
    else
      var out := MatchLimit(b, o, engine);
      if out.order.remaining > 0
      then Outcome(out.book.WithQueue(o.side, Restatus(out.book.Queue(o.side), o.id, Rejected)),
                   out.order.(status := Rejected), out.trades)
      else out
  }

  /** Filled in full, or not at all. */
  predicate AllOrNothing(o: Order, trades: seq<Trade>) {
    Volume(trades) == o.quantity || trades == []
  }

  // ----- what the slice offers -----

  lemma {:induction false} OfferedConcat(o: Order, a: seq<Order>, b: seq<Order>, engine: Stp)
    ensures Offered(o, a + b, engine) == Offered(o, a, engine) + Offered(o, b, engine)
  {
    if b == [] {
      assert a + b == a;
    } else {
      OfferedConcat(o, a, b[..|b| - 1], engine);
      assert (a + b)[..|a + b| - 1] == a + b[..|b| - 1];
    }
  }

  lemma OfferedSplit(o: Order, b: seq<Order>, i: nat, engine: Stp)
    requires i < |b|
    ensures Offered(o, b, engine) == Offered(o, b[..i] + b[i + 1..], engine) + Offer(o, b[i], engine)
    ensures multiset(b[..i] + b[i + 1..]) == multiset(b) - multiset{b[i]}
  {
    hide Offered, Offer;
    var before, x, after := b[..i], b[i], b[i + 1..];
    assert b == before + [x] + after;
    OfferedConcat(o, before, after, engine);
    OfferedConcat(o, before + [x], after, engine);
    OfferedConcat(o, before, [x], engine);
    OfferedOne(o, x, engine);
  }

  /** The order of the slice does not matter. */
  lemma {:induction false} OfferedPermutes(o: Order, a: seq<Order>, b: seq<Order>, engine: Stp)
    requires multiset(a) == multiset(b)
    ensures Offered(o, a, engine) == Offered(o, b, engine)
    decreases |a|
  {
    hide Offered, Offer;
    if a == [] {
      assert |multiset(b)| == 0;
      assert b == [];
    } else {
      assert a[0] in multiset(b);
      var i :| 0 <= i < |b| && b[i] == a[0];
      OfferedSplit(o, a, 0, engine);
      OfferedSplit(o, b, i, engine);
      OfferedPermutes(o, a[..0] + a[1..], b[..i] + b[i + 1..], engine);
    }
  }

  lemma OfferedOne(o: Order, x: Order, engine: Stp)
    ensures Offered(o, [x], engine) == Offer(o, x, engine)
  {
    assert [x][..0] == [];
  }

  lemma {:induction false} OfferedIsLiquidity(o: Order, q: seq<Order>, engine: Stp)
    ensures Offered(o, q, engine) == Liquidity(Counterparties(o, q, engine))
    decreases |q|
  {
    OfferedNothing(o, engine);
    if q != [] {
      hide Offered, Offer;
      var tail := Counterparties(o, q[1..], engine);
      assert q == [q[0]] + q[1..];
      OfferedConcat(o, [q[0]], q[1..], engine);
      OfferedOne(o, q[0], engine);
      OfferIs(o, q[0], engine);
      OfferedIsLiquidity(o, q[1..], engine);
      assert ([q[0]] + tail)[1..] == tail && [] + tail == tail;
    }
  }

  lemma OfferedNothing(o: Order, engine: Stp)
    ensures Offered(o, [], engine) == 0
  {
  }

  lemma OfferIs(o: Order, x: Order, engine: Stp)
    ensures Offer(o, x, engine) == if Crosses(o, x.price.Units()) && !SelfTrade(o, x, engine) then x.remaining else 0
  {
  }

  // ----- all or nothing -----

  lemma VolumeOfNothing(trades: seq<Trade>)
    requires forall t :: t in trades ==> t.quantity > 0
    ensures Volume(trades) == 0 <==> trades == []
  {
    if trades != [] {
      assert trades[0] in trades;
      VolumeNonNegative(trades[1..]);
    }
  }

  lemma {:induction false} VolumeNonNegative(trades: seq<Trade>)
    requires forall t :: t in trades ==> t.quantity > 0
    ensures Volume(trades) >= 0
  {
    if trades != [] {
      assert trades[0] in trades;
      VolumeNonNegative(trades[1..]);
    }
  }

  lemma SweepVolume(b: Book, o: Order, engine: Stp)
    requires WellFormed(b) && o.remaining >= 0
    ensures var trades, q := Sweep(b, o, engine).trades, b.Queue(o.side.Opposite());
      && Volume(trades) == Min(o.remaining, Liquidity(Eligible(o, q, engine)))
      && (forall t :: t in trades ==> t.quantity > 0)
  {
    hide Walk;
    var q := b.Queue(o.side.Opposite());
    FillsAllItCan(o, q, engine);
    FillsInPriorityOrder(o, q, engine);
    assert forall i :: 0 <= i < |Sweep(b, o, engine).trades| ==> Sweep(b, o, engine).trades[i].quantity > 0;
  }

  /**
   * A fill-or-kill order is filled in full or not at all exactly when it is turned away at once, or what it can really
   * trade with is enough, or is nothing. In between, the count admitted it and the match came up short.
   */
  lemma AllOrNothingIff(b: Book, o: Order, engine: Stp, slice: seq<Order>)
    requires WellFormed(b) && o.remaining == o.quantity > 0
    ensures var tradable := Liquidity(Eligible(o, b.Queue(o.side.Opposite()), engine));
      AllOrNothing(o, MatchFok(b, o, engine, slice).trades) <==>
      (Offered(o, slice, engine) < o.quantity || tradable >= o.quantity || tradable <= 0)
  {
    hide Walk, Liquidity, Eligible, Offered;
    if Offered(o, slice, engine) >= o.quantity {
      SweepVolume(b, o, engine);
      VolumeOfNothing(Sweep(b, o, engine).trades);
      LiquidityOfEligible(b, o, engine);
    }
  }

  lemma LiquidityOfEligible(b: Book, o: Order, engine: Stp)
    requires WellFormed(b)
    ensures Liquidity(Eligible(o, b.Queue(o.side.Opposite()), engine)) >= 0
  {
    var q := b.Queue(o.side.Opposite());
    CounterpartiesContents(o, Reach(o, q, engine), engine);
    LiquidityPositive(Eligible(o, q, engine));
  }

  /** Without lingering entries, and unless self-trade prevention may cancel the taker, it always is all or nothing. */
  lemma CleanHeapIsAllOrNothing(b: Book, o: Order, engine: Stp, slice: seq<Order>)
    requires WellFormed(b) && o.remaining == o.quantity > 0
    requires multiset(slice) == multiset(b.Queue(o.side.Opposite())) && !CancelsTaker(Mode(o, engine))
    ensures AllOrNothing(o, MatchFok(b, o, engine, slice).trades)
    ensures MatchFok(b, o, engine, slice).trades != [] <==> Offered(o, slice, engine) >= o.quantity
  {
    hide Walk, Liquidity, Counterparties;
    var q := b.Queue(o.side.Opposite());
    OfferedPermutes(o, slice, q, engine);
    OfferedIsLiquidity(o, q, engine);
    AllOrNothingIff(b, o, engine, slice);
    SweepVolume(b, o, engine);
    VolumeOfNothing(Sweep(b, o, engine).trades);
  }

  // ----- a heap that lets one through -----

  /** The orders that the cancels of a run took out, as their heap entries still point to them. */
  function Lingering(inputs: seq<Input>, engine: Stp): seq<Order> {
    if inputs == [] then []
    else
      var n := |inputs| - 1;
      var b, last := Run(EMPTY, inputs[..n], engine).0, inputs[n];
      Lingering(inputs[..n], engine)
      + (if last.Withdraw? && Cancel(b, last.id, last.user).1.Done? then [Cancel(b, last.id, last.user).1.order] else [])
  }

  const LIVE := Order("live", "maker", Sell, Limit, At(100), NoPrice, 1, 0, 1, GTC, New, Disabled, 1, 0)
  const GONE := Order("gone", "maker", Sell, Limit, At(100), NoPrice, 1, 0, 1, GTC, New, Disabled, 2, 0)
  const KILL := Order("fok", "taker", Buy, Limit, At(100), NoPrice, 2, 0, 2, FOK, New, Disabled, 3, 0)

  /** Two asks, of which the second, behind the first in the heap, is cancelled. */
  const CANCELLED_ONE := [Submit(LIVE), Submit(GONE), Withdraw("gone", "maker")]

  lemma OneMore(inputs: seq<Input>, input: Input, engine: Stp)
    ensures Run(EMPTY, inputs + [input], engine).0 == Step(Run(EMPTY, inputs, engine).0, input, engine).0
    ensures Lingering(inputs + [input], engine) == Lingering(inputs, engine)
      + (if input.Withdraw? && Cancel(Run(EMPTY, inputs, engine).0, input.id, input.user).1.Done?
         then [Cancel(Run(EMPTY, inputs, engine).0, input.id, input.user).1.order] else [])
  {
    assert (inputs + [input])[..|inputs|] == inputs;
  }

  lemma AsksQueueUp()
    ensures Process(EMPTY, LIVE, Disabled).book == EMPTY.(asks := [LIVE.(bookSeq := 1)], seqNo := 1)
    ensures Process(EMPTY.(asks := [LIVE.(bookSeq := 1)], seqNo := 1), GONE, Disabled).book
      == EMPTY.(asks := [LIVE.(bookSeq := 1), GONE.(bookSeq := 2)], seqNo := 2)
  {
    var one := EMPTY.(asks := [LIVE.(bookSeq := 1)], seqNo := 1);
    assert Sweep(EMPTY, LIVE, Disabled) == Outcome(EMPTY, LIVE, []);
    assert Insert([], LIVE.(bookSeq := 1)) == [LIVE.(bookSeq := 1)];
    assert Sweep(one, GONE, Disabled) == Outcome(one, GONE, []);
    assert Rank(one.asks[1..], GONE.(bookSeq := 2)) == 0;
    assert Insert(one.asks, GONE.(bookSeq := 2)) == [LIVE.(bookSeq := 1), GONE.(bookSeq := 2)];
  }

  lemma SecondIsCancelled()
    ensures var b := EMPTY.(asks := [LIVE.(bookSeq := 1), GONE.(bookSeq := 2)], seqNo := 2);
      Cancel(b, "gone", "maker")
      == (EMPTY.(asks := [LIVE.(bookSeq := 1)], seqNo := 3), CancelResult.Done(GONE.(bookSeq := 2, status := Cancelled)))
  {
    var b := EMPTY.(asks := [LIVE.(bookSeq := 1), GONE.(bookSeq := 2)], seqNo := 2);
    assert Find(b.asks[1..], "gone") == 0 && Find(b.asks, "gone") == 1;
    assert Without(b.asks, "gone") == [LIVE.(bookSeq := 1)];
  }

  lemma CancelledOneRun()
    ensures Run(EMPTY, CANCELLED_ONE, Disabled).0 == EMPTY.(asks := [LIVE.(bookSeq := 1)], seqNo := 3)
    ensures Lingering(CANCELLED_ONE, Disabled) == [GONE.(bookSeq := 2, status := Cancelled)]
  {
    hide Process, Cancel, Run, Lingering;
    NoInputs();
    OneMore([], Submit(LIVE), Disabled);
    OneMore([Submit(LIVE)], Submit(GONE), Disabled);
    OneMore([Submit(LIVE), Submit(GONE)], Withdraw("gone", "maker"), Disabled);
    assert [] + [Submit(LIVE)] == [Submit(LIVE)] && [Submit(LIVE)] + [Submit(GONE)] == [Submit(LIVE), Submit(GONE)];
    assert [Submit(LIVE), Submit(GONE)] + [Withdraw("gone", "maker")] == CANCELLED_ONE;
    AsksQueueUp();
    SecondIsCancelled();
  }

  lemma NoInputs()
    ensures Run(EMPTY, [], Disabled).0 == EMPTY && Lingering([], Disabled) == []
  {
  }

  /**
   * One order cancelled by its user and still in the heap, behind a live one, is enough to let a fill-or-kill order
   * through that then fills in part.
   */
  lemma StaleEntryFillsInPart()
    ensures Legal(CANCELLED_ONE)
    ensures var b := Run(EMPTY, CANCELLED_ONE, Disabled).0;
      Acceptable(b, KILL) && !AllOrNothing(KILL, MatchFok(b, KILL, Disabled, b.asks + Lingering(CANCELLED_ONE, Disabled)).trades)
  {
    hide MatchFok, Lingering, Run, Acceptable;
    var live, gone := LIVE.(bookSeq := 1), GONE.(bookSeq := 2, status := Cancelled);
    var b := EMPTY.(asks := [live], seqNo := 3);
    CancelledOneRun();
    assert CANCELLED_ONE[..0] == [] && CANCELLED_ONE[..1] == [Submit(LIVE)];
    KillIsAcceptable(b);
    FillsOneOfTwo(b, live, gone);
  }

  lemma KillIsAcceptable(b: Book)
    requires b == EMPTY.(asks := [LIVE.(bookSeq := 1)], seqNo := 3)
    ensures Acceptable(b, KILL)
  {
  }

  lemma FillsOneOfTwo(b: Book, live: Order, gone: Order)
    requires live == LIVE.(bookSeq := 1) && gone == GONE.(bookSeq := 2, status := Cancelled)
    requires b == EMPTY.(asks := [live], seqNo := 3)
    ensures !AllOrNothing(KILL, MatchFok(b, KILL, Disabled, b.asks + [gone]).trades)
  {
    hide MatchFok, Offered, Eligible, Liquidity, WellFormed, AllOrNothing;
    TwoOffered(live, gone);
    OneTradable(live);
    AskIsWellFormed(b, live);
    AllOrNothingIff(b, KILL, Disabled, b.asks + [gone]);
  }

  lemma AskIsWellFormed(b: Book, live: Order)
    requires live == LIVE.(bookSeq := 1) && b == EMPTY.(asks := [live], seqNo := 3)
    ensures WellFormed(b)
  {
  }

  lemma TwoOffered(live: Order, gone: Order)
    requires live == LIVE.(bookSeq := 1) && gone == GONE.(bookSeq := 2, status := Cancelled)
    ensures Offered(KILL, [live] + [gone], Disabled) == 2
  {
    hide Offered;
    OfferedConcat(KILL, [live], [gone], Disabled);
    OfferedOne(KILL, live, Disabled);
    OfferedOne(KILL, gone, Disabled);
  }

  lemma OneTradable(live: Order)
    requires live == LIVE.(bookSeq := 1)
    ensures Liquidity(Eligible(KILL, [live], Disabled)) == 1
  {
    assert Reach(KILL, [live], Disabled) == [live];
    assert Counterparties(KILL, [live][1..], Disabled) == [];
    assert Counterparties(KILL, [live], Disabled) == [live];
    assert Liquidity([live][1..]) == 0;
  }
}
