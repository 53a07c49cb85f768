/**
 * The race a cancel can lose: the handler releases an order as soon as the engine has cancelled it, while a fill of the
 * order still waits for settlement. A run in which the freed funds are spent first, and the fill cannot be settled.
 */
module CancelRace {
  import opened MatchingTypes
  import opened MapSums
  import opened BookSpec
  import opened MatchingSpec
  import opened MatchingLaws
  import opened LedgerLaws
  import opened FillIds
  import opened WalletStores
  import opened FillSettlement
  import opened SettlementLaws
  import opened ReservationLaws
  import opened ExchangeLaws

  const ASK := Order("ask", "seller", Sell, Limit, At(1), NoPrice, 1, 0, 1, GTC, New, Disabled, 0, 0)
  const BID := Order("bid", "buyer", Buy, Limit, At(1), NoPrice, 2, 0, 2, GTC, New, Disabled, 0, 0)
  const FREE_PAIR := Pair("BTC", "USDT", Rates(0.0, 0.0), Disabled)
  const SELLER_KEY := Key("seller", "BTC", Spot)
  const BUYER_KEY := Key("buyer", "USDT", Spot)
  const OWNERS: Owners := map["ask" := "seller", "bid" := "buyer"]
  const RACE_TRADE := Trade("bid", "ask", "buyer", "seller", 1, 1, Buy)

  /** What the buyer reserves for two units at the limit. */
  const STAKE := Amount(1) * Amount(2)

  const FUNDED := Money(map[SELLER_KEY := Wallet(Amount(1), 0.0), BUYER_KEY := Wallet(STAKE, 0.0)], map[])
  const ASKED := Money(map[SELLER_KEY := Wallet(Amount(1), Amount(1)), BUYER_KEY := Wallet(STAKE, 0.0)],
                       map["ask" := FillSettlement.Reservation("BTC", Amount(1))])
  const BOTH := Money(map[SELLER_KEY := Wallet(Amount(1), Amount(1)), BUYER_KEY := Wallet(STAKE, STAKE)],
                      map["ask" := FillSettlement.Reservation("BTC", Amount(1)),
                          "bid" := FillSettlement.Reservation("USDT", STAKE)])
  const SPENT := Money(map[SELLER_KEY := Wallet(Amount(1), Amount(1)), BUYER_KEY := Wallet(0.0, 0.0)],
                       map["ask" := FillSettlement.Reservation("BTC", Amount(1))])

  const CROSSED := [Submit(ASK), Submit(BID)]
  const ACCEPTED: map<Id, Order> := map["ask" := ASK, "bid" := BID]

  /** The buyer cancels while a fill of the order waits, and spends what the release frees. */
  const RACE := [Elsewhere(FUNDED), Place(ASK), Take(Submit(ASK)), Place(BID), Take(Submit(BID)),
                 Take(Withdraw("bid", "buyer")), Release("bid"), Elsewhere(SPENT)]

  function RaceAt(i: nat): Exchange {
    match i
    case 0 => IDLE
    case 1 => Exchange([], 0, FUNDED, map[], {})
    case 2 => Exchange([], 0, ASKED, map["ask" := ASK], {})
    case 3 => Exchange([Submit(ASK)], 0, ASKED, map["ask" := ASK], {})
    case 4 => Exchange([Submit(ASK)], 0, BOTH, ACCEPTED, {})
    case 5 => Exchange(CROSSED, 0, BOTH, ACCEPTED, {})
    case 6 => Exchange(CROSSED + [Withdraw("bid", "buyer")], 0, BOTH, ACCEPTED, {})
    case 7 => Exchange(CROSSED + [Withdraw("bid", "buyer")], 0, ASKED, ACCEPTED, {"bid"})
    case _ => Exchange(CROSSED + [Withdraw("bid", "buyer")], 0, SPENT, ACCEPTED, {"bid"})
  }

  /** The bid takes the ask, and what is left of it rests until it is cancelled. */
  lemma RaceEngine()
    ensures var inputs := [Submit(ASK), Submit(BID)];
      && Run(EMPTY, inputs, Disabled).1 == [RACE_TRADE]
      && Cancel(Run(EMPTY, inputs, Disabled).0, "bid", "buyer").1.Done?
      && Run(EMPTY, inputs + [Withdraw("bid", "buyer")], Disabled).1 == [RACE_TRADE]
  {
    hide Run, MatchLimit;
    var asked := Book([], [ASK.(bookSeq := 1)], [], 0, 1);
    RunOneMore([], Submit(ASK), Disabled);
    RunOneMore([Submit(ASK)], Submit(BID), Disabled);
    RunOneMore([Submit(ASK), Submit(BID)], Withdraw("bid", "buyer"), Disabled);
    assert [] + [Submit(ASK)] == [Submit(ASK)] && [Submit(ASK)] + [Submit(BID)] == [Submit(ASK), Submit(BID)];
    EmptyRun();
    AskRests();
    BidTrades();
  }

  lemma EmptyRun()
    ensures Run(EMPTY, [], Disabled) == (EMPTY, [])
  {
  }

  lemma AskRests()
    ensures MatchLimit(EMPTY, ASK, Disabled).book == Book([], [ASK.(bookSeq := 1)], [], 0, 1)
    ensures MatchLimit(EMPTY, ASK, Disabled).trades == []
  {
    assert Sweep(EMPTY, ASK, Disabled) == Outcome(EMPTY, ASK, []);
    assert Insert([], ASK.(bookSeq := 1)) == [ASK.(bookSeq := 1)];
  }

  lemma BidTrades()
    ensures var out := MatchLimit(Book([], [ASK.(bookSeq := 1)], [], 0, 1), BID, Disabled);
      && out.trades == [RACE_TRADE] && Cancel(out.book, "bid", "buyer").1.Done?
  {
    var book, rest := Book([], [ASK.(bookSeq := 1)], [], 0, 1), TakerAfter(BID, 1);
    assert Walk(rest, [], Disabled) == Walked(rest, [], []);
    assert book.asks[1..] == [];
    assert Walk(BID, book.asks, Disabled) == Walked(rest, [], [RACE_TRADE]);
    assert Sweep(book, BID, Disabled) == Outcome(Book([], [], [], 1, 2), rest, [RACE_TRADE]);
    assert Insert([], rest.(bookSeq := 3)) == [rest.(bookSeq := 3)];
    assert MatchLimit(book, BID, Disabled).book.bids == [rest.(bookSeq := 3)];
  }

  lemma AmountsArePositive()
    ensures Amount(1) > 0.0 && Amount(2) > 0.0 && STAKE > 0.0
  {
    AmountSplits(1, 1);
    AmountSplits(2, 1);
    assert Amount(1) * Amount(2) > 0.0;
  }

  lemma NothingReserved(m: Money, owners: Owners)
    requires m.tracker == map[] && forall k :: k in m.rows ==> m.rows[k].locked == 0.0
    ensures Backed(m, owners)
  {
    forall user, asset ensures Foreign(m, owners, user, asset) >= 0.0 {
      NothingHeld(owners, user, asset);
    }
  }

  /** Taking out what no reservation holds leaves the reservations as they are. */
  lemma SpendingIsBacked(m: Money, m': Money, owners: Owners)
    requires Backed(m, owners) && m'.tracker == m.tracker
    requires forall k :: LockedOf(m'.rows, k) == LockedOf(m.rows, k)
    ensures Backed(m', owners)
  {
    hide FillSettlement.Held;
    forall user, asset ensures Foreign(m', owners, user, asset) >= 0.0 {
      assert Foreign(m, owners, user, asset) >= 0.0;
    }
  }

  lemma PlacingAsk()
    ensures Next(RaceAt(1), Place(ASK), FREE_PAIR) == RaceAt(2)
  {
    AmountsArePositive();
  }

  lemma PlacingBid()
    ensures Next(RaceAt(3), Place(BID), FREE_PAIR) == RaceAt(4)
  {
    AmountsArePositive();
    assert WorstCost(Amount(1), Amount(2), FREE_PAIR.rates) == STAKE;
    assert BOTH.rows == ASKED.rows[BUYER_KEY := Wallet(STAKE, STAKE)];
    assert ACCEPTED == map["ask" := ASK]["bid" := BID];
  }

  lemma ReleasedBid()
    ensures ReleaseOrder(BOTH, "bid", "buyer", true) == ASKED
  {
    AmountsArePositive();
    hide Amount;
    SettledOne(BOTH.rows, Op(BUYER_KEY, STAKE, 0.0));
    assert ASKED.rows == BOTH.rows[BUYER_KEY := Wallet(STAKE, 0.0)];
    assert ASKED.tracker == BOTH.tracker - {"bid"};
  }

  lemma ReleasingBid()
    ensures Next(RaceAt(6), Release("bid"), FREE_PAIR) == RaceAt(7)
  {
    hide ReleaseOrder, Run, Amount;
    ReleasedBid();
  }

  lemma RaceStep(i: nat)
    requires i < 7
    ensures Next(RaceAt(i), RACE[i], FREE_PAIR) == RaceAt(i + 1)
    ensures Possible(RaceAt(i), RACE[i], OWNERS)
  {
    hide Run, ReserveOrder, ReleaseOrder, Amount;
    match i
    case 0 =>
      AmountsArePositive();
      NothingReserved(FUNDED, OWNERS);
    case 1 => PlacingAsk();
    case 3 => PlacingBid();
    case 6 => ReleasingBid();
    case _ =>
  }

  lemma {:induction false} RaceRuns(i: nat)
    requires i <= 7
    ensures RunFrom(IDLE, RACE[..i], FREE_PAIR) == RaceAt(i) && AllPossible(IDLE, RACE[..i], FREE_PAIR, OWNERS)
  {
    hide Next, Possible;
    if i > 0 {
      RaceRuns(i - 1);
      assert RACE[..i] == RACE[..i - 1] + [RACE[i - 1]];
      RunFromOneMore(IDLE, RACE[..i - 1], RACE[i - 1], FREE_PAIR, OWNERS);
      RaceStep(i - 1);
    }
  }

  /** The fill of the cancelled order cannot settle: there is nothing left to pay it with. */
  lemma NothingToPayWith()
    ensures !SettleTrade(SPENT, RACE_TRADE, "BTC", "USDT", FREE_PAIR.rates).1
  {
    AmountsArePositive();
    var f := FillOf(RACE_TRADE, "BTC", "USDT");
    assert f.Cost(FREE_PAIR.rates) > 0.0 by {
      assert Amount(1) * Amount(1) > 0.0;
    }
    FillSplits(SPENT, f, FREE_PAIR.rates);
    SideSplits(SPENT.rows, "buyer", "USDT", 0.0, f.Cost(FREE_PAIR.rates), "BTC", f.qty);
  }

  /** The next fill is one of an order that had reserved for it, at a positive price, and cannot be settled. */
  predicate LosesFill(x: Exchange, id: Id, p: Pair) {
    && id in x.accepted && Prepaid(x.accepted[id])
    && x.settled < |x.Trades(p)|
    && Mentions(x.Trades(p)[x.settled], id) && x.Trades(p)[x.settled].price > 0
    && !NextSettles(x, p)
  }

  /** An order is cancelled while one of its fills waits; its funds are released and spent; the fill cannot settle. */
  lemma CancelRaceLosesAFill()
    ensures AllPossible(IDLE, RACE, FREE_PAIR, OWNERS)
    ensures Cancel(RaceAt(5).Engine(FREE_PAIR).0, "bid", "buyer").1.Done? && Unsettled(RaceAt(5), "bid", FREE_PAIR)
    ensures LosesFill(RunFrom(IDLE, RACE, FREE_PAIR), "bid", FREE_PAIR)
  {
    hide *;
    RaceIsRun();
    RaceIsLost();
  }

  lemma RaceIsRun()
    ensures AllPossible(IDLE, RACE, FREE_PAIR, OWNERS) && RunFrom(IDLE, RACE, FREE_PAIR) == RaceAt(8)
  {
    hide RunFrom, Run, AllPossible, Possible, Next, Consistent, AcceptedAsNew, StillReserved, Amount;
    RaceRuns(7);
    assert FairRates(FREE_PAIR.rates);
    RunKeeps(RACE[..7], FREE_PAIR, OWNERS);
    SpentIsPossible();
    RunFromOneMore(IDLE, RACE[..7], RACE[7], FREE_PAIR, OWNERS);
    assert RACE[..7] + [RACE[7]] == RACE;
  }

  lemma RaceIsLost()
    ensures Cancel(RaceAt(5).Engine(FREE_PAIR).0, "bid", "buyer").1.Done? && Unsettled(RaceAt(5), "bid", FREE_PAIR)
    ensures LosesFill(RaceAt(8), "bid", FREE_PAIR)
  {
    hide Run, SettleTrade, Cancel, Amount;
    RaceEngine();
    NothingToPayWith();
    assert Mentions(RaceAt(5).Trades(FREE_PAIR)[0], "bid");
  }

  lemma SpentIsPossible()
    requires Consistent(RaceAt(7), FREE_PAIR, OWNERS)
    ensures Possible(RaceAt(7), RACE[7], OWNERS) && Next(RaceAt(7), RACE[7], FREE_PAIR) == RaceAt(8)
  {
    hide Run, Submitted, Backed, Solvent, Amount;
    SpentIsSolvent();
    SpendingIsBacked(ASKED, SPENT, OWNERS);
  }

  lemma SpentIsSolvent()
    ensures Solvent(SPENT.rows)
    ensures forall k :: LockedOf(SPENT.rows, k) == LockedOf(ASKED.rows, k)
  {
    AmountsArePositive();
  }
}
