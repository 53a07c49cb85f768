/**
 * Orders whose reservation nobody gives back. An order is released when the handler could not submit it, after the fill
 * that completes it, and after a cancel by its user; one that leaves the engine in any other way stays reserved.
 */
module StrandedOrders {
  import opened MatchingTypes
  import opened MapSums
  import opened BookSpec
  import opened MatchingSpec
  import opened MatchingLaws
  import opened LedgerLaws
  import opened FillIds
  import opened WalletStores
  import opened FillSettlement
  import opened SettlementLaws
  import opened ReservationLaws
  import opened ExchangeLaws
  import opened CancelRace

  /** All of the order is filled and settled. */
  predicate Completed(x: Exchange, id: Id, p: Pair) {
    && id in x.accepted && x.settled <= |x.Trades(p)|
    && Traded(x.Trades(p)[..x.settled], id) == x.accepted[id].quantity
  }

  /** A cancel of the order went through. */
  predicate Cancelled(inputs: seq<Input>, id: Id, engine: Stp) {
    inputs != [] &&
      var n := |inputs| - 1;
      Cancelled(inputs[..n], id, engine)
      || (inputs[n].Withdraw? && inputs[n].id == id && Cancel(Run(EMPTY, inputs[..n], engine).0, id, inputs[n].user).1.Done?)
  }

  /** When the handler and the bridge release an order. */
  predicate Releases(x: Exchange, id: Id, p: Pair) {
    id in x.accepted && (id !in Submitted(x.inputs) || Completed(x, id, p) || Cancelled(x.inputs, id, p.engine))
  }

  predicate Customary(x: Exchange, e: Event, p: Pair) {
    e.Release? ==> Releases(x, e.id, p)
  }

  ghost predicate AllCustomary(x: Exchange, events: seq<Event>, p: Pair, owners: Owners) {
    events == [] ||
      var n := |events| - 1;
      var y := RunFrom(x, events[..n], p);
      AllCustomary(x, events[..n], p, owners) && Possible(y, events[n], owners) && Customary(y, events[n], p)
  }

  /** Some continuation gives the order's reservation back. */
  ghost predicate CanBeReleased(x: Exchange, id: Id, p: Pair, owners: Owners) {
    exists events :: AllCustomary(x, events, p, owners) && id in RunFrom(x, events, p).released
  }

  /** The order left the engine, all its trades are settled, and neither completion nor a cancel took it out. */
  ghost predicate Stranded(x: Exchange, id: Id, p: Pair) {
    && id in x.accepted && id in Submitted(x.inputs) && id !in x.released && Finished(x, id, p)
    && !Completed(x, id, p) && !Cancelled(x.inputs, id, p.engine)
  }

  lemma CancelledOneMore(inputs: seq<Input>, input: Input, id: Id, engine: Stp)
    ensures Cancelled(inputs + [input], id, engine) <==>
      Cancelled(inputs, id, engine)
      || (input.Withdraw? && input.id == id && Cancel(Run(EMPTY, inputs, engine).0, id, input.user).1.Done?)
  {
    assert (inputs + [input])[..|inputs|] == inputs;
  }

  lemma AbsentIsNotCancelled(b: Book, id: Id, user: User)
    requires Absent(id, b)
    ensures !Cancel(b, id, user).1.Done?
  {
  }

  lemma StrandedTakes(x: Exchange, input: Input, id: Id, p: Pair, owners: Owners)
    requires Consistent(x, p, owners) && AcceptedAsNew(x) && Stranded(x, id, p) && Possible(x, Take(input), owners)
    ensures Stranded(Next(x, Take(input), p), id, p)
  {
    hide Run, Step, Solvent, Backed, Cancelled, Cancel, Finished, Submitted;
    var y := Next(x, Take(input), p);
    TakeKeeps(x, input, p, owners);
    RunOneMore(x.inputs, input, p.engine);
    assert y.inputs[..|x.inputs|] == x.inputs;
    LastIsAcceptable(y.inputs, p.engine);
    if input.Submit? { UnusedIsUnknown(x.inputs, input.order.id); }
    FinishedStays(x, input, id, p, owners);
    assert y.Trades(p)[..x.settled] == x.Trades(p)[..x.settled];
    CancelledOneMore(x.inputs, input, id, p.engine);
    FinishedIsAbsent(x, id, p);
    if input.Withdraw? { AbsentIsNotCancelled(x.Engine(p).0, id, input.user); }
  }

  lemma FinishedIsAbsent(x: Exchange, id: Id, p: Pair)
    ensures Finished(x, id, p) ==> Absent(id, x.Engine(p).0)
  {
  }

  /** Settling or dropping other fills completes nothing. */
  lemma StrandedSettles(x: Exchange, y: Exchange, id: Id, p: Pair, owners: Owners)
    requires Consistent(x, p, owners) && Consistent(y, p, owners) && Stranded(x, id, p)
    requires y.inputs == x.inputs && y.settled >= x.settled && y.released == x.released && y.accepted == x.accepted
    ensures Stranded(y, id, p)
  {
    hide Run, Solvent, Backed, Submitted, Cancelled;
    FinishedSame(x, y, id, p);
    UnsettledCounts(x, id, p, owners);
    UnsettledCounts(y, id, p, owners);
  }

  lemma StrandedStays(x: Exchange, e: Event, id: Id, p: Pair, owners: Owners)
    requires Consistent(x, p, owners) && AcceptedAsNew(x) && Stranded(x, id, p) && FairRates(p.rates)
    requires Possible(x, e, owners) && Customary(x, e, p)
    ensures Stranded(Next(x, e, p), id, p)
  {
    hide Run, Consistent, Finished, Cancelled, Submitted, SettleTrade, ReleaseOrder, ReserveOrder, ExchangeLaws.Reservation, Undisturbed;
    var y := Next(x, e, p);
    NextKeeps(x, e, p, owners);
    match e
    case Take(input) => StrandedTakes(x, input, id, p, owners);
    case Settle | Drop => StrandedSettles(x, y, id, p, owners);
    case _ =>
      StrandedFrame(x, y, id, p);
  }

  lemma StrandedFrame(x: Exchange, y: Exchange, id: Id, p: Pair)
    requires Stranded(x, id, p) && y.inputs == x.inputs && y.settled == x.settled
    requires id in y.accepted && y.accepted[id] == x.accepted[id] && id !in y.released
    ensures Stranded(y, id, p)
  {
    hide Run, Submitted, Cancelled;
    FinishedSame(x, y, id, p);
  }

  lemma {:induction false} StrandedForever(x: Exchange, events: seq<Event>, id: Id, p: Pair, owners: Owners)
    requires Consistent(x, p, owners) && AcceptedAsNew(x) && Stranded(x, id, p) && FairRates(p.rates)
    requires AllCustomary(x, events, p, owners)
    ensures var y := RunFrom(x, events, p); Consistent(y, p, owners) && AcceptedAsNew(y) && Stranded(y, id, p)
    decreases |events|
  {
    hide Next, Consistent, Possible, Customary, Stranded, AcceptedAsNew;
    if events != [] {
      var n := |events| - 1;
      StrandedForever(x, events[..n], id, p, owners);
      StrandedStays(RunFrom(x, events[..n], p), events[n], id, p, owners);
      NextKeeps(RunFrom(x, events[..n], p), events[n], p, owners);
    }
  }

  /**
   * An order that is out of the engine, with all its trades settled, is released in some continuation exactly when it
   * was completed or cancelled: every other one stays reserved for ever.
   */
  lemma FinishedIsReleasedIff(x: Exchange, id: Id, p: Pair, owners: Owners)
    requires Consistent(x, p, owners) && AcceptedAsNew(x) && FairRates(p.rates)
    requires id in x.accepted && id in Submitted(x.inputs) && id !in x.released && Finished(x, id, p)
    ensures CanBeReleased(x, id, p, owners) <==> Completed(x, id, p) || Cancelled(x.inputs, id, p.engine)
  {
    hide Run, Consistent, Finished, Cancelled, Completed, Submitted, ReleaseOrder, AcceptedAsNew;
    if Completed(x, id, p) || Cancelled(x.inputs, id, p.engine) {
      var events := [Release(id)];
      assert events[..0] == [];
      assert RunFrom(x, events, p) == Next(x, Release(id), p);
      assert AllCustomary(x, events, p, owners);
    } else {
      assert Stranded(x, id, p);
      forall events | AllCustomary(x, events, p, owners) ensures id !in RunFrom(x, events, p).released {
        StrandedForever(x, events, id, p, owners);
      }
    }
  }

  // ----- an order that is stranded -----

  /** A sell that must be filled at once. */
  const SELL_NOW := Order("now", "seller", Sell, ImmediateOrCancel, At(1), NoPrice, 1, 0, 1, GTC, New, Disabled, 0, 0)

  const RESERVED := Money(map[SELLER_KEY := Wallet(Amount(1), Amount(1)), BUYER_KEY := Wallet(STAKE, 0.0)],
                          map["now" := FillSettlement.Reservation("BTC", Amount(1))])
  const SELLER_ONLY: Owners := map["now" := "seller"]

  /** The seller's order meets an empty book. */
  const UNMET := [Elsewhere(FUNDED), Place(SELL_NOW), Take(Submit(SELL_NOW))]

  const UNMET_END := Exchange([Submit(SELL_NOW)], 0, RESERVED, map["now" := SELL_NOW], {})

  lemma UnmetRuns()
    ensures RunFrom(IDLE, UNMET, FREE_PAIR) == UNMET_END && AllPossible(IDLE, UNMET, FREE_PAIR, SELLER_ONLY)
  {
    hide Run, Next, Possible;
    var x1 := Exchange([], 0, FUNDED, map[], {});
    var x2 := Exchange([], 0, RESERVED, map["now" := SELL_NOW], {});
    UnmetSteps();
    assert [] + [UNMET[0]] == UNMET[..1] && UNMET[..1] + [UNMET[1]] == UNMET[..2] && UNMET[..2] + [UNMET[2]] == UNMET;
    RunFromOneMore(IDLE, [], UNMET[0], FREE_PAIR, SELLER_ONLY);
    RunFromOneMore(IDLE, UNMET[..1], UNMET[1], FREE_PAIR, SELLER_ONLY);
    RunFromOneMore(IDLE, UNMET[..2], UNMET[2], FREE_PAIR, SELLER_ONLY);
  }

  lemma UnmetSteps()
    ensures var x1 := Exchange([], 0, FUNDED, map[], {});
      var x2 := Exchange([], 0, RESERVED, map["now" := SELL_NOW], {});
      && Next(IDLE, Elsewhere(FUNDED), FREE_PAIR) == x1 && Possible(IDLE, Elsewhere(FUNDED), SELLER_ONLY)
      && Next(x1, Place(SELL_NOW), FREE_PAIR) == x2 && Possible(x1, Place(SELL_NOW), SELLER_ONLY)
      && Next(x2, Take(Submit(SELL_NOW)), FREE_PAIR) == UNMET_END && Possible(x2, Take(Submit(SELL_NOW)), SELLER_ONLY)
  {
    hide Run;
    AmountsArePositive();
    NothingReserved(FUNDED, SELLER_ONLY);
    assert RESERVED.rows == FUNDED.rows[SELLER_KEY := Wallet(Amount(1), Amount(1))];
    assert UNMET_END.inputs == [] + [Submit(SELL_NOW)];
  }

  lemma UnmetTradesNothing()
    ensures Run(EMPTY, [Submit(SELL_NOW)], Disabled) == (EMPTY, [])
    ensures !Cancelled([Submit(SELL_NOW)], "now", Disabled)
  {
    var inputs := [Submit(SELL_NOW)];
    assert inputs[..0] == [];
    assert Sweep(EMPTY, SELL_NOW, Disabled) == Outcome(EMPTY, SELL_NOW, []);
    assert [] + Step(EMPTY, Submit(SELL_NOW), Disabled).1 == [];
  }

  /** A sell that had to be filled at once found nobody: its quantity stays locked, and nothing ever releases it. */
  lemma UnmetSellIsStranded()
    ensures AllPossible(IDLE, UNMET, FREE_PAIR, SELLER_ONLY)
    ensures var x := RunFrom(IDLE, UNMET, FREE_PAIR);
      && Stranded(x, "now", FREE_PAIR) && LockedOf(x.money.rows, SELLER_KEY) > 0.0
      && !CanBeReleased(x, "now", FREE_PAIR, SELLER_ONLY)
  {
    hide RunFrom, Run, Next, AllPossible, CanBeReleased, Stranded, Consistent, AcceptedAsNew, StillReserved;
    UnmetRuns();
    assert FairRates(FREE_PAIR.rates);
    RunKeeps(UNMET, FREE_PAIR, SELLER_ONLY);
    UnmetIsStranded();
    FinishedIsReleasedIff(UNMET_END, "now", FREE_PAIR, SELLER_ONLY);
    AmountsArePositive();
  }

  lemma UnmetIsStranded()
    ensures Stranded(UNMET_END, "now", FREE_PAIR) && Finished(UNMET_END, "now", FREE_PAIR)
    ensures !Completed(UNMET_END, "now", FREE_PAIR) && !Cancelled(UNMET_END.inputs, "now", Disabled)
    ensures "now" in UNMET_END.accepted && "now" in Submitted(UNMET_END.inputs) && "now" !in UNMET_END.released
  {
    hide Run, Cancelled;
    UnmetTradesNothing();
    assert UNMET_END.inputs[..0] == [];
  }
}
