/**
 * The order handler, the engine and settlement running beside each other on one wallet: orders are reserved as they
 * arrive, the engine takes inputs at its own pace, its trades wait to be settled, and reservations are released. Every
 * fill of orders still reserved settles, whatever the interleaving, as long as no order is released before its fills.
 */
module ExchangeLaws {
  import opened MatchingTypes
  import opened MapSums
  import opened BookSpec
  import opened MatchingSpec
  import opened MatchingLaws
  import opened LedgerLaws
  import opened FillIds
  import opened WalletStores
  import opened FillSettlement
  import opened SettlementLaws
  import opened ReservationLaws

  /** A trading pair: its assets and fee rates, and the self-trade prevention of its engine. */
  datatype Pair = Pair(base: Asset, quote: Asset, rates: Rates, engine: Stp)

  datatype Exchange = Exchange(
    inputs: seq<Input>,         // what the engine took so far, in order
    settled: nat,               // how many of its trades settlement is done with
    money: Money,
    accepted: map<Id, Order>,   // orders the handler let through, reserved where they need it
    released: set<Id>)
  {
    function Engine(p: Pair): (Book, seq<Trade>) { Run(EMPTY, inputs, p.engine) }

    function Trades(p: Pair): seq<Trade> { Engine(p).1 }

    /** The orders whose reservation was not given back. */
    function Held(): map<Id, Order> { accepted - released }
  }

  datatype Event =
    | Place(order: Order)         // the handler reserves for an order
    | Take(input: Input)          // the engine executes its next input
    | Settle                      // settlement takes the next fill
    | Drop                        // the next fill was dropped at a full channel
    | Release(id: Id)             // after a refusal, a cancel or the fill that completes the order
    | Elsewhere(money: Money)     // anything else that happens in the wallet

  /** What the wallet reserves for an order; None if nothing, or if the order is malformed. */
  function Reservation(o: Order, p: Pair): Option<FillSettlement.Reservation> {
    Reserve(o.side, o.kind, Amount(o.price.Units()), Amount(o.quantity), p.base, p.quote, p.rates)
  }

  predicate Malformed(o: Order) {
    o.quantity <= 0 || (o.side == Buy && o.kind == Limit && o.price.Units() <= 0)
  }

  function Next(x: Exchange, e: Event, p: Pair): Exchange {
    match e
    case Place(o) =>
      if Malformed(o) then x
      else if Reservation(o, p) == None then x.(accepted := x.accepted[o.id := o])
      else
        (match ReserveOrder(x.money, o.id, o.user, Reservation(o, p).value)
         case None => x
         case Some(m) => x.(money := m, accepted := x.accepted[o.id := o]))
    case Take(input) => x.(inputs := x.inputs + [input])
    case Settle =>
      if x.settled < |x.Trades(p)|
      then x.(money := SettleTrade(x.money, x.Trades(p)[x.settled], p.base, p.quote, p.rates).0, settled := x.settled + 1)
      else x
    case Drop => if x.settled < |x.Trades(p)| then x.(settled := x.settled + 1) else x
    case Release(id) =>
      if id in x.accepted
      then x.(money := ReleaseOrder(x.money, id, x.accepted[id].user, true), released := x.released + {id})
      else x
    case Elsewhere(m) => x.(money := m)
  }

  function RunFrom(x: Exchange, events: seq<Event>, p: Pair): Exchange {
    if events == [] then x else Next(RunFrom(x, events[..|events| - 1], p), events[|events| - 1], p)
  }

  /** The rest of the wallet keeps it solvent, every reservation locked, and this pair's reservations as they are. */
  ghost predicate Undisturbed(x: Exchange, m: Money, owners: Owners) {
    && Solvent(m.rows) && Backed(m, owners)
    && forall id :: id in x.accepted ==>
         (id in m.tracker <==> id in x.money.tracker) && (id in m.tracker ==> m.tracker[id] == x.money.tracker[id])
  }

  /** Ids are new, the engine is given accepted orders once each and none that was released, and the rest behaves. */
  ghost predicate Possible(x: Exchange, e: Event, owners: Owners) {
    match e
    case Place(o) =>
      Submittable(o) && o.id !in x.accepted && o.id !in x.money.tracker && o.id in owners && owners[o.id] == o.user
    case Take(input) =>
      input.Submit? ==> input.order.id in x.accepted && x.accepted[input.order.id] == input.order
                        && Unused(input.order.id, x.inputs) && input.order.id !in x.released
    case Elsewhere(m) => Undisturbed(x, m, owners)
    case _ => true
  }

  ghost predicate AllPossible(x: Exchange, events: seq<Event>, p: Pair, owners: Owners) {
    events == [] ||
      var n := |events| - 1;
      AllPossible(x, events[..n], p, owners) && Possible(RunFrom(x, events[..n], p), events[n], owners)
  }

  lemma RunFromOneMore(x: Exchange, events: seq<Event>, e: Event, p: Pair, owners: Owners)
    ensures RunFrom(x, events + [e], p) == Next(RunFrom(x, events, p), e, p)
    ensures AllPossible(x, events, p, owners) && Possible(RunFrom(x, events, p), e, owners) ==>
      AllPossible(x, events + [e], p, owners)
  {
    assert (events + [e])[..|events|] == events;
  }

  /** Some trade of the order is not settled yet. */
  ghost predicate Unsettled(x: Exchange, id: Id, p: Pair) {
    exists i :: x.settled <= i < |x.Trades(p)| && Mentions(x.Trades(p)[i], id)
  }

  /** The order is out of the engine, and all its trades are settled. */
  ghost predicate Finished(x: Exchange, id: Id, p: Pair) {
    !Unsettled(x, id, p) && Absent(id, x.Engine(p).0)
  }

  ghost predicate Timely(x: Exchange, e: Event, p: Pair) {
    e.Release? ==> Finished(x, e.id, p)
  }

  ghost predicate AllTimely(x: Exchange, events: seq<Event>, p: Pair) {
    events == [] ||
      var n := |events| - 1;
      AllTimely(x, events[..n], p) && Timely(RunFrom(x, events[..n], p), events[n], p)
  }

  // ----- what every run keeps -----

  ghost predicate Consistent(x: Exchange, p: Pair, owners: Owners) {
    && Legal(x.inputs) && x.settled <= |x.Trades(p)|
    && (forall id :: id in Submitted(x.inputs) ==> id in x.accepted && x.accepted[id] == Submitted(x.inputs)[id])
    && (forall id :: id in x.accepted ==> x.accepted[id].id == id)
    && OwnersAre(owners, x.accepted) && x.released <= x.accepted.Keys
    && Solvent(x.money.rows) && Backed(x.money, owners)
  }

  /** Whoever is still in the engine, or still has trades to settle, has a reservation that covers them. */
  ghost predicate StillReserved(x: Exchange, p: Pair) {
    && x.settled <= |x.Trades(p)|
    && (forall id :: id in x.released ==> Finished(x, id, p))
    && AllCovered(x.money.tracker, x.Held(), x.Trades(p)[..x.settled], p.base, p.quote, p.rates)
  }

  predicate FairRates(r: Rates) {
    ValidRates(r) && r.maker <= HighestRate(r)
  }

  // ----- what the engine can still do to an order -----

  lemma RunOneMore(inputs: seq<Input>, input: Input, engine: Stp)
    ensures var before := Run(EMPTY, inputs, engine);
      Run(EMPTY, inputs + [input], engine)
      == (Step(before.0, input, engine).0, before.1 + Step(before.0, input, engine).1)
    ensures var was := Submitted(inputs);
      Submitted(inputs + [input]) == if input.Submit? then was[input.order.id := input.order] else was
  {
    assert (inputs + [input])[..|inputs|] == inputs;
  }

  lemma LegalOneMore(inputs: seq<Input>, input: Input)
    requires Legal(inputs) && (input.Submit? ==> Submittable(input.order) && Unused(input.order.id, inputs))
    ensures Legal(inputs + [input])
  {
    var all := inputs + [input];
    assert forall i :: 0 <= i < |inputs| ==> all[i] == inputs[i] && all[..i] == inputs[..i];
    assert all[..|inputs|] == inputs;
  }

  lemma SweepLeavesOut(b: Book, o: Order, engine: Stp, id: Id)
    requires id != o.id && Absent(id, b)
    ensures Traded(Sweep(b, o, engine).trades, id) == 0
  {
    hide Walk;
    UntouchedByWalk(o, b.Queue(o.side.Opposite()), engine, id);
  }

  lemma ProcessLeavesOut(b: Book, o: Order, engine: Stp, id: Id)
    requires id != o.id && Absent(id, b)
    ensures Traded(Process(b, o, engine).trades, id) == 0
  {
    hide Sweep, Add, Park;
    var t := if o.remaining <= 0 then o.(remaining := o.quantity) else o;
    SweepLeavesOut(b, t, engine, id);
    SweepLeavesOut(b, Fired(t), engine, id);
  }

  lemma {:induction false} FireAllLeavesOut(b: Book, fired: seq<Order>, engine: Stp, id: Id)
    requires WellFormed(b) && AllJoin(b, fired) && Absent(id, b) && AbsentFrom(id, fired)
    ensures Traded(FireAll(b, fired, engine).1, id) == 0
    decreases |fired|
  {
    hide Sweep, WellFormed, Absent, Joins;
    if fired != [] {
      assert fired[0] in fired;
      var first := MatchFired(b, fired[0], engine);
      SweepLeavesOut(b, Fired(fired[0]), engine, id);
      AllJoinTail(b, fired, engine);
      assert AbsentFrom(id, fired[1..]);
      FireAllLeavesOut(first.book, fired[1..], engine, id);
      TradedAppend(first.trades, FireAll(first.book, fired[1..], engine).1, id);
    }
  }

  /** An order that is not in the book, and not being submitted, takes no part in a step. */
  lemma StepLeavesOut(b: Book, input: Input, engine: Stp, id: Id)
    requires WellFormed(b) && Absent(id, b) && (input.Submit? ==> Acceptable(b, input.order) && input.order.id != id)
    ensures Traded(Step(b, input, engine).1, id) == 0 && Absent(id, Step(b, input, engine).0)
  {
    hide Process, Cancel, FireAll, WellFormed, Absent, Select;
    StepSucceeds(b, input, engine);
    match input
    case Submit(o) => ProcessLeavesOut(b, o, engine, id);
    case Withdraw(_, _) =>
    case Trigger =>
      SelectedJoin(b);
      AbsentSelected(b, id);
      FireAllLeavesOut(b.(stops := Select(b.stops, b.last, false)), Select(b.stops, b.last, true), engine, id);
  }

  lemma AbsentSelected(b: Book, id: Id)
    requires Absent(id, b)
    ensures Absent(id, b.(stops := Select(b.stops, b.last, false))) && AbsentFrom(id, Select(b.stops, b.last, true))
  {
    SelectContents(b.stops, b.last, false);
    SelectContents(b.stops, b.last, true);
  }

  /** Accepted or not, what trades was submitted. */
  lemma TradesAreHonest(x: Exchange, p: Pair, owners: Owners)
    requires Consistent(x, p, owners)
    ensures forall t :: t in x.Trades(p) ==> Honest(t, Submitted(x.inputs)) && Honest(t, x.accepted)
    ensures WithinQuantities(Submitted(x.inputs), x.Trades(p))
    ensures WithinQuantities(x.accepted, x.Trades(p))
  {
    hide Run;
    RunLedger(x.inputs, p.engine);
    var trades := x.Trades(p);
    forall id | id in x.accepted ensures 0 <= Traded(trades, id) <= Cap(x.accepted[id].quantity) {
      if id !in Submitted(x.inputs) { TradesAreKnown(trades, Submitted(x.inputs), id); }
    }
  }

  lemma FinishedStays(x: Exchange, input: Input, id: Id, p: Pair, owners: Owners)
    requires Consistent(x, p, owners) && Finished(x, id, p) && id in x.accepted
    requires input.Submit? ==> Acceptable(x.Engine(p).0, input.order) && input.order.id != id
    requires Consistent(Next(x, Take(input), p), p, owners)
    ensures Finished(Next(x, Take(input), p), id, p)
  {
    hide Run, Step, Absent, WellFormed;
    var y := Next(x, Take(input), p);
    RunIsWellFormed(x.inputs, p.engine);
    StepLeavesOut(x.Engine(p).0, input, p.engine, id);
    RunOneMore(x.inputs, input, p.engine);
    var more := Step(x.Engine(p).0, input, p.engine).1;
    TradesAreHonest(y, p, owners);
    forall t | t in more ensures t.quantity > 0 {
      assert t in y.Trades(p);
    }
    Unmentioned(more, id);
    forall i | x.settled <= i < |y.Trades(p)| ensures !Mentions(y.Trades(p)[i], id) {
      if i < |x.Trades(p)| {
        assert y.Trades(p)[i] == x.Trades(p)[i];
      } else {
        assert y.Trades(p)[i] == more[i - |x.Trades(p)|];
      }
    }
  }

  // ----- each event -----

  lemma PlaceKeeps(x: Exchange, o: Order, p: Pair, owners: Owners)
    requires Consistent(x, p, owners) && Possible(x, Place(o), owners)
    ensures Consistent(Next(x, Place(o), p), p, owners)
    ensures StillReserved(x, p) ==> StillReserved(Next(x, Place(o), p), p)
  {
    hide Run, Solvent, Backed, Submitted, WorstCost, Finished, AllCovered, Reservation, ReserveOrder;
    var y := Next(x, Place(o), p);
    PlaceKeepsMoney(x, o, p, owners);
    SubmittedWasAccepted(x, o, p, owners);
    AcceptedGrows(x, o, p);
    hide Next;
    if StillReserved(x, p) && y != x {
      PlacedIsCovered(x, o, p, owners);
      FinishedLater(x, y, p);
    }
  }

  lemma AcceptedGrows(x: Exchange, o: Order, p: Pair)
    ensures var y := Next(x, Place(o), p);
      && y.inputs == x.inputs && y.settled == x.settled && y.released == x.released
      && (y == x || y.accepted == x.accepted[o.id := o])
  {
    hide ReserveOrder, Reservation;
  }

  lemma PlaceKeepsMoney(x: Exchange, o: Order, p: Pair, owners: Owners)
    requires Consistent(x, p, owners) && Possible(x, Place(o), owners)
    ensures var m := Next(x, Place(o), p).money; Solvent(m.rows) && Backed(m, owners)
  {
    hide Run, Solvent, Backed, Submitted, WorstCost, ReserveOrder;
    if !Malformed(o) && Reservation(o, p).Some? && ReserveOrder(x.money, o.id, o.user, Reservation(o, p).value).Some? {
      ReservationIsPositive(o, p);
      ReserveKeeps(x.money, owners, o.id, o.user, Reservation(o, p).value);
    }
  }

  /** The orders the engine has taken are other than the one placed now. */
  lemma SubmittedWasAccepted(x: Exchange, o: Order, p: Pair, owners: Owners)
    ensures Consistent(x, p, owners) && o.id !in x.accepted ==> o.id !in Submitted(x.inputs)
  {
  }

  lemma ReservationIsPositive(o: Order, p: Pair)
    requires !Malformed(o) && Submittable(o)
    ensures Reservation(o, p).Some? <==> Prepaid(o)
    ensures Reservation(o, p).Some? ==> Reservation(o, p).value.remaining > 0.0
  {
    AmountSplits(o.quantity, 0);
    AmountSplits(o.price.Units(), 0);
    if o.side == Buy && o.kind == Limit { WorstCostPositive(Amount(o.price.Units()), Amount(o.quantity), p.rates); }
  }

  /** The new order is covered from the start, and no other order's coverage changes. */
  lemma PlacedIsCovered(x: Exchange, o: Order, p: Pair, owners: Owners)
    requires Consistent(x, p, owners) && Possible(x, Place(o), owners) && StillReserved(x, p) && Next(x, Place(o), p) != x
    ensures var y := Next(x, Place(o), p);
      AllCovered(y.money.tracker, y.Held(), y.Trades(p)[..y.settled], p.base, p.quote, p.rates)
  {
    hide Run, Solvent, Backed, Submitted, Covered, WorstCost;
    var y, done := Next(x, Place(o), p), x.Trades(p)[..x.settled];
    ReservationIsPositive(o, p);
    TradesAreHonest(x, p, owners);
    TradesAreKnown(done, Submitted(x.inputs), o.id);
    forall id | id in y.Held() && Prepaid(y.Held()[id])
      ensures y.Held()[id].id == id
      ensures Covered(y.money.tracker, y.Held()[id], Traded(done, id), p.base, p.quote, p.rates)
    {
      if Reservation(o, p).Some? {
        ReserveCovers(x.money, o, p.base, p.quote, p.rates, y.Held()[id], Traded(done, id));
      }
      if id != o.id { assert id in x.Held(); }
    }
  }

  lemma TakeKeeps(x: Exchange, input: Input, p: Pair, owners: Owners)
    requires Consistent(x, p, owners) && Possible(x, Take(input), owners)
    requires input.Submit? ==> Submittable(input.order)
    ensures Consistent(Next(x, Take(input), p), p, owners)
    ensures StillReserved(x, p) ==> StillReserved(Next(x, Take(input), p), p)
  {
    hide Run, Step, Solvent, Backed, AllCovered, Finished, Submitted;
    var y := Next(x, Take(input), p);
    RunOneMore(x.inputs, input, p.engine);
    LegalOneMore(x.inputs, input);
    assert y.inputs[..|x.inputs|] == x.inputs;
    LastIsAcceptable(y.inputs, p.engine);
    assert y.Trades(p)[..x.settled] == x.Trades(p)[..x.settled];
    if StillReserved(x, p) {
      forall id | id in y.released ensures Finished(y, id, p) {
        FinishedStays(x, input, id, p, owners);
      }
    }
  }

  /** A trade that is not settled was made by orders whose reservations were not given back. */
  lemma UnsettledIsHeld(x: Exchange, p: Pair, owners: Owners)
    requires Consistent(x, p, owners) && x.settled < |x.Trades(p)|
    requires forall id :: id in x.released ==> Finished(x, id, p)
    ensures var t := x.Trades(p)[x.settled];
      Honest(t, x.Held()) && NamesOwners(FillOf(t, p.base, p.quote), x.money.tracker, owners)
  {
    hide Run, Submitted, Solvent, Backed;
    TradesAreHonest(x, p, owners);
    var t := x.Trades(p)[x.settled];
    assert t in x.Trades(p) && Mentions(t, t.buyOrder) && Mentions(t, t.sellOrder);
    assert t.buyOrder !in x.released && t.sellOrder !in x.released;
  }

  lemma SettledPrefix(x: Exchange, p: Pair, owners: Owners)
    requires Consistent(x, p, owners) && x.settled < |x.Trades(p)|
    ensures var trades := x.Trades(p);
      && trades[..x.settled] + [trades[x.settled]] == trades[..x.settled + 1]
      && WithinQuantities(x.Held(), trades[..x.settled]) && WithinQuantities(x.Held(), trades[..x.settled + 1])
  {
    hide Run, Submitted;
    TradesAreHonest(x, p, owners);
    HonestAreReal(x.Trades(p), x.accepted);
    PrefixWithin(x.accepted, x.Trades(p), x.settled);
    PrefixWithin(x.accepted, x.Trades(p), x.settled + 1);
  }

  lemma SettleKeeps(x: Exchange, p: Pair, owners: Owners)
    requires Consistent(x, p, owners) && FairRates(p.rates)
    ensures Consistent(Next(x, Settle, p), p, owners)
    ensures StillReserved(x, p) ==> StillReserved(Next(x, Settle, p), p)
  {
    hide Run, Submitted, Solvent, Backed, SettleTrade, AllCovered, NamesOwners;
    var y := Next(x, Settle, p);
    if x.settled < |x.Trades(p)| {
      SettleKeepsMoney(x, p, owners);
      if StillReserved(x, p) {
        FinishedLater(x, y, p);
        UnsettledIsHeld(x, p, owners);
        SettledPrefix(x, p, owners);
        HeldOwners(x, p, owners);
        TradeKeepsSound(x.money, owners, x.Held(), x.Trades(p)[..x.settled], x.Trades(p)[x.settled], p.base, p.quote, p.rates);
      }
    }
  }

  lemma HeldOwners(x: Exchange, p: Pair, owners: Owners)
    ensures Consistent(x, p, owners) ==> OwnersAre(owners, x.Held())
  {
  }

  /** Settling keeps the wallet in order even for an order whose reservation is gone. */
  lemma SettleKeepsMoney(x: Exchange, p: Pair, owners: Owners)
    requires Consistent(x, p, owners) && FairRates(p.rates) && x.settled < |x.Trades(p)|
    ensures var m := SettleTrade(x.money, x.Trades(p)[x.settled], p.base, p.quote, p.rates).0;
      Solvent(m.rows) && Backed(m, owners)
  {
    hide Run, Submitted, Solvent, Backed, SettleFill;
    TradesAreHonest(x, p, owners);
    var t := x.Trades(p)[x.settled];
    assert t in x.Trades(p);
    var f := FillOf(t, p.base, p.quote);
    if f.Valid() { FillKeeps(x.money, owners, f, p.rates); }
  }

  lemma FinishedSame(x: Exchange, y: Exchange, id: Id, p: Pair)
    requires y.inputs == x.inputs && y.settled >= x.settled && Finished(x, id, p)
    ensures Finished(y, id, p)
  {
    hide Run;
    forall i | y.settled <= i < |y.Trades(p)| ensures !Mentions(y.Trades(p)[i], id) {
      assert y.Trades(p)[i] == x.Trades(p)[i];
    }
  }

  /** Settling more trades leaves what is finished finished. */
  lemma FinishedLater(x: Exchange, y: Exchange, p: Pair)
    requires y.inputs == x.inputs && y.settled >= x.settled && y.released == x.released
    requires forall id :: id in x.released ==> Finished(x, id, p)
    ensures forall id :: id in y.released ==> Finished(y, id, p)
  {
    hide Run, Finished;
    forall id | id in y.released ensures Finished(y, id, p) {
      FinishedSame(x, y, id, p);
    }
  }

  lemma DropKeeps(x: Exchange, p: Pair, owners: Owners)
    requires Consistent(x, p, owners)
    ensures Consistent(Next(x, Drop, p), p, owners)
    ensures StillReserved(x, p) ==> StillReserved(Next(x, Drop, p), p)
  {
    hide Run, Submitted, Solvent, Backed, AllCovered;
    if x.settled < |x.Trades(p)| && StillReserved(x, p) {
      var y := Next(x, Drop, p);
      FinishedLater(x, y, p);
      UnsettledIsHeld(x, p, owners);
      SettledPrefix(x, p, owners);
      UnsettledIsCovered(x.money.tracker, x.Held(), x.Trades(p)[..x.settled], x.Trades(p)[x.settled], p.base, p.quote, p.rates);
    }
  }

  lemma ReleaseEventKeeps(x: Exchange, id: Id, p: Pair, owners: Owners)
    requires Consistent(x, p, owners)
    ensures Consistent(Next(x, Release(id), p), p, owners)
    ensures StillReserved(x, p) && Finished(x, id, p) ==> StillReserved(Next(x, Release(id), p), p)
  {
    hide Run, Submitted, Solvent, Backed;
    if id in x.accepted {
      var y := Next(x, Release(id), p);
      ReleaseKeeps(x.money, owners, id, x.accepted[id].user);
      if StillReserved(x, p) && Finished(x, id, p) {
        forall i | i in y.released ensures Finished(y, i, p) {
          FinishedSame(x, y, i, p);
        }
        ReleaseCoversOthers(x, id, p);
      }
    }
  }

  lemma ReleaseCoversOthers(x: Exchange, id: Id, p: Pair)
    requires x.settled <= |x.Trades(p)|
    requires id in x.accepted && AllCovered(x.money.tracker, x.Held(), x.Trades(p)[..x.settled], p.base, p.quote, p.rates)
    ensures var y := Next(x, Release(id), p);
      AllCovered(y.money.tracker, y.Held(), y.Trades(p)[..y.settled], p.base, p.quote, p.rates)
  {
    hide Run, Need;
    var y := Next(x, Release(id), p);
    assert y.money.tracker == x.money.tracker - {id};
    forall i | i in y.Held() ensures i in x.Held() && y.Held()[i] == x.Held()[i] && i != id {
    }
  }

  lemma ElsewhereKeeps(x: Exchange, m: Money, p: Pair, owners: Owners)
    requires Consistent(x, p, owners) && Undisturbed(x, m, owners)
    ensures Consistent(Next(x, Elsewhere(m), p), p, owners)
    ensures StillReserved(x, p) ==> StillReserved(Next(x, Elsewhere(m), p), p)
  {
    hide Run, Submitted, Solvent, Backed, Need;
    var y := Next(x, Elsewhere(m), p);
    if StillReserved(x, p) {
      FinishedLater(x, y, p);
      forall id | id in y.Held() && Prepaid(y.Held()[id])
        ensures Covered(m.tracker, y.Held()[id], Traded(y.Trades(p)[..y.settled], id), p.base, p.quote, p.rates)
      {
        assert id in x.Held() && id in x.accepted;
      }
    }
  }

  // ----- every run -----

  lemma NextKeeps(x: Exchange, e: Event, p: Pair, owners: Owners)
    requires Consistent(x, p, owners) && AcceptedAsNew(x) && Possible(x, e, owners) && FairRates(p.rates)
    ensures Consistent(Next(x, e, p), p, owners) && AcceptedAsNew(Next(x, e, p))
    ensures StillReserved(x, p) && Timely(x, e, p) ==> StillReserved(Next(x, e, p), p)
  {
    hide Run, Consistent, StillReserved, SettleTrade, ReleaseOrder, ReserveOrder, Reservation, Undisturbed, Finished;
    match e
    case Place(o) => PlaceKeeps(x, o, p, owners);
    case Take(input) => TakeKeeps(x, input, p, owners);
    case Settle => SettleKeeps(x, p, owners);
    case Drop => DropKeeps(x, p, owners);
    case Release(id) => ReleaseEventKeeps(x, id, p, owners);
    case Elsewhere(m) => ElsewhereKeeps(x, m, p, owners);
  }

  ghost predicate AcceptedAsNew(x: Exchange) {
    forall id :: id in x.accepted ==> Submittable(x.accepted[id])
  }

  const IDLE := Exchange([], 0, Money(map[], map[]), map[], {})

  lemma IdleIsReserved(p: Pair, owners: Owners)
    ensures Consistent(IDLE, p, owners) && AcceptedAsNew(IDLE) && StillReserved(IDLE, p)
  {
    forall user, asset ensures Foreign(IDLE.money, owners, user, asset) >= 0.0 {
      NothingHeld(owners, user, asset);
    }
  }

  lemma NothingHeld(owners: Owners, user: User, asset: Asset)
    ensures Held(map[], owners, user, asset) == 0.0
  {
    var t: Tracker := map[];
    var held := map id | id in t && id in owners && owners[id] == user && t[id].asset == asset :: t[id].remaining;
    assert held == map[];
  }

  lemma {:induction false} RunKeeps(events: seq<Event>, p: Pair, owners: Owners)
    requires AllPossible(IDLE, events, p, owners) && FairRates(p.rates)
    ensures var x := RunFrom(IDLE, events, p);
      Consistent(x, p, owners) && AcceptedAsNew(x) && (AllTimely(IDLE, events, p) ==> StillReserved(x, p))
    decreases |events|
  {
    hide Next, Consistent, StillReserved, Possible, Timely, AcceptedAsNew;
    if events == [] {
      IdleIsReserved(p, owners);
    } else {
      var n := |events| - 1;
      RunKeeps(events[..n], p, owners);
      NextKeeps(RunFrom(IDLE, events[..n], p), events[n], p, owners);
    }
  }

  /** Whether settlement succeeds in settling the next fill. */
  predicate NextSettles(x: Exchange, p: Pair)
    requires x.settled < |x.Trades(p)|
  {
    SettleTrade(x.money, x.Trades(p)[x.settled], p.base, p.quote, p.rates).1
  }

  /** What the buyer of a fill can pay: what is available, and the portion of its reservation. */
  function Payable(m: Money, f: Fill, r: Rates): real {
    Available(m.rows, Key1(f.Buyer(), f.quote)) + Portion(m.tracker, f.BuyOrder(), f.quote, f.Cost(r))
  }

  /**
   * In every run in which no order is released before its fills, the next fill settles if the buyer reserved, and in
   * any case exactly when its price is positive and the buyer can pay.
   */
  lemma EveryFillSettles(events: seq<Event>, p: Pair, owners: Owners)
    requires AllPossible(IDLE, events, p, owners) && AllTimely(IDLE, events, p) && FairRates(p.rates)
    requires var x := RunFrom(IDLE, events, p); x.settled < |x.Trades(p)|
    ensures var x := RunFrom(IDLE, events, p);
      var t := x.Trades(p)[x.settled];
      && t.buyOrder in x.accepted
      && (Prepaid(x.accepted[t.buyOrder]) && t.price > 0 ==> NextSettles(x, p))
      && (NextSettles(x, p) <==>
            t.price > 0 && Payable(x.money, FillOf(t, p.base, p.quote), p.rates) >= FillOf(t, p.base, p.quote).Cost(p.rates))
  {
    hide RunFrom, Run, AllTimely, AllPossible;
    RunKeeps(events, p, owners);
    NextFill(RunFrom(IDLE, events, p), p, owners);
  }

  lemma NextFill(x: Exchange, p: Pair, owners: Owners)
    requires Consistent(x, p, owners) && StillReserved(x, p) && FairRates(p.rates) && x.settled < |x.Trades(p)|
    ensures var t := x.Trades(p)[x.settled];
      && t.buyOrder in x.accepted
      && (Prepaid(x.accepted[t.buyOrder]) && t.price > 0 ==> NextSettles(x, p))
      && (NextSettles(x, p) <==>
            t.price > 0 && Payable(x.money, FillOf(t, p.base, p.quote), p.rates) >= FillOf(t, p.base, p.quote).Cost(p.rates))
  {
    hide Run, Submitted, Solvent, Backed, SettleFill, AllCovered, Portion;
    var t, done := x.Trades(p)[x.settled], x.Trades(p)[..x.settled];
    var f := FillOf(t, p.base, p.quote);
    UnsettledIsHeld(x, p, owners);
    SettledPrefix(x, p, owners);
    HeldOwners(x, p, owners);
    AmountSplits(t.quantity, 0);
    AmountSplits(t.price, 0);
    AmountSplits(0, -t.price);
    TradeKeepsSound(x.money, owners, x.Held(), done, t, p.base, p.quote, p.rates);
    if t.price > 0 {
      NextTradeIsCovered(x.money.tracker, x.Held(), done, t, p.base, p.quote, p.rates);
      FillSettlesIff(x.money, owners, f, p.rates);
    }
  }

  // ----- when a release is timely -----

  /** What is not settled of an order counts beside what is. */
  lemma UnsettledCounts(x: Exchange, id: Id, p: Pair, owners: Owners)
    requires Consistent(x, p, owners)
    ensures var all, done := Traded(x.Trades(p), id), Traded(x.Trades(p)[..x.settled], id);
      0 <= done && if Unsettled(x, id, p) then done < all else done == all
  {
    hide Run, Submitted;
    var trades := x.Trades(p);
    var done, rest := trades[..x.settled], trades[x.settled..];
    assert done + rest == trades;
    TradesAreHonest(x, p, owners);
    HonestAreReal(trades, x.accepted);
    TradedAppend(done, rest, id);
    QuantitiesAddUp(done, id);
    QuantitiesAddUp(rest, id);
    if Unsettled(x, id, p) {
      var i :| x.settled <= i < |trades| && Mentions(trades[i], id);
      assert rest[i - x.settled] == trades[i];
      if Traded(rest, id) == 0 { Unmentioned(rest, id); }
    } else {
      assert forall i :: 0 <= i < |rest| ==> rest[i] == trades[x.settled + i];
      NotMentioned(rest, id);
    }
  }

  lemma {:induction false} NotMentioned(trades: seq<Trade>, id: Id)
    requires forall i :: 0 <= i < |trades| ==> !Mentions(trades[i], id)
    ensures Traded(trades, id) == 0
  {
    if trades != [] { NotMentioned(trades[1..], id); }
  }

  /** The release after the fill that completes an order is timely. */
  lemma CompletedIsFinished(x: Exchange, id: Id, p: Pair, owners: Owners)
    requires Consistent(x, p, owners) && id in x.accepted && id in Submitted(x.inputs)
    requires Traded(x.Trades(p)[..x.settled], id) == x.accepted[id].quantity
    ensures Finished(x, id, p)
  {
    hide Run, Submitted;
    UnsettledCounts(x, id, p, owners);
    TradesAreHonest(x, p, owners);
    RunLedger(x.inputs, p.engine);
    RunIsWellFormed(x.inputs, p.engine);
    var b := x.Engine(p).0;
    forall o | o in b.bids || o in b.asks || o in b.stops ensures o.id != id {
      assert o.filled < o.quantity;
      assert o.id == id ==> o.filled == Traded(x.Trades(p), id);
    }
  }

  /** The release after a cancel is timely exactly when none of the order's trades waits to be settled. */
  lemma CancelledIsFinishedIff(x: Exchange, id: Id, user: User, p: Pair, owners: Owners)
    requires Consistent(x, p, owners) && Cancel(x.Engine(p).0, id, user).1.Done?
    ensures var y := Next(x, Take(Withdraw(id, user)), p); Finished(y, id, p) <==> !Unsettled(x, id, p)
  {
    hide Run;
    var b := x.Engine(p).0;
    RunOneMore(x.inputs, Withdraw(id, user), p.engine);
    var y := Next(x, Take(Withdraw(id, user)), p);
    assert y.Trades(p) == x.Trades(p);
    RunIsWellFormed(x.inputs, p.engine);
    CancelledIsAbsent(b, id, user);
  }

  lemma CancelledIsAbsent(b: Book, id: Id, user: User)
    requires WellFormed(b) && Cancel(b, id, user).1.Done?
    ensures Absent(id, Cancel(b, id, user).0)
  {
    var o := Lookup(b, id).value;
    WithoutContents(b.bids, id);
    WithoutContents(b.asks, id);
    assert o in b.Queue(o.side) && o.id == id;
    forall z | z in b.stops ensures z.id != id { assert Apart(o, z); }
    if o.side == Buy {
      forall z | z in b.asks ensures z.id != id { assert Apart(o, z); }
    } else {
      forall z | z in b.bids ensures z.id != id { assert Apart(z, o); }
    }
  }

  /** Both sides of every waiting fill still have a reservation, if they ever had one. */
  ghost predicate FillsReserved(x: Exchange, p: Pair) {
    forall i, id ::
      x.settled <= i < |x.Trades(p)| && Mentions(x.Trades(p)[i], id) && id in x.accepted && Prepaid(x.accepted[id]) ==>
        id in x.money.tracker
  }

  lemma ReservedFills(x: Exchange, p: Pair, owners: Owners)
    requires Consistent(x, p, owners) && StillReserved(x, p)
    ensures FillsReserved(x, p)
  {
    hide Run, Submitted, Solvent, Backed, Need;
    TradesAreHonest(x, p, owners);
    forall i, id | x.settled <= i < |x.Trades(p)| && Mentions(x.Trades(p)[i], id) && id in x.accepted && Prepaid(x.accepted[id])
      ensures id in x.money.tracker
    {
      UnsettledCounts(x, id, p, owners);
      assert Unsettled(x, id, p) && id !in x.released;
      assert id in x.Held();
    }
  }

  /** Releasing an order leaves every waiting fill its reservations exactly when none of them is the order's. */
  lemma ReleaseIsTimelyIff(x: Exchange, id: Id, p: Pair, owners: Owners)
    requires Consistent(x, p, owners) && StillReserved(x, p) && id in x.accepted && Prepaid(x.accepted[id])
    ensures FillsReserved(Next(x, Release(id), p), p) <==> !Unsettled(x, id, p)
  {
    hide Run, Submitted, Solvent, Backed, AllCovered;
    ReservedFills(x, p, owners);
    var y := Next(x, Release(id), p);
    assert y.money.tracker == x.money.tracker - {id} && y.Trades(p) == x.Trades(p);
    if Unsettled(x, id, p) {
      var i :| x.settled <= i < |x.Trades(p)| && Mentions(x.Trades(p)[i], id);
      assert Mentions(y.Trades(p)[i], id);
    }
  }
}
