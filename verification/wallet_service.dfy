/** The wallet service: it holds the reservations and settles fills against the store, one instance alone. */
module WalletServices {
  import opened MatchingTypes
  import opened WalletStores
  import FillSettlement
  import opened SettlementLaws

  type Money = FillSettlement.Money
  type Fill = FillSettlement.Fill
  type Rates = FillSettlement.Rates
  type Reservation = FillSettlement.Reservation
  type Tracker = FillSettlement.Tracker

  datatype SettleResult = Done | AlreadyProcessed | Refused | SettleFailed

  function PriceOf(price: Option<real>): real {
    if price.Some? then price.value else 0.0
  }

  class Service {
    const store: PGWalletStore
    const rates: Rates
    var reservations: Tracker
    var processedFills: set<Id>

    constructor (store: PGWalletStore, rates: Rates)
      ensures this.store == store && this.rates == rates
      ensures reservations == map[] && processedFills == {}
    {
      this.store := store;
      this.rates := rates;
      reservations := map[];
      processedFills := {};
    }

    ghost function State(): Money
      reads this, store
    {
      FillSettlement.Money(store.rows, reservations)
    }

    /** Locks what the order can cost at worst; an order with nothing to lock is let through. */
    method ReserveOrder(order: Id, user: User, base: Asset, quote: Asset, side: Side, kind: OrderType, price: Option<real>, qty: real)
      returns (r: Result<Option<Reservation>>)
      modifies this`reservations, store`rows
      ensures r == NegativeAmount <==> qty <= 0.0 || (side == Buy && kind == Limit && (price.None? || price.value <= 0.0))
      ensures r.Ok? ==> r.value == FillSettlement.Reserve(side, kind, PriceOf(price), qty, base, quote, rates)
      ensures r.Ok? && r.value.Some? ==> FillSettlement.ReserveOrder(old(State()), order, user, r.value.value) == Some(State())
      ensures !(r.Ok? && r.value.Some?) ==> State() == old(State())
      ensures r == InsufficientBalance ==>
        var v := FillSettlement.Reserve(side, kind, PriceOf(price), qty, base, quote, rates);
        v.Some? && FillSettlement.ReserveOrder(old(State()), order, user, v.value) == None
      ensures r != DailyLimitExceeded
    {
      if qty <= 0.0 {
        return NegativeAmount;
      }
      var asset, amt;
      if side == Buy && kind == Limit {
        if price.None? || price.value <= 0.0 {
          return NegativeAmount;
        }
        asset := quote;
        var notional := price.value * qty;
        assert notional > 0.0;
        amt := notional;
        if rates.taker > 0.0 {
          assert notional * rates.taker > 0.0;
          amt := notional + notional * rates.taker;
        }
        assert amt == FillSettlement.WorstCost(price.value, qty, rates);
        assert FillSettlement.Reserve(side, kind, price.value, qty, base, quote, rates) == Some(FillSettlement.Reservation(asset, amt));
      } else if side == Sell {
        asset := base;
        amt := qty;
      } else {
        return Ok(None);
      }
      var reserved := store.ReserveForAccount(Key(user, asset, Spot), amt);
      if !reserved.Ok? {
        return InsufficientBalance;
      }
      reservations := reservations[order := FillSettlement.Reservation(asset, amt)];
      r := Ok(Some(FillSettlement.Reservation(asset, amt)));
    }

    /** Forgets the order's reservation and unlocks what is left of it, if the store answers. */
    method ReleaseOrder(order: Id, user: User, reachable: bool) returns (ok: bool)
      modifies this`reservations, store`rows
      ensures State() == FillSettlement.ReleaseOrder(old(State()), order, user, reachable)
    {
      if order !in reservations {
        return true;
      }
      var r := reservations[order];
      reservations := reservations - {order};
      if r.remaining <= 0.0 {
        return true;
      }
      ok := false;
      if reachable {
        ok := store.Settle([Op(Key(user, r.asset, Spot), r.remaining, 0.0)]);
      }
    }

    /** A fill settles once per id; a failed settlement leaves the rows and the reservations as they were. */
    method SettleFill(fillId: Id, f: Fill) returns (r: SettleResult)
      modifies this`reservations, this`processedFills, store`rows
      ensures r == Refused <==> !f.Valid()
      ensures r == AlreadyProcessed <==> f.Valid() && fillId in old(processedFills)
      ensures r == Refused || r == AlreadyProcessed ==> State() == old(State())
      ensures r == Done || r == SettleFailed ==> (State(), r == Done) == FillSettlement.SettleFill(old(State()), f, rates)
      ensures processedFills == old(processedFills) + if r == Done then {fillId} else {}
    {
      hide Settled, FillSettlement.SideOps;
      if f.qty <= 0.0 || f.price <= 0.0 {
        return Refused;
      }
      if fillId in processedFills {
        return AlreadyProcessed;
      }
      var buyerRes, buyerUnlock := DrawDown(f.BuyOrder(), f.quote, f.Cost(rates));
      var sellerRes, sellerUnlock := DrawDown(f.SellOrder(), f.base, f.qty);
      var ops := FillBatch(f, buyerUnlock, sellerUnlock);
      var ok := store.Settle(ops);
      if !ok {
        // what was drawn last goes back first, as one order may be on both sides
        Restore(f.SellOrder(), sellerRes, sellerUnlock);
        Restore(f.BuyOrder(), buyerRes, buyerUnlock);
        assert reservations == old(reservations);
        return SettleFailed;
      }
      processedFills := processedFills + {fillId};
      r := Done;
    }

    /** The mutations of one fill, with the fees and the parties told apart by the taker's side. */
    method FillBatch(f: Fill, buyerUnlock: real, sellerUnlock: real) returns (ops: seq<Op>)
      ensures ops == FillSettlement.SideOps(f.Buyer(), f.quote, buyerUnlock, f.Cost(rates), f.base, f.qty)
                     + FillSettlement.SideOps(f.Seller(), f.base, sellerUnlock, f.qty, f.quote, f.Proceeds(rates))
    {
      var notional := f.price * f.qty;
      var takerFee, makerFee := notional * rates.taker, notional * rates.maker;
      var buyer, seller, buyerFee, sellerFee := f.takerUser, f.makerUser, takerFee, makerFee;
      if f.takerSide == Sell {
        buyer, seller, buyerFee, sellerFee := f.makerUser, f.takerUser, makerFee, takerFee;
      }
      var buyerDebit := notional + buyerFee;
      assert buyerDebit == f.Cost(rates) && notional - sellerFee == f.Proceeds(rates);
      ops := [];
      if buyerUnlock > 0.0 {
        ops := ops + [Op(Key(buyer, f.quote, Spot), buyerUnlock, 0.0)];
      }
      ops := ops + [Op(Key(buyer, f.quote, Spot), 0.0, -buyerDebit)];
      ops := ops + [Op(Key(buyer, f.base, Spot), 0.0, f.qty)];
      ghost var bought := ops;
      assert bought == FillSettlement.SideOps(buyer, f.quote, buyerUnlock, buyerDebit, f.base, f.qty);
      if sellerUnlock > 0.0 {
        ops := ops + [Op(Key(seller, f.base, Spot), sellerUnlock, 0.0)];
      }
      ops := ops + [Op(Key(seller, f.base, Spot), 0.0, -f.qty)];
      ops := ops + [Op(Key(seller, f.quote, Spot), 0.0, notional - sellerFee)];
      assert ops == bought + FillSettlement.SideOps(seller, f.base, sellerUnlock, f.qty, f.quote, notional - sellerFee);
    }

    /** Takes the payment out of the order's reservation, as far as it goes, and drops an exhausted reservation. */
    method DrawDown(order: Id, asset: Asset, want: real) returns (left: Option<Reservation>, unlock: real)
      modifies this`reservations
      ensures unlock == FillSettlement.Portion(old(reservations), order, asset, want)
      ensures reservations == FillSettlement.Draw(old(reservations), order, asset, want)
      ensures left == if FillSettlement.On(old(reservations), order, asset)
                      then Some(FillSettlement.Reservation(asset, old(reservations)[order].remaining - unlock)) else None
    {
      left, unlock := None, 0.0;
      if order in reservations && reservations[order].asset == asset {
        unlock := want;
        if unlock > reservations[order].remaining {
          unlock := reservations[order].remaining;
        }
        var rest := reservations[order].remaining - unlock;
        left := Some(FillSettlement.Reservation(asset, rest));
        reservations := reservations[order := FillSettlement.Reservation(asset, rest)];
        if rest <= 0.0 {
          reservations := reservations - {order};
        }
      }
    }

    /** Puts back what a failed settlement had drawn. */
    method Restore(order: Id, left: Option<Reservation>, unlock: real)
      modifies this`reservations
      ensures reservations == if left == None then old(reservations)
                              else old(reservations)[order := FillSettlement.Reservation(left.value.asset, left.value.remaining + unlock)]
    {
      if left.Some? {
        reservations := reservations[order := FillSettlement.Reservation(left.value.asset, left.value.remaining + unlock)];
      }
    }
  }
}
