/**
 * What the wallet reserves for an order covers every fill the engine can produce for it, whenever a maker pays no higher
 * rate than the worst case reserved for: from the price of one fill to the next trade of a run.
 */
module ReservationLaws {
  import opened MatchingTypes
  import opened BookSpec
  import opened MatchingSpec
  import opened MatchingLaws
  import opened LedgerLaws
  import opened WalletStores
  import opened FillSettlement
  import opened SettlementLaws

  const UNIT: real := 0.000000000000000001

  /** An amount the engine counts in units of 10^-18. */
  function Amount(units: int): real {
    units as real * UNIT
  }

  /** The notification the engine sends for a trade. */
  function FillOf(t: Trade, base: Asset, quote: Asset): Fill {
    if t.takerSide == Sell
    then Fill(base, quote, Sell, t.sellOrder, t.buyOrder, t.seller, t.buyer, Amount(t.price), Amount(t.quantity))
    else Fill(base, quote, Buy, t.buyOrder, t.sellOrder, t.buyer, t.seller, Amount(t.price), Amount(t.quantity))
  }

  /** Settling a trade; one at no positive price is refused by the wallet. */
  function SettleTrade(m: Money, t: Trade, base: Asset, quote: Asset, r: Rates): (Money, bool) {
    if FillOf(t, base, quote).Valid() then SettleFill(m, FillOf(t, base, quote), r) else (m, false)
  }

  // ----- the price of a fill, in either role -----

  function HighestRate(r: Rates): real {
    if r.taker > 0.0 then r.taker else 0.0
  }

  lemma WorstCostIs(price: real, qty: real, r: Rates)
    ensures WorstCost(price, qty, r) == price * qty * (1.0 + HighestRate(r))
  {
    var n, h := price * qty, HighestRate(r);
    assert n * (1.0 + h) == n + n * h;
  }

  lemma CostIs(f: Fill, r: Rates)
    ensures f.Cost(r) == f.price * f.qty * (1.0 + if f.takerSide == Sell then r.maker else r.taker)
  {
    var n, h := f.price * f.qty, if f.takerSide == Sell then r.maker else r.taker;
    assert n * (1.0 + h) == n + n * h;
  }

  lemma ProductsGrow(p: real, q: real, x: real, limit: real, y: real)
    requires 0.0 < p <= limit && q > 0.0 && x <= y && y >= 0.0
    ensures p * q * (1.0 + x) <= limit * q * (1.0 + y)
  {
    var n, m := p * q, limit * q;
    NotNegative(limit - p, q);
    assert 0.0 < n && n <= m;
    NotNegative(n, y - x);
    assert n * (1.0 + x) <= n * (1.0 + y);
    NotNegative(m - n, 1.0 + y);
  }

  lemma NotNegative(a: real, b: real)
    ensures a >= 0.0 && b >= 0.0 ==> a * b >= 0.0
  {
  }

  /** No fill within the limit costs more than the same quantity reserved. */
  lemma FillWithinReserve(f: Fill, limit: real, r: Rates)
    requires f.Valid() && f.price <= limit && r.maker <= HighestRate(r)
    ensures f.Cost(r) <= WorstCost(limit, f.qty, r)
  {
    WorstCostIs(limit, f.qty, r);
    CostIs(f, r);
    ProductsGrow(f.price, f.qty, if f.takerSide == Sell then r.maker else r.taker, limit, HighestRate(r));
  }

  /** A limit buy's reservation covers every fill within its limit exactly when makers pay no more than that rate. */
  lemma ReserveSufficesIff(limit: real, qty: real, r: Rates)
    requires limit > 0.0 && qty > 0.0
    ensures (forall f: Fill :: f.Valid() && f.price <= limit && f.qty == qty ==> f.Cost(r) <= WorstCost(limit, qty, r))
      <==> r.maker <= HighestRate(r)
  {
    if r.maker <= HighestRate(r) {
      forall f: Fill | f.Valid() && f.price <= limit && f.qty == qty ensures f.Cost(r) <= WorstCost(limit, qty, r) {
        FillWithinReserve(f, limit, r);
      }
    } else {
      var f := Fill("", "", Sell, "", "", "", "", limit, qty);
      CostIs(f, r);
      WorstCostIs(limit, qty, r);
      var n := limit * qty;
      assert n > 0.0 && n * (r.maker - HighestRate(r)) > 0.0;
      assert f.Valid() && !(f.Cost(r) <= WorstCost(limit, qty, r));
    }
  }

  /** A limit buy locks just what taking all of it at the limit costs, a sell its quantity, any other buy nothing. */
  lemma ReservesWorstFill(side: Side, kind: OrderType, f: Fill, r: Rates)
    requires f.Valid() && f.takerSide == Buy
    ensures Reserve(side, kind, f.price, f.qty, f.base, f.quote, r) ==
      if side == Sell then Some(FillSettlement.Reservation(f.base, f.qty))
      else if kind != Limit then None
      else Some(FillSettlement.Reservation(f.quote, if r.taker >= 0.0 then f.Cost(r) else f.price * f.qty))
  {
    CostIs(f, r);
    WorstCostIs(f.price, f.qty, r);
    if r.taker == 0.0 { assert f.price * f.qty * (1.0 + 0.0) == f.price * f.qty; }
  }

  lemma WorstCostSplits(limit: real, a: real, b: real, r: Rates)
    ensures WorstCost(limit, a + b, r) == WorstCost(limit, a, r) + WorstCost(limit, b, r)
  {
    WorstCostIs(limit, a + b, r);
    WorstCostIs(limit, a, r);
    WorstCostIs(limit, b, r);
    var h := 1.0 + HighestRate(r);
    assert limit * (a + b) == limit * a + limit * b;
    assert (limit * a + limit * b) * h == limit * a * h + limit * b * h;
  }

  lemma WorstCostPositive(limit: real, qty: real, r: Rates)
    requires limit > 0.0 && qty > 0.0
    ensures WorstCost(limit, qty, r) > 0.0
  {
    assert limit * qty > 0.0;
    if r.taker > 0.0 {
      assert limit * qty * r.taker > 0.0;
    }
  }

  // ----- what every order still needs -----

  /** The orders the wallet reserves for: sells, and limit buys at a positive limit. */
  predicate Prepaid(s: Order) {
    s.side == Sell || (s.kind == Limit && s.price.At? && s.price.units > 0)
  }

  function Pays(s: Order, base: Asset, quote: Asset): Asset {
    if s.side == Sell then base else quote
  }

  /** What the rest of an order can still cost, in the asset it pays. */
  function Need(s: Order, unfilled: int, r: Rates): real {
    if s.side == Sell then Amount(unfilled) else WorstCost(Amount(s.price.Units()), Amount(unfilled), r)
  }

  predicate Covered(t: Tracker, s: Order, filled: int, base: Asset, quote: Asset, r: Rates) {
    s.quantity > filled ==> On(t, s.id, Pays(s, base, quote)) && t[s.id].remaining >= Need(s, s.quantity - filled, r)
  }

  /** Every reserved order's reservation covers what is left of it after those trades. */
  ghost predicate AllCovered(t: Tracker, known: map<Id, Order>, trades: seq<Trade>, base: Asset, quote: Asset, r: Rates) {
    forall id :: id in known && Prepaid(known[id]) ==>
      known[id].id == id && Covered(t, known[id], Traded(trades, id), base, quote, r)
  }

  lemma AmountSplits(a: int, b: int)
    ensures Amount(a + b) == Amount(a) + Amount(b)
    ensures a > 0 ==> Amount(a) > 0.0
    ensures a <= b ==> Amount(a) <= Amount(b)
  {
  }

  lemma NeedSplits(s: Order, a: int, b: int, r: Rates)
    requires Prepaid(s)
    ensures Need(s, a + b, r) == Need(s, a, r) + Need(s, b, r)
    ensures a > 0 ==> Need(s, a, r) > 0.0
  {
    hide WorstCost, Amount;
    AmountSplits(a, b);
    if s.side == Buy {
      AmountSplits(s.price.units, 0);
      WorstCostSplits(Amount(s.price.units), Amount(a), Amount(b), r);
      if a > 0 { WorstCostPositive(Amount(s.price.units), Amount(a), r); }
    }
  }

  /** What a trade takes from one of its parties is no more than that party needs for the quantity. */
  lemma PaymentWithinNeed(s: Order, t: Trade, base: Asset, quote: Asset, r: Rates)
    requires Prepaid(s) && WithinLimit(s, t.price) && FillOf(t, base, quote).Valid() && r.maker <= HighestRate(r)
    ensures s.side == Buy ==> FillOf(t, base, quote).Cost(r) <= Need(s, t.quantity, r)
    ensures s.side == Sell ==> FillOf(t, base, quote).qty == Need(s, t.quantity, r)
  {
    if s.side == Buy {
      AmountSplits(t.price, s.price.units);
      FillWithinReserve(FillOf(t, base, quote), Amount(s.price.units), r);
    }
  }

  /** Paying for part of an order out of its reservation leaves enough for the rest. */
  lemma DrawKeepsCovered(t: Tracker, s: Order, filled: int, qty: int, want: real, base: Asset, quote: Asset, r: Rates)
    requires Prepaid(s) && qty > 0 && filled + qty <= s.quantity
    requires Covered(t, s, filled, base, quote, r) && want <= Need(s, qty, r)
    ensures CoversFill(t, s.id, Pays(s, base, quote), want)
    ensures Covered(Draw(t, s.id, Pays(s, base, quote), want), s, filled + qty, base, quote, r)
  {
    hide Need;
    var rest := s.quantity - filled - qty;
    NeedSplits(s, qty, rest, r);
    NeedSplits(s, rest, qty, r);
    assert qty + rest == s.quantity - filled;
    NeedOfNothing(s, r);
  }

  lemma NeedOfNothing(s: Order, r: Rates)
    ensures Need(s, 0, r) == 0.0
  {
    WorstCostIs(Amount(s.price.Units()), 0.0, r);
  }

  lemma CoveredByLess(t: Tracker, s: Order, filled: int, more: int, base: Asset, quote: Asset, r: Rates)
    requires Prepaid(s) && filled <= more && Covered(t, s, filled, base, quote, r)
    ensures Covered(t, s, more, base, quote, r)
  {
    hide Need;
    if s.quantity > more {
      NeedSplits(s, s.quantity - more, more - filled, r);
      NeedSplits(s, more - filled, s.quantity - more, r);
      NeedOfNothing(s, r);
      assert s.quantity - more + (more - filled) == s.quantity - filled;
    }
  }

  // ----- one trade, then a whole run -----

  lemma DrawOther(t: Tracker, order: Id, asset: Asset, want: real, s: Order, filled: int, base: Asset, quote: Asset, r: Rates)
    requires s.id != order
    ensures Covered(Draw(t, order, asset, want), s, filled, base, quote, r) <==> Covered(t, s, filled, base, quote, r)
  {
    hide Need;
  }

  ghost predicate WithinQuantities(known: map<Id, Order>, trades: seq<Trade>) {
    forall id :: id in known ==> 0 <= Traded(trades, id) <= Cap(known[id].quantity)
  }

  lemma TradedOne(trades: seq<Trade>, t: Trade, id: Id)
    ensures Traded(trades + [t], id) == Traded(trades, id) + if t.buyOrder == id || t.sellOrder == id then t.quantity else 0
  {
    TradedAppend(trades, [t], id);
    assert [t][1..] == [];
  }

  /** Both reserved parties of the engine's next trade can pay, and what is left covers what is left of every order. */
  lemma NextTradeIsCovered(tr: Tracker, known: map<Id, Order>, trades: seq<Trade>, t: Trade, base: Asset, quote: Asset, r: Rates)
    requires AllCovered(tr, known, trades, base, quote, r) && Honest(t, known) && r.maker <= HighestRate(r)
    requires WithinQuantities(known, trades) && WithinQuantities(known, trades + [t])
    requires FillOf(t, base, quote).Valid()
    ensures var f := FillOf(t, base, quote);
      && (Prepaid(known[t.buyOrder]) ==> CoversFill(tr, t.buyOrder, quote, f.Cost(r)))
      && CoversFill(tr, t.sellOrder, base, f.qty)
      && AllCovered(AfterFill(tr, f, r), known, trades + [t], base, quote, r)
  {
    hide Need, Draw, Covered;
    var f := FillOf(t, base, quote);
    var b, s := known[t.buyOrder], known[t.sellOrder];
    TradedOne(trades, t, t.buyOrder);
    TradedOne(trades, t, t.sellOrder);
    if Prepaid(b) {
      PaymentWithinNeed(b, t, base, quote, r);
      DrawKeepsCovered(tr, b, Traded(trades, t.buyOrder), t.quantity, f.Cost(r), base, quote, r);
    }
    PaymentWithinNeed(s, t, base, quote, r);
    DrawKeepsCovered(tr, s, Traded(trades, t.sellOrder), t.quantity, f.qty, base, quote, r);
    var mid := AfterBuyer(tr, f, r);
    DrawOther(tr, t.buyOrder, quote, f.Cost(r), s, Traded(trades, t.sellOrder), base, quote, r);
    DrawKeepsCovered(mid, s, Traded(trades, t.sellOrder), t.quantity, f.qty, base, quote, r);
    forall id | id in known && Prepaid(known[id])
      ensures known[id].id == id && Covered(AfterFill(tr, f, r), known[id], Traded(trades + [t], id), base, quote, r)
    {
      TradedOne(trades, t, id);
      if id != t.buyOrder {
        DrawOther(tr, t.buyOrder, quote, f.Cost(r), known[id], Traded(trades + [t], id), base, quote, r);
      }
      if id != t.sellOrder {
        DrawOther(mid, t.sellOrder, base, f.qty, known[id], Traded(trades + [t], id), base, quote, r);
      }
    }
  }

  /** A trade that is not settled only leaves more reserved than needed. */
  lemma UnsettledIsCovered(tr: Tracker, known: map<Id, Order>, trades: seq<Trade>, t: Trade, base: Asset, quote: Asset, r: Rates)
    requires AllCovered(tr, known, trades, base, quote, r) && t.quantity > 0
    ensures AllCovered(tr, known, trades + [t], base, quote, r)
  {
    hide Need, Covered;
    forall id | id in known && Prepaid(known[id])
      ensures Covered(tr, known[id], Traded(trades + [t], id), base, quote, r)
    {
      TradedOne(trades, t, id);
      CoveredByLess(tr, known[id], Traded(trades, id), Traded(trades + [t], id), base, quote, r);
    }
  }

  /** The owners known to the wallet are the users who submitted the orders. */
  ghost predicate OwnersAre(owners: Owners, known: map<Id, Order>) {
    forall id :: id in known ==> id in owners && owners[id] == known[id].user
  }

  ghost predicate Sound(m: Money, owners: Owners, known: map<Id, Order>, trades: seq<Trade>, base: Asset, quote: Asset, r: Rates) {
    Solvent(m.rows) && Backed(m, owners) && AllCovered(m.tracker, known, trades, base, quote, r)
  }

  lemma TradeKeepsSound(m: Money, owners: Owners, known: map<Id, Order>, trades: seq<Trade>, t: Trade, base: Asset, quote: Asset, r: Rates)
    requires Sound(m, owners, known, trades, base, quote, r) && OwnersAre(owners, known)
    requires Honest(t, known) && ValidRates(r) && r.maker <= HighestRate(r)
    requires WithinQuantities(known, trades) && WithinQuantities(known, trades + [t])
    ensures var (m', ok) := SettleTrade(m, t, base, quote, r);
      && Sound(m', owners, known, trades + [t], base, quote, r) && SameForeign(m, m', owners)
      && (Prepaid(known[t.buyOrder]) && t.price > 0 ==> ok)
  {
    hide SettleFill, Solvent, Backed, AllCovered, SameForeign;
    var f := FillOf(t, base, quote);
    AmountSplits(t.quantity, 0);
    AmountSplits(t.price, 0);
    UnsettledIsCovered(m.tracker, known, trades, t, base, quote, r);
    SameForeignReflexive(m, owners);
    if f.Valid() {
      NextTradeIsCovered(m.tracker, known, trades, t, base, quote, r);
      FillKeeps(m, owners, f, r);
      if Prepaid(known[t.buyOrder]) {
        CoveredFillSettles(m, owners, f, r);
      }
      SettledOrSame(m, f, r);
    }
  }

  lemma SameForeignReflexive(m: Money, owners: Owners)
    ensures SameForeign(m, m, owners)
  {
  }

  lemma SettledOrSame(m: Money, f: Fill, r: Rates)
    ensures SettleFill(m, f, r).0.tracker == if SettleFill(m, f, r).1 then AfterFill(m.tracker, f, r) else m.tracker
  {
  }

  lemma {:induction false} PrefixWithin(known: map<Id, Order>, trades: seq<Trade>, n: nat)
    requires WithinQuantities(known, trades) && n <= |trades| && forall t :: t in trades ==> t.quantity > 0
    ensures WithinQuantities(known, trades[..n])
  {
    forall id | id in known ensures 0 <= Traded(trades[..n], id) <= Cap(known[id].quantity) {
      TradedAppend(trades[..n], trades[n..], id);
      assert trades[..n] + trades[n..] == trades;
      TradedNonNegative(trades[..n], id);
      TradedNonNegative(trades[n..], id);
    }
  }

  lemma {:induction false} TradedNonNegative(trades: seq<Trade>, id: Id)
    requires forall t :: t in trades ==> t.quantity > 0
    ensures Traded(trades, id) >= 0
  {
    if trades != [] {
      assert trades[0] in trades;
      TradedNonNegative(trades[1..], id);
    }
  }

  lemma HonestAreReal(trades: seq<Trade>, known: map<Id, Order>)
    ensures (forall t :: t in trades ==> Honest(t, known)) ==> (forall t :: t in trades ==> t.quantity > 0)
  {
  }

  /** Reserving an order as the wallet does covers it from the start, and no other order is affected. */
  lemma ReserveCovers(m: Money, s: Order, base: Asset, quote: Asset, r: Rates, o: Order, filled: int)
    requires Prepaid(s) && s.quantity > 0
    requires var v := Reserve(s.side, s.kind, Amount(s.price.Units()), Amount(s.quantity), base, quote, r);
      v.Some? && ReserveOrder(m, s.id, s.user, v.value).Some?
    ensures var v := Reserve(s.side, s.kind, Amount(s.price.Units()), Amount(s.quantity), base, quote, r).value;
      var m' := ReserveOrder(m, s.id, s.user, v).value;
      && Covered(m'.tracker, s, 0, base, quote, r)
      && (o.id != s.id ==> (Covered(m'.tracker, o, filled, base, quote, r) <==> Covered(m.tracker, o, filled, base, quote, r)))
  {
  }
}
