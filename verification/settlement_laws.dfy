/**
 * Every reservation, release and fill keeps the wallet solvent and the reservations backed and leaves other locks
 * alone; a party whose reservation covers a fill cannot make it fail.
 */
module SettlementLaws {
  import opened MapSums
  import opened MatchingTypes
  import opened WalletStores
  import opened FillSettlement

  // ----- batches -----

  lemma SettledOne(rows: Rows, op: Op)
    ensures Settled(rows, [op]) == ApplyOp(rows, op)
  {
    assert [op][..0] == [];
  }

  function Then(before: Option<Rows>, ops: seq<Op>): Option<Rows> {
    if before == None then None else Settled(before.value, ops)
  }

  lemma {:induction false} SettledConcat(rows: Rows, a: seq<Op>, b: seq<Op>)
    ensures Settled(rows, a + b) == Then(Settled(rows, a), b)
    decreases |b|
  {
    if b == [] {
      assert a + b == a;
    } else {
      var n := |b| - 1;
      SettledConcat(rows, a, b[..n]);
      assert (a + b)[..|a + b| - 1] == a + b[..n];
    }
  }

  // ----- one side of a fill -----

  function Key1(user: User, asset: Asset): Key {
    Key(user, asset, Spot)
  }

  /** The rows once the portion is unlocked. */
  function AfterUnlock(rows: Rows, key: Key, unlock: real): Rows {
    if unlock > 0.0 then rows[key := RowOf(rows, key).(locked := LockedOf(rows, key) - unlock)] else rows
  }

  lemma SideSplits(rows: Rows, user: User, pays: Asset, unlock: real, debit: real, gets: Asset, credit: real)
    requires unlock <= LockedOf(rows, Key1(user, pays))
    ensures Settled(rows, SideOps(user, pays, unlock, debit, gets, credit)) ==
      Then(ApplyOp(AfterUnlock(rows, Key1(user, pays), unlock), Op(Key1(user, pays), 0.0, -debit)),
           [Op(Key1(user, gets), 0.0, credit)])
  {
    var un := Op(Key1(user, pays), unlock, 0.0);
    var first, second := Op(Key1(user, pays), 0.0, -debit), Op(Key1(user, gets), 0.0, credit);
    var mid := AfterUnlock(rows, un.key, unlock);
    SettledOne(mid, first);
    SettledConcat(mid, [first], [second]);
    assert [first] + [second] == [first, second];
    if unlock > 0.0 {
      SettledOne(rows, un);
      assert ApplyOp(rows, un) == Some(mid);
      SettledConcat(rows, [un], [first, second]);
    } else {
      assert [] + [first, second] == [first, second];
    }
  }

  /** A change of balance alone moves no lock. */
  lemma DeltaKeepsLocked(rows: Rows, key: Key, delta: real, k: Key)
    requires ApplyOp(rows, Op(key, 0.0, delta)).Some?
    ensures LockedOf(ApplyOp(rows, Op(key, 0.0, delta)).value, k) == LockedOf(rows, k)
  {
  }

  lemma PortionBounds(m: Money, owners: Owners, order: Id, user: User, pays: Asset, want: real)
    requires Solvent(m.rows) && Backed(m, owners) && want >= 0.0
    requires On(m.tracker, order, pays) ==> owners[order] == user
    ensures 0.0 <= Portion(m.tracker, order, pays, want) <= LockedOf(m.rows, Key1(user, pays))
  {
    if On(m.tracker, order, pays) {
      HeldBounds(m, owners, order);
    }
  }

  /** The state after one side of a fill. */
  function AfterSide(m: Money, rows: Rows, order: Id, pays: Asset, want: real): Money {
    Money(rows, Draw(m.tracker, order, pays, want))
  }

  lemma SideKeeps(m: Money, owners: Owners, order: Id, user: User, pays: Asset, want: real, gets: Asset, credit: real)
    requires Solvent(m.rows) && Backed(m, owners) && want >= 0.0
    requires On(m.tracker, order, pays) ==> owners[order] == user
    requires Settled(m.rows, SideOps(user, pays, Portion(m.tracker, order, pays, want), want, gets, credit)).Some?
    ensures var ops := SideOps(user, pays, Portion(m.tracker, order, pays, want), want, gets, credit);
      var m' := AfterSide(m, Settled(m.rows, ops).value, order, pays, want);
      Solvent(m'.rows) && Backed(m', owners) && SameForeign(m, m', owners)
  {
    hide Held, Settled, SideOps;
    var p := Portion(m.tracker, order, pays, want);
    PortionBounds(m, owners, order, user, pays, want);
    SideSplits(m.rows, user, pays, p, want, gets, credit);
    var ops := SideOps(user, pays, p, want, gets, credit);
    var mid := AfterUnlock(m.rows, Key1(user, pays), p);
    var paid := ApplyOp(mid, Op(Key1(user, pays), 0.0, -want)).value;
    SettledOne(paid, Op(Key1(user, gets), 0.0, credit));
    var m' := AfterSide(m, Settled(m.rows, ops).value, order, pays, want);
    forall u, a
      ensures Foreign(m', owners, u, a) == Foreign(m, owners, u, a)
    {
      DeltaKeepsLocked(mid, Key1(user, pays), -want, Key1(u, a));
      DeltaKeepsLocked(paid, Key1(user, gets), credit, Key1(u, a));
      HeldDraw(m.tracker, owners, order, pays, want, u, a);
    }
  }

  /** A side whose reservation covers what it pays goes through. */
  lemma SideSucceeds(m: Money, owners: Owners, order: Id, user: User, pays: Asset, want: real, gets: Asset, credit: real)
    requires Solvent(m.rows) && Backed(m, owners) && want >= 0.0 && credit >= 0.0
    requires On(m.tracker, order, pays) && owners[order] == user && m.tracker[order].remaining >= want
    ensures Settled(m.rows, SideOps(user, pays, Portion(m.tracker, order, pays, want), want, gets, credit)).Some?
  {
    hide Held, Settled, SideOps;
    PortionBounds(m, owners, order, user, pays, want);
    SideSplits(m.rows, user, pays, want, want, gets, credit);
    var mid := AfterUnlock(m.rows, Key1(user, pays), want);
    var paid := ApplyOp(mid, Op(Key1(user, pays), 0.0, -want));
    SettledOne(paid.value, Op(Key1(user, gets), 0.0, credit));
  }

  /** A side goes through exactly when what is available, with the portion of its reservation, covers what it pays. */
  lemma SideSettlesIff(m: Money, owners: Owners, order: Id, user: User, pays: Asset, want: real, gets: Asset, credit: real)
    requires Solvent(m.rows) && Backed(m, owners) && want >= 0.0 && credit >= 0.0
    requires On(m.tracker, order, pays) ==> owners[order] == user
    ensures var p := Portion(m.tracker, order, pays, want);
      Settled(m.rows, SideOps(user, pays, p, want, gets, credit)).Some?
      <==> Available(m.rows, Key1(user, pays)) + p >= want
  {
    hide Held, Settled, SideOps;
    var p := Portion(m.tracker, order, pays, want);
    PortionBounds(m, owners, order, user, pays, want);
    SideSplits(m.rows, user, pays, p, want, gets, credit);
    var paid := ApplyOp(AfterUnlock(m.rows, Key1(user, pays), p), Op(Key1(user, pays), 0.0, -want));
    if paid.Some? { SettledOne(paid.value, Op(Key1(user, gets), 0.0, credit)); }
  }

  // ----- a whole fill -----

  /** Fees are at most the notional, rebates too. */
  predicate ValidRates(r: Rates) {
    -1.0 <= r.taker <= 1.0 && -1.0 <= r.maker <= 1.0
  }

  /** The fill names each order's own user. */
  predicate NamesOwners(f: Fill, t: Tracker, owners: Owners) {
    && (On(t, f.BuyOrder(), f.quote) ==> f.BuyOrder() in owners && owners[f.BuyOrder()] == f.Buyer())
    && (On(t, f.SellOrder(), f.base) ==> f.SellOrder() in owners && owners[f.SellOrder()] == f.Seller())
  }

  lemma AmountsAreSigned(f: Fill, r: Rates)
    requires f.Valid() && ValidRates(r)
    ensures f.Cost(r) >= 0.0 && f.Proceeds(r) >= 0.0
  {
    var n := f.Notional();
    assert n > 0.0;
    var b, s := if f.takerSide == Sell then r.maker else r.taker, if f.takerSide == Sell then r.taker else r.maker;
    assert n * (1.0 + b) >= 0.0 && n * (1.0 - s) >= 0.0;
    assert f.Cost(r) == n * (1.0 + b) && f.Proceeds(r) == n * (1.0 - s);
  }

  /** The rows after the buyer's side. */
  function BuyerSide(m: Money, f: Fill, r: Rates): Option<Rows> {
    Settled(m.rows, BuyerOps(m.tracker, f, r))
  }

  lemma FillSplits(m: Money, f: Fill, r: Rates)
    ensures Settled(m.rows, FillOps(m.tracker, f, r)) == Then(BuyerSide(m, f, r), SellerOps(AfterBuyer(m.tracker, f, r), f, r))
  {
    hide BuyerOps, SellerOps, AfterBuyer;
    SettledConcat(m.rows, BuyerOps(m.tracker, f, r), SellerOps(AfterBuyer(m.tracker, f, r), f, r));
  }

  lemma FillKeeps(m: Money, owners: Owners, f: Fill, r: Rates)
    requires Solvent(m.rows) && Backed(m, owners) && f.Valid() && ValidRates(r) && NamesOwners(f, m.tracker, owners)
    ensures var m' := SettleFill(m, f, r).0;
      Solvent(m'.rows) && Backed(m', owners) && SameForeign(m, m', owners)
  {
    hide Held, Settled, Portion, Solvent, SideOps;
    if SettleFill(m, f, r).1 {
      AmountsAreSigned(f, r);
      FillSplits(m, f, r);
      SideKeeps(m, owners, f.BuyOrder(), f.Buyer(), f.quote, f.Cost(r), f.base, f.qty);
      var mid := AfterSide(m, BuyerSide(m, f, r).value, f.BuyOrder(), f.quote, f.Cost(r));
      SideKeeps(mid, owners, f.SellOrder(), f.Seller(), f.base, f.qty, f.quote, f.Proceeds(r));
    }
  }

  /** The order's reservation, in this asset, is enough for that payment. */
  predicate CoversFill(t: Tracker, order: Id, asset: Asset, want: real) {
    On(t, order, asset) && t[order].remaining >= want
  }

  /** A fill whose two orders reserved enough always settles. */
  lemma CoveredFillSettles(m: Money, owners: Owners, f: Fill, r: Rates)
    requires Solvent(m.rows) && Backed(m, owners) && f.Valid() && ValidRates(r) && NamesOwners(f, m.tracker, owners)
    requires f.BuyOrder() != f.SellOrder()
    requires CoversFill(m.tracker, f.BuyOrder(), f.quote, f.Cost(r)) && CoversFill(m.tracker, f.SellOrder(), f.base, f.qty)
    ensures SettleFill(m, f, r).1
  {
    hide Held, Settled, Portion, Solvent, SideOps;
    AmountsAreSigned(f, r);
    FillSplits(m, f, r);
    SideSucceeds(m, owners, f.BuyOrder(), f.Buyer(), f.quote, f.Cost(r), f.base, f.qty);
    SideKeeps(m, owners, f.BuyOrder(), f.Buyer(), f.quote, f.Cost(r), f.base, f.qty);
    var mid := AfterSide(m, BuyerSide(m, f, r).value, f.BuyOrder(), f.quote, f.Cost(r));
    SideSucceeds(mid, owners, f.SellOrder(), f.Seller(), f.base, f.qty, f.quote, f.Proceeds(r));
  }

  /** A fill whose seller reserved enough settles exactly when the buyer can pay, out of its reservation or beside it. */
  lemma FillSettlesIff(m: Money, owners: Owners, f: Fill, r: Rates)
    requires Solvent(m.rows) && Backed(m, owners) && f.Valid() && ValidRates(r) && NamesOwners(f, m.tracker, owners)
    requires f.BuyOrder() != f.SellOrder() && CoversFill(m.tracker, f.SellOrder(), f.base, f.qty)
    ensures SettleFill(m, f, r).1 <==>
      Available(m.rows, Key1(f.Buyer(), f.quote)) + Portion(m.tracker, f.BuyOrder(), f.quote, f.Cost(r)) >= f.Cost(r)
  {
    hide Held, Settled, Portion, Solvent, SideOps;
    AmountsAreSigned(f, r);
    FillSplits(m, f, r);
    SideSettlesIff(m, owners, f.BuyOrder(), f.Buyer(), f.quote, f.Cost(r), f.base, f.qty);
    if BuyerSide(m, f, r).Some? {
      SideKeeps(m, owners, f.BuyOrder(), f.Buyer(), f.quote, f.Cost(r), f.base, f.qty);
      var mid := AfterSide(m, BuyerSide(m, f, r).value, f.BuyOrder(), f.quote, f.Cost(r));
      SideSucceeds(mid, owners, f.SellOrder(), f.Seller(), f.base, f.qty, f.quote, f.Proceeds(r));
    }
  }

  // ----- reserving and releasing -----

  /** A reservation locks exactly what the tracker then holds for the order. */
  lemma ReserveKeeps(m: Money, owners: Owners, order: Id, user: User, v: Reservation)
    requires Solvent(m.rows) && Backed(m, owners) && v.remaining > 0.0
    requires order !in m.tracker && order in owners && owners[order] == user
    requires ReserveOrder(m, order, user, v).Some?
    ensures var m' := ReserveOrder(m, order, user, v).value;
      Solvent(m'.rows) && Backed(m', owners) && SameForeign(m, m', owners)
  {
    hide Held;
    var m' := ReserveOrder(m, order, user, v).value;
    ReservedIsSolvent(m.rows, Key1(user, v.asset), v.remaining);
    forall u, a ensures Foreign(m', owners, u, a) == Foreign(m, owners, u, a) {
      HeldUpdate(m.tracker, owners, order, v, u, a);
    }
  }

  /** A release unlocks exactly what was left of the order's reservation, and keeps no record of it. */
  lemma ReleaseKeeps(m: Money, owners: Owners, order: Id, user: User)
    requires Solvent(m.rows) && Backed(m, owners)
    requires order in m.tracker ==> owners[order] == user
    ensures var m' := ReleaseOrder(m, order, user, true);
      && Solvent(m'.rows) && Backed(m', owners) && SameForeign(m, m', owners) && order !in m'.tracker
      && (order in m.tracker ==>
            var k := Key1(user, m.tracker[order].asset);
            LockedOf(m'.rows, k) == LockedOf(m.rows, k) - m.tracker[order].remaining)
  {
    hide Held;
    if order in m.tracker {
      var v := m.tracker[order];
      var key := Key1(user, v.asset);
      HeldBounds(m, owners, order);
      SettledOne(m.rows, Op(key, v.remaining, 0.0));
      var m' := ReleaseOrder(m, order, user, true);
      assert m'.rows == m.rows[key := m.rows[key].(locked := m.rows[key].locked - v.remaining)];
      forall u, a ensures Foreign(m', owners, u, a) == Foreign(m, owners, u, a) {
        HeldRemove(m.tracker, owners, order, u, a);
      }
    }
  }

  /** When the unlock fails, what was left of the reservation stays locked with nothing standing behind it. */
  lemma FailedReleaseStrands(m: Money, owners: Owners, order: Id, user: User)
    requires order in m.tracker && order in owners && owners[order] == user
    ensures var m' := ReleaseOrder(m, order, user, false);
      && m'.rows == m.rows && order !in m'.tracker
      && Foreign(m', owners, user, m.tracker[order].asset)
         == Foreign(m, owners, user, m.tracker[order].asset) + m.tracker[order].remaining
  {
    hide Held;
    HeldRemove(m.tracker, owners, order, user, m.tracker[order].asset);
  }

  // ----- where the money goes -----

  lemma SideDeltas(user: User, pays: Asset, unlock: real, debit: real, gets: Asset, credit: real, chosen: Key -> bool)
    ensures Deltas(SideOps(user, pays, unlock, debit, gets, credit), chosen) ==
      When(chosen(Key1(user, gets)), credit) - When(chosen(Key1(user, pays)), debit)
  {
    hide Deltas;
    var un, first, second := Op(Key1(user, pays), unlock, 0.0), Op(Key1(user, pays), 0.0, -debit), Op(Key1(user, gets), 0.0, credit);
    DeltasOne(un, chosen);
    DeltasOne(first, chosen);
    DeltasOne(second, chosen);
    DeltasConcat([first], [second], chosen);
    assert [first] + [second] == [first, second];
    DeltasConcat([un], [first, second], chosen);
    assert [] + [first, second] == [first, second];
  }

  /** On any choice of rows a settled fill moves the price of the quantity, the quantity and the two fees, no more. */
  lemma FillMoves(m: Money, f: Fill, r: Rates, chosen: Key -> bool)
    requires SettleFill(m, f, r).1
    ensures Total(SettleFill(m, f, r).0.rows, chosen) == Total(m.rows, chosen)
      + When(chosen(Key1(f.Buyer(), f.base)), f.qty) - When(chosen(Key1(f.Buyer(), f.quote)), f.Cost(r))
      + When(chosen(Key1(f.Seller(), f.quote)), f.Proceeds(r)) - When(chosen(Key1(f.Seller(), f.base)), f.qty)
  {
    hide Deltas, Total, SideOps, Draw, Portion;
    var t := m.tracker;
    var b, s := BuyerOps(t, f, r), SellerOps(AfterBuyer(t, f, r), f, r);
    SettledTotal(m.rows, b + s, chosen);
    DeltasConcat(b, s, chosen);
    SideDeltas(f.Buyer(), f.quote, Portion(t, f.BuyOrder(), f.quote, f.Cost(r)), f.Cost(r), f.base, f.qty, chosen);
    SideDeltas(f.Seller(), f.base, Portion(AfterBuyer(t, f, r), f.SellOrder(), f.base, f.qty), f.qty, f.quote, f.Proceeds(r), chosen);
  }

  /** A fill conserves the base asset, and the quote asset shrinks by exactly the two fees. */
  lemma FillConserves(m: Money, f: Fill, r: Rates, asset: Asset)
    requires SettleFill(m, f, r).1
    ensures Total(SettleFill(m, f, r).0.rows, OfAsset(asset)) == Total(m.rows, OfAsset(asset))
      - When(asset == f.quote, f.Notional() * r.taker + f.Notional() * r.maker)
  {
    hide SettleFill, Total;
    FillMoves(m, f, r, OfAsset(asset));
    FeesAddUp(f, r);
  }

  lemma FeesAddUp(f: Fill, r: Rates)
    ensures f.Cost(r) - f.Proceeds(r) == f.Notional() * r.taker + f.Notional() * r.maker
  {
  }
}
