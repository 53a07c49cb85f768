/**
 * Order reservations and the settlement of fills, as functions of the wallet rows and the reservation tracker, with
 * the laws that tie the two together. Fee rates are fractions of the notional; a rebate is a negative rate.
 */
module FillSettlement {
  import opened MatchingTypes
  import opened MapSums
  import opened WalletStores

  datatype Rates = Rates(taker: real, maker: real)

  datatype Reservation = Reservation(asset: Asset, remaining: real)

  type Tracker = map<Id, Reservation>

  datatype Fill = Fill(
    base: Asset,
    quote: Asset,
    takerSide: Side,
    takerOrder: Id,
    makerOrder: Id,
    takerUser: User,
    makerUser: User,
    price: real,
    qty: real)
  {
    function Notional(): real { price * qty }

    function BuyOrder(): Id { if takerSide == Sell then makerOrder else takerOrder }

    function SellOrder(): Id { if takerSide == Sell then takerOrder else makerOrder }

    function Buyer(): User { if takerSide == Sell then makerUser else takerUser }

    function Seller(): User { if takerSide == Sell then takerUser else makerUser }

    function BuyerFee(r: Rates): real { Notional() * (if takerSide == Sell then r.maker else r.taker) }

    function SellerFee(r: Rates): real { Notional() * (if takerSide == Sell then r.taker else r.maker) }

    /** What the buyer pays. */
    function Cost(r: Rates): real { Notional() + BuyerFee(r) }

    /** What the seller receives. */
    function Proceeds(r: Rates): real { Notional() - SellerFee(r) }

    predicate Valid() { price > 0.0 && qty > 0.0 }
  }

  // ----- reserving -----

  /** The worst case a limit buy reserves for: all of it at its limit, at the taker's fee. */
  function WorstCost(price: real, qty: real, r: Rates): real {
    var notional := price * qty;
    if r.taker > 0.0 then notional + notional * r.taker else notional
  }

  /** What an order locks, and of which asset; an order that is neither a limit buy nor a sell locks nothing. */
  function Reserve(side: Side, kind: OrderType, price: real, qty: real, base: Asset, quote: Asset, r: Rates): Option<Reservation> {
    if side == Sell then Some(Reservation(base, qty))
    else if kind == Limit then Some(Reservation(quote, WorstCost(price, qty, r)))
    else None
  }

  // ----- drawing on a reservation -----

  predicate On(t: Tracker, order: Id, asset: Asset) {
    order in t && t[order].asset == asset
  }

  /** What a fill unlocks: what it needs, capped at what is left of the reservation. */
  function Portion(t: Tracker, order: Id, asset: Asset, want: real): real {
    if !On(t, order, asset) then 0.0
    else if want > t[order].remaining then t[order].remaining
    else want
  }

  function Draw(t: Tracker, order: Id, asset: Asset, want: real): Tracker {
    if !On(t, order, asset) then t
    else
      var left := t[order].remaining - Portion(t, order, asset, want);
      if left <= 0.0 then t - {order} else t[order := Reservation(asset, left)]
  }

  // ----- one fill -----

  /** One party: unlock the portion, pay, and be credited in the other asset. */
  function SideOps(user: User, pays: Asset, unlock: real, debit: real, gets: Asset, credit: real): seq<Op> {
    (if unlock > 0.0 then [Op(Key(user, pays, Spot), unlock, 0.0)] else [])
    + [Op(Key(user, pays, Spot), 0.0, -debit), Op(Key(user, gets, Spot), 0.0, credit)]
  }

  function BuyerOps(t: Tracker, f: Fill, r: Rates): seq<Op> {
    SideOps(f.Buyer(), f.quote, Portion(t, f.BuyOrder(), f.quote, f.Cost(r)), f.Cost(r), f.base, f.qty)
  }

  function AfterBuyer(t: Tracker, f: Fill, r: Rates): Tracker {
    Draw(t, f.BuyOrder(), f.quote, f.Cost(r))
  }

  function SellerOps(t: Tracker, f: Fill, r: Rates): seq<Op> {
    SideOps(f.Seller(), f.base, Portion(t, f.SellOrder(), f.base, f.qty), f.qty, f.quote, f.Proceeds(r))
  }

  function FillOps(t: Tracker, f: Fill, r: Rates): seq<Op> {
    BuyerOps(t, f, r) + SellerOps(AfterBuyer(t, f, r), f, r)
  }

  function AfterFill(t: Tracker, f: Fill, r: Rates): Tracker {
    Draw(AfterBuyer(t, f, r), f.SellOrder(), f.base, f.qty)
  }

  /** The wallet state: the rows of the store and the reservations of the service. */
  datatype Money = Money(rows: Rows, tracker: Tracker)

  /** A fill settles as a whole, or neither the rows nor the reservations change. */
  function SettleFill(m: Money, f: Fill, r: Rates): (Money, bool) {
    match Settled(m.rows, FillOps(m.tracker, f, r))
    case None => (m, false)
    case Some(rows) => (Money(rows, AfterFill(m.tracker, f, r)), true)
  }

  function ReserveOrder(m: Money, order: Id, user: User, v: Reservation): Option<Money> {
    match Reserved(m.rows, Key(user, v.asset, Spot), v.remaining)
    case None => None
    case Some(rows) => Some(Money(rows, m.tracker[order := v]))
  }

  /** The reservation is forgotten first; when the store then fails to unlock it, its funds stay locked. */
  function ReleaseOrder(m: Money, order: Id, user: User, unlocked: bool): Money {
    if order !in m.tracker then m
    else
      var v := m.tracker[order];
      if v.remaining <= 0.0 || !unlocked then m.(tracker := m.tracker - {order})
      else
        match Settled(m.rows, [Op(Key(user, v.asset, Spot), v.remaining, 0.0)])
        case None => m.(tracker := m.tracker - {order})
        case Some(rows) => Money(rows, m.tracker - {order})
  }

  // ----- what stands behind the reservations -----

  type Owners = map<Id, User>

  /** The open reservations of one user in one asset together. */
  ghost function Held(t: Tracker, owners: Owners, user: User, asset: Asset): real {
    Sum(map id | id in t && id in owners && owners[id] == user && t[id].asset == asset :: t[id].remaining)
  }

  function LockedOf(rows: Rows, key: Key): real {
    RowOf(rows, key).locked
  }

  /** What is locked in a spot row for other purposes than open orders, withdrawals for one. */
  ghost function Foreign(m: Money, owners: Owners, user: User, asset: Asset): real {
    LockedOf(m.rows, Key(user, asset, Spot)) - Held(m.tracker, owners, user, asset)
  }

  /** Every reservation is positive, has an owner, and is locked in the owner's row beside everything else. */
  ghost predicate Backed(m: Money, owners: Owners) {
    && (forall id :: id in m.tracker ==> id in owners && m.tracker[id].remaining > 0.0)
    && (forall user, asset :: Foreign(m, owners, user, asset) >= 0.0)
  }

  /** Nothing locked for other purposes was touched. */
  ghost predicate SameForeign(m: Money, m': Money, owners: Owners) {
    forall user, asset :: Foreign(m', owners, user, asset) == Foreign(m, owners, user, asset)
  }

  lemma HeldUpdate(t: Tracker, owners: Owners, order: Id, v: Reservation, user: User, asset: Asset)
    requires order in owners
    ensures Held(t[order := v], owners, user, asset) == Held(t, owners, user, asset)
      + (if owners[order] == user && v.asset == asset then v.remaining else 0.0)
      - (if owners[order] == user && On(t, order, asset) then t[order].remaining else 0.0)
  {
    var was := map id | id in t && id in owners && owners[id] == user && t[id].asset == asset :: t[id].remaining;
    var t' := t[order := v];
    var then' := map id | id in t' && id in owners && owners[id] == user && t'[id].asset == asset :: t'[id].remaining;
    if owners[order] == user && v.asset == asset {
      assert then' == was[order := v.remaining];
      SumUpdate(was, order, v.remaining);
    } else if order in was {
      assert then' == was - {order};
      SumWithout(was, order);
    } else {
      assert then' == was;
    }
  }

  lemma HeldRemove(t: Tracker, owners: Owners, order: Id, user: User, asset: Asset)
    requires order in owners
    ensures Held(t - {order}, owners, user, asset) == Held(t, owners, user, asset)
      - (if owners[order] == user && On(t, order, asset) then t[order].remaining else 0.0)
  {
    var was := map id | id in t && id in owners && owners[id] == user && t[id].asset == asset :: t[id].remaining;
    var t' := t - {order};
    var then' := map id | id in t' && id in owners && owners[id] == user && t'[id].asset == asset :: t'[id].remaining;
    if order in was {
      assert then' == was - {order};
      SumWithout(was, order);
    } else {
      assert then' == was;
    }
  }

  /** A reservation is covered by what its owner's row has locked. */
  lemma HeldBounds(m: Money, owners: Owners, order: Id)
    requires Backed(m, owners) && order in m.tracker
    ensures m.tracker[order].remaining <= LockedOf(m.rows, Key(owners[order], m.tracker[order].asset, Spot))
    ensures Key(owners[order], m.tracker[order].asset, Spot) in m.rows
  {
    var t, user, asset := m.tracker, owners[order], m.tracker[order].asset;
    var held := map id | id in t && id in owners && owners[id] == user && t[id].asset == asset :: t[id].remaining;
    SumBounds(held, order);
    assert Foreign(m, owners, user, asset) >= 0.0;
  }

  lemma HeldDraw(t: Tracker, owners: Owners, order: Id, pays: Asset, want: real, user: User, asset: Asset)
    requires On(t, order, pays) ==> order in owners
    ensures Held(Draw(t, order, pays, want), owners, user, asset) == Held(t, owners, user, asset)
      - (if On(t, order, pays) && owners[order] == user && pays == asset then Portion(t, order, pays, want) else 0.0)
  {
    hide Held;
    if On(t, order, pays) {
      var left := t[order].remaining - Portion(t, order, pays, want);
      HeldRemove(t, owners, order, user, asset);
      HeldUpdate(t, owners, order, Reservation(pays, left), user, asset);
    }
  }
}
