/**
 * Profit and loss by average cost. A position is long or short; only the part of a fill that reduces it realizes
 * anything. Keys are pairs, where the service joins their halves with a colon.
 */
module ProfitAndLoss {
  import opened MatchingTypes
  import opened MapSums

  type Asset = string
  type Date = string

  datatype Position = Position(qty: real, avgCost: real, realized: real, fees: real)

  datatype PosKey = PosKey(user: User, asset: Asset)

  datatype DayKey = DayKey(user: User, date: Date)

  datatype Fill = Fill(taker: User, maker: User, takerSide: Side, price: real, qty: real)

  datatype Book = Book(positions: map<PosKey, Position>, daily: map<DayKey, real>)

  const FLAT := Position(0.0, 0.0, 0.0, 0.0)

  function Sign(x: real): int {
    if x > 0.0 then 1 else if x < 0.0 then -1 else 0
  }

  function Abs(x: real): real {
    if x < 0.0 then -x else x
  }

  // ----- one side of a fill -----

  predicate Reduces(p: Position, delta: real) {
    (p.qty > 0.0 && delta < 0.0) || (p.qty < 0.0 && delta > 0.0)
  }

  /** What the closing part of a fill earns: the closed quantity at price over cost, the other way for a short. */
  function Realized(p: Position, delta: real, price: real): real {
    if !Reduces(p, delta) then 0.0
    else
      var closed := if Abs(p.qty) < Abs(delta) then Abs(p.qty) else Abs(delta);
      if p.qty < 0.0 then -(closed * (price - p.avgCost)) else closed * (price - p.avgCost)
  }

  /** A position that is closed has no cost, one that flips costs the fill's price, one that grows the weighted average. */
  function NewCost(p: Position, delta: real, price: real): real {
    var qty := p.qty + delta;
    if qty == 0.0 then 0.0
    else if p.qty != 0.0 && Sign(p.qty) != Sign(qty) then price
    else if p.qty == 0.0 || Sign(p.qty) == Sign(delta) then (p.qty * p.avgCost + delta * price) / qty
    else p.avgCost
  }

  function Traded(p: Position, delta: real, price: real): Position {
    Position(p.qty + delta, NewCost(p, delta, price), p.realized + Realized(p, delta, price), p.fees)
  }

  function PositionOf(b: Book, k: PosKey): Position {
    if k in b.positions then b.positions[k] else FLAT
  }

  function DailyOf(b: Book, k: DayKey): real {
    if k in b.daily then b.daily[k] else 0.0
  }

  function Delta(side: Side, qty: real): real {
    if side == Buy then qty else -qty
  }

  function UserTraded(b: Book, user: User, asset: Asset, side: Side, price: real, qty: real, date: Date): Book {
    if user == "" then b
    else
      var k := PosKey(user, asset);
      var p, d := PositionOf(b, k), Delta(side, qty);
      var daily :=
        if Reduces(p, d)
        then b.daily[DayKey(user, date) := DailyOf(b, DayKey(user, date)) + Realized(p, d, price)]
        else b.daily;
      Book(b.positions[k := Traded(p, d, price)], daily)
  }

  function Recorded(b: Book, f: Fill, asset: Asset, date: Date): Book {
    UserTraded(UserTraded(b, f.taker, asset, f.takerSide, f.price, f.qty, date),
               f.maker, asset, f.takerSide.Opposite(), f.price, f.qty, date)
  }

  class PnlService {
    var positions: map<PosKey, Position>
    var daily: map<DayKey, real>

    constructor ()
      ensures State() == Book(map[], map[])
    {
      positions := map[];
      daily := map[];
    }

    ghost function State(): Book
      reads this
    {
      Book(positions, daily)
    }

    method RecordFill(f: Fill, asset: Asset, date: Date)
      modifies this
      ensures State() == Recorded(old(State()), f, asset, date)
    {
      UpdateUser(f.taker, asset, f.takerSide, f.price, f.qty, date);
      UpdateUser(f.maker, asset, if f.takerSide == Sell then Buy else Sell, f.price, f.qty, date);
    }

    method UpdateUser(user: User, asset: Asset, side: Side, price: real, qty: real, date: Date)
      modifies this
      ensures State() == UserTraded(old(State()), user, asset, side, price, qty, date)
    {
      hide Realized, NewCost;
      if user == "" {
        return;
      }
      var delta := if side == Buy then qty else -qty;
      var costDelta := delta * price;
      var k := PosKey(user, asset);
      var pos := if k in positions then positions[k] else FLAT;
      var oldQty, newQty := pos.qty, pos.qty + delta;
      var total := pos.realized;
      NothingRealized(pos, delta, price);
      if (Sign(oldQty) > 0 && Sign(delta) < 0) || (Sign(oldQty) < 0 && Sign(delta) > 0) {
        var realized := Close(pos, delta, price);
        total := total + realized;
        AddDaily(user, date, realized);
      }
      var cost := Recost(pos, delta, price, costDelta);
      positions := positions[k := Position(newQty, cost, total, pos.fees)];
    }

    /** The profit of the closing part. */
    method Close(pos: Position, delta: real, price: real) returns (realized: real)
      requires Reduces(pos, delta)
      ensures realized == Realized(pos, delta, price)
    {
      var closed := Abs(delta);
      if Abs(pos.qty) < closed {
        closed := Abs(pos.qty);
      }
      assert closed == if Abs(pos.qty) < Abs(delta) then Abs(pos.qty) else Abs(delta);
      realized := closed * (price - pos.avgCost);
      if Sign(pos.qty) < 0 {
        realized := -realized;
      }
    }

    /** The average cost after the fill. */
    method Recost(pos: Position, delta: real, price: real, costDelta: real) returns (cost: real)
      requires costDelta == delta * price
      ensures cost == NewCost(pos, delta, price)
    {
      var oldQty, newQty := pos.qty, pos.qty + delta;
      var adding := Sign(oldQty) == 0 || Sign(oldQty) == Sign(delta);
      var flipped := Sign(oldQty) != 0 && Sign(newQty) != 0 && Sign(oldQty) != Sign(newQty);
      cost := pos.avgCost;
      if Sign(newQty) == 0 {
        cost := 0.0;
      } else if flipped {
        cost := price;
      } else if adding {
        cost := (oldQty * pos.avgCost + costDelta) / newQty;
      }
    }

    method AddDaily(user: User, date: Date, amount: real)
      modifies this`daily
      ensures daily == old(daily)[DayKey(user, date) := DailyOf(old(State()), DayKey(user, date)) + amount]
    {
      var k := DayKey(user, date);
      daily := daily[k := (if k in daily then daily[k] else 0.0) + amount];
    }
  }

  // ----- the identity behind average cost -----

  /** The profit of a position at a mark price: realized, and unrealized on what is still held. */
  function Worth(p: Position, mark: real): real {
    p.realized + p.qty * (mark - p.avgCost)
  }

  /** A fill in the direction of the position, or from flat. */
  predicate Adds(p: Position, delta: real) {
    (p.qty >= 0.0 && delta > 0.0) || (p.qty <= 0.0 && delta < 0.0)
  }

  /** Adding to a position realizes nothing and adds its own cost. */
  lemma AddingRealizesNothing(p: Position, delta: real, price: real)
    requires Adds(p, delta)
    ensures var t := Traded(p, delta, price);
      t.realized == p.realized && t.qty * t.avgCost == p.qty * p.avgCost + delta * price
  {
    var cost, qty := p.qty * p.avgCost + delta * price, p.qty + delta;
    assert qty * (cost / qty) == cost;
  }

  /** Leaving a part of a position keeps the cost of the rest, and realizes the profit of the part. */
  lemma PartialExitKeepsCost(p: Position, delta: real, price: real)
    requires (p.qty > 0.0 && -p.qty < delta < 0.0) || (p.qty < 0.0 && 0.0 < delta < -p.qty)
    ensures var t := Traded(p, delta, price);
      && t.avgCost == p.avgCost
      && t.realized == p.realized + (if p.qty > 0.0 then -delta * (price - p.avgCost) else -(delta * (price - p.avgCost)))
  {
  }

  /** Leaving all of it realizes the profit of all of it; what is left on the other side costs the price. */
  lemma ExitRealizesAll(p: Position, delta: real, price: real)
    requires (p.qty > 0.0 && delta <= -p.qty) || (p.qty < 0.0 && delta >= -p.qty)
    ensures var t := Traded(p, delta, price);
      && t.realized == p.realized + p.qty * (price - p.avgCost)
      && t.avgCost == if delta == -p.qty then 0.0 else price
  {
    if p.qty < 0.0 { assert -((-p.qty) * (price - p.avgCost)) == p.qty * (price - p.avgCost); }
  }

  lemma Distribute(q: real, a: real, b: real)
    ensures q * (a - b) == q * a - q * b
  {
  }

  lemma DistributeSum(q: real, d: real, a: real)
    ensures (q + d) * a == q * a + d * a
  {
  }

  /** A fill of nothing leaves the position, but for the cost of an empty one. */
  lemma NothingTraded(p: Position, price: real)
    ensures var t := Traded(p, 0.0, price); t.realized == p.realized && t.qty * t.avgCost == p.qty * p.avgCost
  {
  }

  lemma CostOfHeld(p: Position, delta: real, price: real)
    ensures Realized(p, delta, price) - Traded(p, delta, price).qty * NewCost(p, delta, price)
      == -(p.qty * p.avgCost) - delta * price
  {
    var t := Traded(p, delta, price);
    assert t.realized == p.realized + Realized(p, delta, price) && t.avgCost == NewCost(p, delta, price) && t.qty == p.qty + delta;
    hide Realized, NewCost, Traded;
    Distribute(delta, price, p.avgCost);
    Distribute(p.qty, price, p.avgCost);
    if delta == 0.0 {
      NothingTraded(p, price);
    } else if Adds(p, delta) {
      AddingRealizesNothing(p, delta, price);
    } else if (p.qty > 0.0 && -p.qty < delta) || (p.qty < 0.0 && delta < -p.qty) {
      PartialExitKeepsCost(p, delta, price);
      DistributeSum(p.qty, delta, p.avgCost);
      assert -delta * (price - p.avgCost) == -(delta * (price - p.avgCost));
    } else {
      ExitRealizesAll(p, delta, price);
      DistributeSum(p.qty, delta, price);
    }
  }

  /** Whatever a fill does to a position, its profit at a mark moves by the fill's own: quantity times mark over price. */
  lemma FillWorth(p: Position, delta: real, price: real, mark: real)
    ensures Worth(Traded(p, delta, price), mark) == Worth(p, mark) + delta * (mark - price)
  {
    hide Realized, NewCost;
    var t := Traded(p, delta, price);
    CostOfHeld(p, delta, price);
    Distribute(t.qty, mark, t.avgCost);
    Distribute(p.qty, mark, p.avgCost);
    Distribute(delta, mark, price);
    assert t.qty * mark == p.qty * mark + delta * mark;
  }

  // ----- one user's history -----

  /** The signed quantities and costs of a user's fills in one asset, in order. */
  datatype Leg = Leg(delta: real, price: real)

  function CostOf(l: Leg): real {
    l.delta * l.price
  }

  function After(legs: seq<Leg>): Position {
    if legs == [] then FLAT else Traded(After(legs[..|legs| - 1]), legs[|legs| - 1].delta, legs[|legs| - 1].price)
  }

  function NetQty(legs: seq<Leg>): real {
    if legs == [] then 0.0 else NetQty(legs[..|legs| - 1]) + legs[|legs| - 1].delta
  }

  function NetCost(legs: seq<Leg>): real {
    if legs == [] then 0.0 else NetCost(legs[..|legs| - 1]) + CostOf(legs[|legs| - 1])
  }

  /** Realized profit is the cost of what is held less all that was paid for it, net. */
  predicate Balanced(p: Position, net: real) {
    p.realized == p.qty * p.avgCost - net
  }

  lemma TradedIsBalanced(p: Position, l: Leg, net: real)
    requires Balanced(p, net)
    ensures Traded(p, l.delta, l.price).qty == p.qty + l.delta && Balanced(Traded(p, l.delta, l.price), net + CostOf(l))
  {
    hide Realized, NewCost;
    CostOfHeld(p, l.delta, l.price);
  }

  lemma FlatIsBalanced()
    ensures Balanced(FLAT, 0.0)
  {
  }

  /** Through opening, adding, reducing, closing and flipping, the position stays balanced against its history. */
  lemma {:induction false} PnlIdentity(legs: seq<Leg>)
    ensures After(legs).qty == NetQty(legs) && Balanced(After(legs), NetCost(legs))
  {
    hide Traded, Balanced, CostOf;
    if legs == [] {
      FlatIsBalanced();
    } else {
      var last := legs[|legs| - 1];
      PnlIdentity(legs[..|legs| - 1]);
      TradedIsBalanced(After(legs[..|legs| - 1]), last, NetCost(legs[..|legs| - 1]));
    }
  }

  // ----- what a position costs, and what closing it earns -----

  ghost predicate OneWay(legs: seq<Leg>, side: Side) {
    forall i :: 0 <= i < |legs| ==> if side == Buy then legs[i].delta > 0.0 else legs[i].delta < 0.0
  }

  predicate Held(side: Side, qty: real) {
    if side == Buy then qty > 0.0 else qty < 0.0
  }

  lemma {:induction false} OneWayHolds(legs: seq<Leg>, side: Side)
    requires OneWay(legs, side)
    ensures legs != [] ==> Held(side, NetQty(legs))
    ensures legs == [] ==> NetQty(legs) == 0.0
  {
    if legs != [] { OneWayHolds(legs[..|legs| - 1], side); }
  }

  /** Legs of one direction build a position at their average price. */
  lemma {:induction false} BuiltAtAverage(legs: seq<Leg>, side: Side)
    requires OneWay(legs, side)
    ensures After(legs).realized == 0.0 && After(legs).qty == NetQty(legs)
    ensures After(legs).qty * After(legs).avgCost == NetCost(legs)
  {
    hide Traded, CostOf;
    if legs != [] {
      var n := |legs| - 1;
      BuiltAtAverage(legs[..n], side);
      OneWayHolds(legs[..n], side);
      var before, last := After(legs[..n]), legs[n];
      AddingRealizesNothing(before, last.delta, last.price);
      TradedQty(before, last);
    }
  }

  lemma TradedQty(p: Position, l: Leg)
    ensures Traded(p, l.delta, l.price).qty == p.qty + l.delta && CostOf(l) == l.delta * l.price
  {
  }

  /** What a closing leg earns against a cost: its quantity times price over cost, the other way for a short. */
  function ExitProfit(l: Leg, side: Side, cost: real): real {
    if side == Buy then Abs(l.delta) * (l.price - cost) else -(Abs(l.delta) * (l.price - cost))
  }

  function Earned(exits: seq<Leg>, side: Side, cost: real): real {
    if exits == [] then 0.0
    else
      var n := |exits| - 1;
      Earned(exits[..n], side, cost) + ExitProfit(exits[n], side, cost)
  }

  /** One exit from a position that stays open. */
  lemma ExitStep(p: Position, l: Leg, side: Side)
    requires Held(side, p.qty + l.delta) && Held(side.Opposite(), l.delta)
    ensures var t := Traded(p, l.delta, l.price);
      && t.qty == p.qty + l.delta && t.avgCost == p.avgCost
      && t.realized == p.realized + ExitProfit(l, side, p.avgCost)
  {
    PartialExitKeepsCost(p, l.delta, l.price);
  }

  lemma {:induction false} ExitsKeepCost(legs: seq<Leg>, exits: seq<Leg>, side: Side)
    requires OneWay(exits, side.Opposite()) && Held(side, After(legs).qty + NetQty(exits)) && After(legs).realized == 0.0
    ensures var p := After(legs + exits);
      && p.qty == After(legs).qty + NetQty(exits) && p.avgCost == After(legs).avgCost
      && p.realized == Earned(exits, side, After(legs).avgCost)
    decreases |exits|
  {
    hide Traded, ExitProfit;
    if exits == [] {
      assert legs + exits == legs;
    } else {
      var n := |exits| - 1;
      assert (legs + exits)[..|legs| + n] == legs + exits[..n] && (legs + exits)[|legs| + n] == exits[n];
      ExitsKeepCost(legs, exits[..n], side);
      ExitStep(After(legs + exits[..n]), exits[n], side);
    }
  }

  /**
   * A position built by legs of one direction and left in part: whatever the exits and their prices, it costs the
   * average of the legs, and it has realized what each exit earned against that.
   */
  lemma AverageCost(legs: seq<Leg>, exits: seq<Leg>, side: Side)
    requires legs != [] && OneWay(legs, side) && OneWay(exits, side.Opposite())
    requires Held(side, NetQty(legs) + NetQty(exits))
    ensures NetQty(legs) != 0.0
    ensures var p, cost := After(legs + exits), NetCost(legs) / NetQty(legs);
      p.qty == NetQty(legs) + NetQty(exits) && p.avgCost == cost && p.realized == Earned(exits, side, cost)
  {
    hide After, Earned, NetCost, NetQty, OneWay;
    OneWayHolds(legs, side);
    BuiltAtAverage(legs, side);
    DividedBy(After(legs).avgCost, NetQty(legs), NetCost(legs));
    ExitsKeepCost(legs, exits, side);
  }

  lemma DividedBy(x: real, y: real, z: real)
    requires y * x == z && y != 0.0
    ensures x == z / y
  {
  }

  // ----- all users -----

  /** The profit of every position in an asset at a mark price. */
  ghost function Exposure(b: Book, asset: Asset, mark: real): real {
    Sum(map k | k in b.positions && k.asset == asset :: Worth(b.positions[k], mark))
  }

  lemma WorthOfFlat(mark: real)
    ensures Worth(FLAT, mark) == 0.0
  {
  }

  /** One position of the asset is replaced. */
  lemma ExposureUpdate(b: Book, b': Book, k: PosKey, p: Position, mark: real)
    requires b'.positions == b.positions[k := p]
    ensures Exposure(b', k.asset, mark) == Exposure(b, k.asset, mark) + Worth(p, mark) - Worth(PositionOf(b, k), mark)
  {
    hide Worth;
    var was := map i | i in b.positions && i.asset == k.asset :: Worth(b.positions[i], mark);
    var then' := map i | i in b'.positions && i.asset == k.asset :: Worth(b'.positions[i], mark);
    assert then' == was[k := Worth(p, mark)];
    SumUpdate(was, k, Worth(p, mark));
    WorthOfFlat(mark);
  }

  lemma UserExposure(b: Book, user: User, asset: Asset, side: Side, price: real, qty: real, date: Date, mark: real)
    requires user != ""
    ensures Exposure(UserTraded(b, user, asset, side, price, qty, date), asset, mark) ==
      Exposure(b, asset, mark) + Delta(side, qty) * (mark - price)
  {
    hide Worth, Traded, Realized, Exposure, Delta;
    var k, d := PosKey(user, asset), Delta(side, qty);
    var p := PositionOf(b, k);
    ExposureUpdate(b, UserTraded(b, user, asset, side, price, qty, date), k, Traded(p, d, price), mark);
    FillWorth(p, d, price, mark);
  }

  lemma OtherExposure(b: Book, user: User, asset: Asset, side: Side, price: real, qty: real, date: Date, other: Asset, mark: real)
    requires other != asset
    ensures Exposure(UserTraded(b, user, asset, side, price, qty, date), other, mark) == Exposure(b, other, mark)
  {
    hide Worth, Traded, Realized;
    var b' := UserTraded(b, user, asset, side, price, qty, date);
    var was := map i | i in b.positions && i.asset == other :: Worth(b.positions[i], mark);
    var then' := map i | i in b'.positions && i.asset == other :: Worth(b'.positions[i], mark);
    assert then' == was;
  }

  /** The two sides of a fill cancel at every mark; a side without a user is not recorded, and leaves the other's. */
  lemma FillExposure(b: Book, f: Fill, asset: Asset, date: Date, other: Asset, mark: real)
    ensures var moved := Delta(f.takerSide, f.qty) * (mark - f.price);
      Exposure(Recorded(b, f, asset, date), other, mark) == Exposure(b, other, mark)
        + (if other == asset && f.taker != "" then moved else 0.0) - (if other == asset && f.maker != "" then moved else 0.0)
  {
    hide Exposure;
    var mid := UserTraded(b, f.taker, asset, f.takerSide, f.price, f.qty, date);
    if other == asset {
      if f.taker != "" { UserExposure(b, f.taker, asset, f.takerSide, f.price, f.qty, date, mark); }
      if f.maker != "" { UserExposure(mid, f.maker, asset, f.takerSide.Opposite(), f.price, f.qty, date, mark); }
      Cancel(f.qty, mark - f.price);
    } else {
      OtherExposure(b, f.taker, asset, f.takerSide, f.price, f.qty, date, other, mark);
      OtherExposure(mid, f.maker, asset, f.takerSide.Opposite(), f.price, f.qty, date, other, mark);
    }
  }

  lemma Cancel(q: real, x: real)
    ensures q * x + (-q) * x == 0.0
  {
  }

  datatype Event = Event(fill: Fill, asset: Asset, date: Date)

  function Run(events: seq<Event>): Book {
    if events == [] then Book(map[], map[])
    else
      var last := events[|events| - 1];
      Recorded(Run(events[..|events| - 1]), last.fill, last.asset, last.date)
  }

  /** After any fills between named users, realized and unrealized profit of all of them add up to nothing at any mark. */
  lemma {:induction false} ZeroSum(events: seq<Event>, asset: Asset, mark: real)
    requires forall i :: 0 <= i < |events| ==> events[i].fill.taker != "" && events[i].fill.maker != ""
    ensures Exposure(Run(events), asset, mark) == 0.0
  {
    if events == [] {
      EmptyBook(Run(events), asset, mark, "");
    } else {
      hide Exposure, Recorded;
      var n := |events| - 1;
      ZeroSum(events[..n], asset, mark);
      FillExposure(Run(events[..n]), events[n].fill, events[n].asset, events[n].date, asset, mark);
    }
  }

  // ----- the daily buckets -----

  ghost function DailySum(b: Book, user: User): real {
    Sum(map k | k in b.daily && k.user == user :: b.daily[k])
  }

  ghost function RealizedSum(b: Book, user: User): real {
    Sum(map k | k in b.positions && k.user == user :: b.positions[k].realized)
  }

  lemma EmptyBook(b: Book, asset: Asset, mark: real, user: User)
    ensures b.positions == map[] ==> Exposure(b, asset, mark) == 0.0 && RealizedSum(b, user) == 0.0
    ensures b.daily == map[] ==> DailySum(b, user) == 0.0
  {
    var worth := map k | k in b.positions && k.asset == asset :: Worth(b.positions[k], mark);
    var realized := map k | k in b.positions && k.user == user :: b.positions[k].realized;
    var days := map k | k in b.daily && k.user == user :: b.daily[k];
    assert b.positions == map[] ==> worth == map[] && realized == map[];
    assert b.daily == map[] ==> days == map[];
  }

  /** What a fill realizes for a user. */
  ghost function Gain(b: Book, user: User, asset: Asset, side: Side, price: real, qty: real, who: User): real {
    if user == who && user != "" then Realized(PositionOf(b, PosKey(user, asset)), Delta(side, qty), price) else 0.0
  }

  lemma RealizedGrows(b: Book, user: User, asset: Asset, side: Side, price: real, qty: real, date: Date, who: User)
    ensures RealizedSum(UserTraded(b, user, asset, side, price, qty, date), who) ==
      RealizedSum(b, who) + Gain(b, user, asset, side, price, qty, who)
  {
    hide Realized, NewCost, Reduces;
    var b' := UserTraded(b, user, asset, side, price, qty, date);
    var was := map i | i in b.positions && i.user == who :: b.positions[i].realized;
    var then' := map i | i in b'.positions && i.user == who :: b'.positions[i].realized;
    var k := PosKey(user, asset);
    if user == who && user != "" {
      assert then' == was[k := b'.positions[k].realized];
      SumUpdate(was, k, b'.positions[k].realized);
    } else {
      assert then' == was;
    }
  }

  lemma DailyGrows(b: Book, user: User, asset: Asset, side: Side, price: real, qty: real, date: Date, who: User)
    ensures DailySum(UserTraded(b, user, asset, side, price, qty, date), who) ==
      DailySum(b, who) + Gain(b, user, asset, side, price, qty, who)
  {
    hide Realized, NewCost, Reduces;
    var b' := UserTraded(b, user, asset, side, price, qty, date);
    var was := map i | i in b.daily && i.user == who :: b.daily[i];
    var then' := map i | i in b'.daily && i.user == who :: b'.daily[i];
    var day := DayKey(user, date);
    NothingRealized(PositionOf(b, PosKey(user, asset)), Delta(side, qty), price);
    if b'.daily != b.daily && user == who {
      assert then' == was[day := b'.daily[day]];
      SumUpdate(was, day, b'.daily[day]);
    } else {
      assert then' == was;
      if user == who && user != "" {
        SameDay(b, b', user, asset, side, price, qty, date);
      }
    }
  }

  /** Unchanged buckets mean nothing, or nothing new, was realized. */
  lemma SameDay(b: Book, b': Book, user: User, asset: Asset, side: Side, price: real, qty: real, date: Date)
    requires b' == UserTraded(b, user, asset, side, price, qty, date) && b'.daily == b.daily && user != ""
    ensures Realized(PositionOf(b, PosKey(user, asset)), Delta(side, qty), price) == 0.0
  {
    hide Realized, NewCost, Reduces;
    var day := DayKey(user, date);
    NothingRealized(PositionOf(b, PosKey(user, asset)), Delta(side, qty), price);
    assert Reduces(PositionOf(b, PosKey(user, asset)), Delta(side, qty)) ==> b'.daily[day] == b.daily[day];
  }

  lemma NothingRealized(p: Position, delta: real, price: real)
    ensures !Reduces(p, delta) ==> Realized(p, delta, price) == 0.0
  {
  }

  /** A user's daily buckets always add up to the realized profit of the user's positions. */
  lemma {:induction false} DailyIsRealized(events: seq<Event>, who: User)
    ensures DailySum(Run(events), who) == RealizedSum(Run(events), who)
  {
    if events == [] {
      EmptyBook(Run(events), "", 0.0, who);
    } else {
      hide DailySum, RealizedSum, UserTraded;
      var e := events[|events| - 1];
      var b := Run(events[..|events| - 1]);
      DailyIsRealized(events[..|events| - 1], who);
      var taker, maker, side, price, qty := e.fill.taker, e.fill.maker, e.fill.takerSide, e.fill.price, e.fill.qty;
      var mid := UserTraded(b, taker, e.asset, side, price, qty, e.date);
      DailyGrows(b, taker, e.asset, side, price, qty, e.date, who);
      RealizedGrows(b, taker, e.asset, side, price, qty, e.date, who);
      DailyGrows(mid, maker, e.asset, side.Opposite(), price, qty, e.date, who);
      RealizedGrows(mid, maker, e.asset, side.Opposite(), price, qty, e.date, who);
    }
  }

  /** What the fills of one day realized for a user. */
  ghost function RealizedOn(events: seq<Event>, who: User, date: Date): real {
    if events == [] then 0.0
    else
      var n := |events| - 1;
      RealizedOn(events[..n], who, date)
      + (if events[n].date == date then RealizedSum(Run(events), who) - RealizedSum(Run(events[..n]), who) else 0.0)
  }

  lemma BucketGrows(b: Book, user: User, asset: Asset, side: Side, price: real, qty: real, date: Date, who: User, day: Date)
    ensures DailyOf(UserTraded(b, user, asset, side, price, qty, date), DayKey(who, day)) ==
      DailyOf(b, DayKey(who, day)) + (if day == date then Gain(b, user, asset, side, price, qty, who) else 0.0)
  {
    hide Realized, NewCost, Reduces;
    NothingRealized(PositionOf(b, PosKey(user, asset)), Delta(side, qty), price);
  }

  /** A user's bucket of a day holds what the fills of that day realized for the user, in whatever order they came. */
  lemma {:induction false} BucketIsRealizedThatDay(events: seq<Event>, who: User, date: Date)
    ensures DailyOf(Run(events), DayKey(who, date)) == RealizedOn(events, who, date)
  {
    if events != [] {
      hide DailyOf, RealizedSum, UserTraded;
      var e := events[|events| - 1];
      var b := Run(events[..|events| - 1]);
      BucketIsRealizedThatDay(events[..|events| - 1], who, date);
      var taker, maker, side, price, qty := e.fill.taker, e.fill.maker, e.fill.takerSide, e.fill.price, e.fill.qty;
      var mid := UserTraded(b, taker, e.asset, side, price, qty, e.date);
      BucketGrows(b, taker, e.asset, side, price, qty, e.date, who, date);
      RealizedGrows(b, taker, e.asset, side, price, qty, e.date, who);
      BucketGrows(mid, maker, e.asset, side.Opposite(), price, qty, e.date, who, date);
      RealizedGrows(mid, maker, e.asset, side.Opposite(), price, qty, e.date, who);
    }
  }
}
