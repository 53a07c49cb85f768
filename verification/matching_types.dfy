/** The values the matching core exchanges: orders, trades and price-time priority. */
module MatchingTypes {

  type Id = string
  type User = string

  datatype Option<+T> = None | Some(value: T)

  datatype Side = Buy | Sell
  {
    function Opposite(): Side {
      if this == Buy then Sell else Buy
    }
  }

  datatype OrderType = Limit | Market | StopLoss | StopLimit | ImmediateOrCancel | PostOnly

  datatype TimeInForce = GTC | IOC | FOK | GTD

  datatype OrderStatus = New | PartiallyFilled | Filled | Cancelled | Rejected

  /** Self-trade prevention, on an order or as the default of the engine. */
  datatype Stp = Disabled | CancelTaker | CancelMaker | CancelBoth

  /** A price in units of 10^-18, or the nil price of a market order. */
  datatype Price = NoPrice | At(units: int)
  {
    function Units(): int {
      if At? then units else 0
    }
  }

  datatype Order = Order(
    id: Id,
    user: User,
    side: Side,
    kind: OrderType,
    price: Price,
    stopPrice: Price,
    quantity: int,
    filled: int,
    remaining: int,
    tif: TimeInForce,
    status: OrderStatus,
    stp: Stp,
    createdAt: int,
    bookSeq: nat)

  datatype Trade = Trade(
    buyOrder: Id,
    sellOrder: Id,
    buyer: User,
    seller: User,
    price: int,
    quantity: int,
    takerSide: Side)

  /** What a heap slot compares: the immutable part of the order it points to. */
  datatype Entry = Entry(id: Id, price: int, bookSeq: nat)

  function KeyOf(o: Order): Entry {
    Entry(o.id, o.price.Units(), o.bookSeq)
  }

  /** Strict price-time priority: better price first, then the older book sequence. */
  predicate Before(side: Side, a: Entry, b: Entry) {
    if a.price != b.price then
      (if side == Buy then a.price > b.price else a.price < b.price)
    else
      a.bookSeq < b.bookSeq
  }

  predicate Precedes(a: Order, b: Order) {
    Before(a.side, KeyOf(a), KeyOf(b))
  }
}
