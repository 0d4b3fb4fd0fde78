/** Vocabulary shared by every service: order tickets, trades and the price-time order. */
module Model {

  /** Stands for a UUID; `<` stands for the lexicographic order on the UUID text. */
  type Id = nat
  type Symbol = string

  datatype Side = Buy | Sell

  datatype Status = New | PartiallyFilled | Filled | Cancelled

  /** The columns of an order that no statement ever reassigns. */
  datatype Ticket = Ticket(
    id: Id,
    user: Id,
    symbol: Symbol,
    side: Side,
    price: int,
    quantity: int,
    created: int)

  /** An order as the book sees it: its ticket and what is left of it. */
  datatype Resting = Resting(ticket: Ticket, remaining: int)

  /** A copy of an order: what `cloneOrder` keeps and what an order row stores. */
  datatype Record = Record(ticket: Ticket, remaining: int, status: Status)

  datatype Trade = Trade(
    symbol: Symbol,
    buyer: Id,
    seller: Id,
    buyOrder: Id,
    sellOrder: Id,
    price: int,
    quantity: int)

  function Min(a: int, b: int): int {
    if a < b then a else b
  }

  /** `Less` of MaxHeap (bids) and MinHeap (asks): better price first, then earlier. */
  predicate Before(a: Ticket, b: Ticket) {
    if a.price == b.price then a.created < b.created
    else if a.side.Buy? then a.price > b.price
    else a.price < b.price
  }

  /** The incoming order `t` accepts the price of the resting order. */
  predicate Crosses(t: Ticket, resting: Ticket) {
    if t.side.Buy? then resting.price <= t.price else t.price <= resting.price
  }

  /** `createTrade`: the resting order sets the price and the symbol. */
  function MakeTrade(resting: Ticket, incoming: Ticket, quantity: int): Trade {
    var buy := if resting.side.Sell? then incoming else resting;
    var sell := if resting.side.Sell? then resting else incoming;
    Trade(resting.symbol, buy.user, sell.user, buy.id, sell.id, resting.price, quantity)
  }

  /** `updateOrderStatus` for an order that is not cancelled. */
  function StatusFor(remaining: int, quantity: int): Status {
    if remaining <= 0 then Filled
    else if remaining < quantity then PartiallyFilled
    else New
  }

  /** `ProcessOrder` refills an order that arrives without a remaining quantity. */
  function Admitted(remaining: int, quantity: int): int {
    if remaining <= 0 && quantity > 0 then quantity else remaining
  }
}
