/**
  The engine as a state machine over the set of live orders alone. The set is the whole
  abstract state: neither heap layout nor cancelled orders still queued in a heap are part of it.
*/
module Book {
  import opened Model
  import opened Matching

  type Live = set<Resting>

  function Opposite(side: Side): Side {
    if side.Buy? then Sell else Buy
  }

  function OnSide(live: Live, symbol: Symbol, side: Side): Live {
    set x | x in live && x.ticket.symbol == symbol && x.ticket.side == side
  }

  /** The live orders an incoming order can trade with. */
  function Opposing(live: Live, t: Ticket): Live {
    OnSide(live, t.symbol, Opposite(t.side))
  }

  /** One record per order, each with something left. */
  ghost predicate WellFormed(live: Live) {
    && (forall x | x in live :: x.remaining > 0)
    && (forall x, y | x in live && y in live && x.ticket.id == y.ticket.id :: x == y)
  }

  function Leftover(t: Ticket, remaining: int): Live {
    if remaining > 0 then {Resting(t, remaining)} else {}
  }

  /** The live set after `t` was scanned against `book`, the listing of its opposing orders. */
  function AfterScan(live: Live, t: Ticket, quantity: int, book: seq<Resting>): Live {
    var o := Scan(t, quantity, book);
    (live - Opposing(live, t)) + Elems(o.book) + Leftover(t, o.remaining)
  }

  datatype Command = Create(ticket: Ticket) | Cancel(id: Id)

  datatype Response = Matched(trades: seq<Trade>, remaining: int) | Removed(quantity: int)

  /** Creating `t` is a scan of some listing of the opposing live orders. */
  ghost predicate Creates(live: Live, t: Ticket, response: Response, live': Live) {
    exists book: seq<Resting> :: CreatesWith(live, t, book, response, live')
  }

  ghost predicate CreatesWith(live: Live, t: Ticket, book: seq<Resting>, response: Response, live': Live) {
    && IsListing(book, Opposing(live, t))
    && var o := Scan(t, t.quantity, book);
      && response == Matched(o.trades, o.remaining)
      && live' == AfterScan(live, t, t.quantity, book)
  }

  function WithId(live: Live, id: Id): Live {
    set x | x in live && x.ticket.id == id
  }

  /** Cancelling removes the order and reports what was left of it. */
  ghost predicate Cancels(live: Live, id: Id, response: Response, live': Live) {
    && response.Removed?
    && live' == live - WithId(live, id)
    && (forall x | x in WithId(live, id) :: response.quantity == x.remaining)
    && (WithId(live, id) == {} ==> response.quantity == 0)
  }

  ghost predicate Step(live: Live, command: Command, response: Response, live': Live) {
    match command
    case Create(t) => t.quantity > 0 && Fresh(live, t.id) && Creates(live, t, response, live')
    case Cancel(id) => Cancels(live, id, response, live')
  }

  ghost predicate Fresh(live: Live, id: Id) {
    forall x | x in live :: x.ticket.id != id
  }

  // ---------------------------------------------------------------- one step

  lemma ListingIsQueue(live: Live, t: Ticket, book: seq<Resting>)
    requires WellFormed(live) && IsListing(book, Opposing(live, t))
    ensures Queue(book)
    ensures forall x | x in book :: x in live && x.ticket.side == Opposite(t.side) && x.ticket.symbol == t.symbol
  {
    forall x | x in book ensures x in Opposing(live, t) {
      assert x in Elems(book);
    }
    forall i, j | 0 <= i < j < |book| ensures book[i].ticket.id != book[j].ticket.id {
      assert book[i] in book && book[j] in book;
    }
  }

  /** Matching keeps one live record per order, and only the incoming order is new. */
  lemma CreateKeepsWellFormed(live: Live, t: Ticket, quantity: int, book: seq<Resting>)
    requires WellFormed(live) && Fresh(live, t.id)
    requires IsListing(book, Opposing(live, t))
    ensures WellFormed(AfterScan(live, t, quantity, book))
    ensures forall x | x in Scan(t, quantity, book).book ::
              x.ticket.side == Opposite(t.side) && x.ticket.symbol == t.symbol
  {
    hide Scan, Queue;
    ListingIsQueue(live, t, book);
    ScanKeepsQueue(t, quantity, book);
    QueueIsIdentified(Scan(t, quantity, book).book);
    forall x | x in Scan(t, quantity, book).book
      ensures x.ticket.side == Opposite(t.side) && x.ticket.symbol == t.symbol
      ensures x.ticket.id != t.id
      ensures exists y :: y in Opposing(live, t) && y.ticket == x.ticket
    {
      var y :| y in book && y.ticket == x.ticket;
    }
  }

  lemma QueueIsIdentified(book: seq<Resting>)
    requires Queue(book)
    ensures forall x | x in book :: x.remaining > 0
    ensures forall x, y | x in book && y in book && x.ticket.id == y.ticket.id :: x == y
  {
  }

  // ---------------------------------------------------------------- fair matching

  /**
    Price-time priority of a match, in terms of prices and times alone: when an order traded, every
    live order of its side that has a better price, or the same price and an earlier time, was
    filled completely.
  */
  ghost predicate PriorityKept(live: Live, t: Ticket, trades: seq<Trade>) {
    forall x, y | x in live && y in live && x.ticket.symbol == t.symbol && y.ticket.symbol == t.symbol
                  && x.ticket.side != t.side && y.ticket.side != t.side
                  && (if x.ticket.price == y.ticket.price then x.ticket.created < y.ticket.created
                      else if x.ticket.side.Buy? then x.ticket.price > y.ticket.price
                      else x.ticket.price < y.ticket.price) ::
      (exists k :: 0 <= k < |trades| && (trades[k].buyOrder == y.ticket.id || trades[k].sellOrder == y.ticket.id)) ==>
      exists k :: 0 <= k < |trades| && (trades[k].buyOrder == x.ticket.id || trades[k].sellOrder == x.ticket.id)
                  && trades[k].quantity == x.remaining
  }

  /** The trade is between `t` and the resting order `x`, at the price of `x` and within the limit of `t`. */
  predicate TradesWith(trade: Trade, t: Ticket, x: Resting) {
    && x.ticket.side != t.side && x.ticket.symbol == t.symbol
    && trade.symbol == t.symbol && trade.price == x.ticket.price && 0 < trade.quantity <= x.remaining
    && if t.side.Buy? then
         && x.ticket.price <= t.price
         && trade.buyOrder == t.id && trade.buyer == t.user
         && trade.sellOrder == x.ticket.id && trade.seller == x.ticket.user
       else
         && x.ticket.price >= t.price
         && trade.sellOrder == t.id && trade.seller == t.user
         && trade.buyOrder == x.ticket.id && trade.buyer == x.ticket.user
  }

  ghost predicate TradesWithSome(trade: Trade, t: Ticket, live: Live) {
    exists x :: x in live && TradesWith(trade, t, x)
  }

  /** Every trade is on the terms of a live order. */
  ghost predicate OnRestingTerms(live: Live, t: Ticket, trades: seq<Trade>) {
    forall k | 0 <= k < |trades| :: TradesWithSome(trades[k], t, live)
  }

  lemma ScanIsFair(live: Live, t: Ticket, quantity: int, book: seq<Resting>)
    requires WellFormed(live) && Fresh(live, t.id) && IsListing(book, Opposing(live, t))
    ensures PriorityKept(live, t, Scan(t, quantity, book).trades)
    ensures OnRestingTerms(live, t, Scan(t, quantity, book).trades)
  {
    ScanOnTerms(live, t, quantity, book);
    ScanInPriority(live, t, quantity, book);
  }

  lemma ScanOnTerms(live: Live, t: Ticket, quantity: int, book: seq<Resting>)
    requires WellFormed(live) && IsListing(book, Opposing(live, t))
    ensures OnRestingTerms(live, t, Scan(t, quantity, book).trades)
  {
    hide Scan, IsListing;
    var trades := Scan(t, quantity, book).trades;
    ListingIsQueue(live, t, book);
    TradesOnTerms(t, quantity, book);
    hide Queue, Opposing, WellFormed;
    forall k | 0 <= k < |trades| ensures TradesWithSome(trades[k], t, live) {
      var x := book[k];
      assert x in book;
      assert x in live && TradesWith(trades[k], t, x);
    }
  }

  lemma ScanInPriority(live: Live, t: Ticket, quantity: int, book: seq<Resting>)
    requires WellFormed(live) && Fresh(live, t.id) && IsListing(book, Opposing(live, t))
    ensures PriorityKept(live, t, Scan(t, quantity, book).trades)
  {
    hide Scan;
    var trades := Scan(t, quantity, book).trades;
    ListingIsQueue(live, t, book);
    forall x, y, k | x in live && y in live && x.ticket.symbol == t.symbol && y.ticket.symbol == t.symbol
                  && x.ticket.side != t.side && y.ticket.side != t.side
                  && (if x.ticket.price == y.ticket.price then x.ticket.created < y.ticket.created
                      else if x.ticket.side.Buy? then x.ticket.price > y.ticket.price
                      else x.ticket.price < y.ticket.price)
                  && 0 <= k < |trades| && (trades[k].buyOrder == y.ticket.id || trades[k].sellOrder == y.ticket.id)
      ensures exists i :: 0 <= i < |trades| && (trades[i].buyOrder == x.ticket.id || trades[i].sellOrder == x.ticket.id)
                          && trades[i].quantity == x.remaining
    {
      assert x in Elems(book) && y in Elems(book);
      var i := FilledInPriority(t, quantity, book, x, y, k);
    }
  }

  // ---------------------------------------------------------------- the uncrossed book

  /** Every live bid is strictly below every live ask of its symbol. */
  ghost predicate Uncrossed(live: Live) {
    forall b, a | b in live && a in live && b.ticket.symbol == a.ticket.symbol
                  && b.ticket.side.Buy? && a.ticket.side.Sell? ::
      b.ticket.price < a.ticket.price
  }

  lemma StepKeepsUncrossed(live: Live, command: Command, response: Response, live': Live)
    requires WellFormed(live) && Uncrossed(live) && Step(live, command, response, live')
    ensures WellFormed(live') && Uncrossed(live')
  {
    match command
    case Cancel(id) =>
    case Create(t) =>
      var book :| CreatesWith(live, t, book, response, live');
      CreateKeepsWellFormed(live, t, t.quantity, book);
      CreateKeepsUncrossed(live, t, book);
  }

  /** Every live bid of the new set is the incoming order or an order that was live before. */
  lemma Origins(live: Live, t: Ticket, quantity: int, book: seq<Resting>)
    requires WellFormed(live) && IsListing(book, Opposing(live, t))
    ensures forall x | x in AfterScan(live, t, quantity, book) ::
              x in Leftover(t, Scan(t, quantity, book).remaining)
              || exists y :: y in live && y.ticket == x.ticket
  {
    ListingIsQueue(live, t, book);
    ScanKeepsQueue(t, quantity, book);
    forall x | x in AfterScan(live, t, quantity, book)
      ensures x in Leftover(t, Scan(t, quantity, book).remaining)
              || exists y :: y in live && y.ticket == x.ticket
    {
      if x in Scan(t, quantity, book).book {
        var y :| y in book && y.ticket == x.ticket;
      }
    }
  }

  lemma LeftoverCrossesNothing(live: Live, t: Ticket, quantity: int, book: seq<Resting>)
    requires WellFormed(live) && IsListing(book, Opposing(live, t))
    requires Scan(t, quantity, book).remaining > 0
    ensures forall x | x in Opposing(AfterScan(live, t, quantity, book), t) :: !Crosses(t, x.ticket)
  {
    ListingIsQueue(live, t, book);
    RemainderCrossesNothing(t, quantity, book);
    forall x | x in Opposing(AfterScan(live, t, quantity, book), t) ensures !Crosses(t, x.ticket) {
      assert x !in live - Opposing(live, t);
    }
  }

  lemma CreateKeepsUncrossed(live: Live, t: Ticket, book: seq<Resting>)
    requires WellFormed(live) && Uncrossed(live)
    requires IsListing(book, Opposing(live, t))
    ensures Uncrossed(AfterScan(live, t, t.quantity, book))
  {
    var live' := AfterScan(live, t, t.quantity, book);
    var left := Leftover(t, Scan(t, t.quantity, book).remaining);
    Origins(live, t, t.quantity, book);
    if left != {} {
      LeftoverCrossesNothing(live, t, t.quantity, book);
    }
    forall b, a | b in live' && a in live' && b.ticket.symbol == a.ticket.symbol
                  && b.ticket.side.Buy? && a.ticket.side.Sell?
      ensures b.ticket.price < a.ticket.price
    {
      if b in left {
        assert a in Opposing(live', t);
      } else if a in left {
        assert b in Opposing(live', t);
      }
    }
  }
}
