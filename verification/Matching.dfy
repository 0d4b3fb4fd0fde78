/**
  The reference model of matching: a scan over the sorted list of live orders of the other
  side. It knows no heap, no object identity and no cancelled order waiting to be popped.
*/
module Matching {
  import opened Model

  datatype Outcome = Outcome(trades: seq<Trade>, remaining: int, book: seq<Resting>)

  /** Matches `quantity` units of `t` against `book`, best order first. */
  function Scan(t: Ticket, quantity: int, book: seq<Resting>): Outcome
    decreases |book|
  {
    if quantity <= 0 || book == [] || !Crosses(t, book[0].ticket) then
      Outcome([], quantity, book)
    else if book[0].remaining <= quantity then
      var rest := Scan(t, quantity - book[0].remaining, book[1..]);
      Outcome([MakeTrade(book[0].ticket, t, book[0].remaining)] + rest.trades, rest.remaining, rest.book)
    else
      Outcome([MakeTrade(book[0].ticket, t, quantity)], 0,
              [book[0].(remaining := book[0].remaining - quantity)] + book[1..])
  }

  function FilledBy(trade: Trade, id: Id): int {
    if trade.buyOrder == id || trade.sellOrder == id then trade.quantity else 0
  }

  /** The quantity of order `id` that `trades` fill. */
  function FilledIn(trades: seq<Trade>, id: Id): int {
    if trades == [] then 0 else FilledBy(trades[0], id) + FilledIn(trades[1..], id)
  }

  // ---------------------------------------------------------------- listings

  function Elems(book: seq<Resting>): set<Resting> {
    set x | x in book
  }

  /** `book` lists `live` in price-time order; equal keys may come in either order. */
  ghost predicate IsListing(book: seq<Resting>, live: set<Resting>) {
    && Elems(book) == live
    && forall i, j | 0 <= i < j < |book| :: book[i] != book[j] && !Before(book[j].ticket, book[i].ticket)
  }

  ghost predicate OneSided(live: set<Resting>, side: Side) {
    forall x | x in live :: x.ticket.side == side
  }

  /** No two orders have the same price and the same time. */
  ghost predicate DistinctKeys(live: set<Resting>) {
    forall x, y | x in live && y in live && x != y ::
      x.ticket.price != y.ticket.price || x.ticket.created != y.ticket.created
  }

  /** Some order of a nonempty set comes first. */
  lemma {:induction false} BestExists(live: set<Resting>, side: Side) returns (best: Resting)
    requires live != {} && OneSided(live, side)
    ensures best in live
    ensures forall x | x in live :: !Before(x.ticket, best.ticket)
    decreases |live|
  {
    var y :| y in live;
    var rest := live - {y};
    if rest == {} {
      assert live == {y};
      best := y;
    } else {
      var z := BestExists(rest, side);
      best := if Before(y.ticket, z.ticket) then y else z;
      forall x | x in live ensures !Before(x.ticket, best.ticket) {
        assert x == y || x in rest;
      }
    }
  }

  /** Every finite set of orders of one side can be listed. */
  lemma {:induction false} ListingExists(live: set<Resting>, side: Side) returns (book: seq<Resting>)
    requires OneSided(live, side)
    ensures IsListing(book, live)
    decreases |live|
  {
    if live == {} {
      book := [];
    } else {
      var best := BestExists(live, side);
      var rest := ListingExists(live - {best}, side);
      assert forall x :: x in rest <==> x in Elems(rest);
      book := [best] + rest;
      assert Elems(book) == {best} + Elems(rest);
    }
  }

  /** Distinct keys leave no choice: the listing is unique. */
  lemma {:induction false} ListingUnique(a: seq<Resting>, b: seq<Resting>, live: set<Resting>, side: Side)
    requires OneSided(live, side) && DistinctKeys(live)
    requires IsListing(a, live) && IsListing(b, live)
    ensures a == b
    decreases |a|
  {
    EmptyListing(a, live);
    EmptyListing(b, live);
    if live != {} {
      HeadIsBest(a, live);
      HeadIsBest(b, live);
      assert a[0] in Elems(a) && b[0] in Elems(b);
      assert a[0] == b[0];
      TailLists(a, live);
      TailLists(b, live);
      ListingUnique(a[1..], b[1..], live - {a[0]}, side);
      assert a == [a[0]] + a[1..] && b == [b[0]] + b[1..];
    }
  }

  function SwapAt(book: seq<Resting>, i: nat, j: nat): (r: seq<Resting>)
    requires i < j < |book|
    ensures |r| == |book|
    ensures forall k | 0 <= k < |book| :: r[k] == book[if k == i then j else if k == j then i else k]
  {
    book[i := book[j]][j := book[i]]
  }

  lemma SwapKeepsElems(book: seq<Resting>, i: nat, j: nat)
    requires i < j < |book|
    ensures Elems(SwapAt(book, i, j)) == Elems(book)
  {
    var swapped := SwapAt(book, i, j);
    hide SwapAt;
    forall x ensures x in Elems(swapped) <==> x in Elems(book) {
      if x in book {
        var k :| 0 <= k < |book| && book[k] == x;
        assert swapped[if k == i then j else if k == j then i else k] == x;
      }
    }
  }

  lemma SwapKeepsOrder(book: seq<Resting>, side: Side, i: nat, j: nat, p: nat, q: nat)
    requires OneSided(Elems(book), side) && IsListing(book, Elems(book)) && i < j < |book| && p < q < |book|
    requires book[i].ticket.price == book[j].ticket.price && book[i].ticket.created == book[j].ticket.created
    ensures SwapAt(book, i, j)[p] != SwapAt(book, i, j)[q]
    ensures !Before(SwapAt(book, i, j)[q].ticket, SwapAt(book, i, j)[p].ticket)
  {
    hide SwapAt;
    assert book[i] in Elems(book) && book[j] in Elems(book) && book[p] in Elems(book) && book[q] in Elems(book);
    assert !Before(book[q].ticket, book[p].ticket);
  }

  /** Two orders with one key can change places in a listing. */
  lemma TiesSwap(book: seq<Resting>, live: set<Resting>, side: Side, i: nat, j: nat)
    requires OneSided(live, side) && IsListing(book, live) && i < j < |book|
    requires book[i].ticket.price == book[j].ticket.price && book[i].ticket.created == book[j].ticket.created
    ensures IsListing(SwapAt(book, i, j), live) && SwapAt(book, i, j) != book
  {
    var swapped := SwapAt(book, i, j);
    hide SwapAt, Elems, OneSided;
    SwapKeepsElems(book, i, j);
    forall p, q | 0 <= p < q < |book| ensures swapped[p] != swapped[q] && !Before(swapped[q].ticket, swapped[p].ticket) {
      SwapKeepsOrder(book, side, i, j, p, q);
    }
    assert swapped[i] == book[j] && book[i] != book[j];
  }

  /** Price-time priority names one listing exactly when no two orders tie. */
  lemma UniqueListingIff(live: set<Resting>, side: Side)
    requires OneSided(live, side)
    ensures (forall a, b | IsListing(a, live) && IsListing(b, live) :: a == b) <==> DistinctKeys(live)
  {
    hide IsListing, SwapAt, OneSided;
    if DistinctKeys(live) {
      forall a, b | IsListing(a, live) && IsListing(b, live) ensures a == b {
        ListingUnique(a, b, live, side);
      }
    } else {
      var x, y :| x in live && y in live && x != y
                  && x.ticket.price == y.ticket.price && x.ticket.created == y.ticket.created;
      TieIsAmbiguous(live, side, x, y);
    }
  }

  lemma TieIsAmbiguous(live: set<Resting>, side: Side, x: Resting, y: Resting)
    requires OneSided(live, side) && x in live && y in live && x != y
    requires x.ticket.price == y.ticket.price && x.ticket.created == y.ticket.created
    ensures exists a, b :: IsListing(a, live) && IsListing(b, live) && a != b
  {
    hide SwapAt, OneSided, Before;
    var book := ListingExists(live, side);
    assert x in Elems(book) && y in Elems(book);
    var i :| 0 <= i < |book| && book[i] == x;
    var j :| 0 <= j < |book| && book[j] == y;
    hide *;
    var low, high := if i < j then i else j, if i < j then j else i;
    TiesSwap(book, live, side, low, high);
  }

  lemma EmptyListing(book: seq<Resting>, live: set<Resting>)
    requires IsListing(book, live)
    ensures book == [] <==> live == {}
  {
    if book != [] { assert book[0] in Elems(book); }
  }

  lemma HeadIsBest(book: seq<Resting>, live: set<Resting>)
    requires book != [] && IsListing(book, live)
    ensures forall x | x in live :: !Before(x.ticket, book[0].ticket)
  {
    forall x | x in live ensures !Before(x.ticket, book[0].ticket) {
      assert x in Elems(book);
      var i :| 0 <= i < |book| && book[i] == x;
    }
  }

  lemma TailLists(book: seq<Resting>, live: set<Resting>)
    requires book != [] && IsListing(book, live)
    ensures IsListing(book[1..], live - {book[0]})
  {
    var tail := book[1..];
    assert book == [book[0]] + tail;
    forall x ensures x in Elems(tail) <==> x in live - {book[0]} {
      assert x in live <==> x in Elems(book);
      if x in tail {
        var i :| 0 <= i < |tail| && tail[i] == x;
        assert book[i + 1] == x;
      }
    }
  }

  // ---------------------------------------------------------------- what a scan does

  function Traded(trades: seq<Trade>): int {
    if trades == [] then 0 else trades[0].quantity + Traded(trades[1..])
  }

  ghost predicate AllLive(book: seq<Resting>) {
    forall x | x in book :: x.remaining > 0
  }

  /** Trade k fills the k-th best order at that order's price; only the last may be partial. */
  ghost predicate FillsInOrder(t: Ticket, trades: seq<Trade>, book: seq<Resting>)
  {
    && |trades| <= |book|
    && (forall k | 0 <= k < |trades| ::
          && trades[k] == MakeTrade(book[k].ticket, t, trades[k].quantity)
          && Crosses(t, book[k].ticket)
          && 0 < trades[k].quantity <= book[k].remaining)
    && (forall k | 0 <= k < |trades| - 1 :: trades[k].quantity == book[k].remaining)
  }

  /** What `trades` leave of the book: a suffix whose head may have shrunk. */
  function Residual(trades: seq<Trade>, book: seq<Resting>): seq<Resting>
    requires |trades| <= |book|
  {
    var n := |trades|;
    if n > 0 && trades[n - 1].quantity < book[n - 1].remaining then
      [Resting(book[n - 1].ticket, book[n - 1].remaining - trades[n - 1].quantity)] + book[n..]
    else book[n..]
  }

  /** A trade that empties the head of the book goes in front of the trades with its tail. */
  lemma FillsInOrderHead(t: Ticket, trades: seq<Trade>, x: Resting, book: seq<Resting>)
    requires FillsInOrder(t, trades, book) && x.remaining > 0 && Crosses(t, x.ticket)
    ensures FillsInOrder(t, [MakeTrade(x.ticket, t, x.remaining)] + trades, [x] + book)
    ensures Residual([MakeTrade(x.ticket, t, x.remaining)] + trades, [x] + book) == Residual(trades, book)
  {
    ResidualBehind(MakeTrade(x.ticket, t, x.remaining), trades, x, book);
    hide Crosses, MakeTrade, Residual;
    var first := MakeTrade(x.ticket, t, x.remaining);
    assert first.quantity == x.remaining by { MadeQuantity(x.ticket, t, x.remaining); }
    forall k | 0 <= k <= |trades| ensures ([first] + trades)[k] == if k == 0 then first else trades[k - 1] {
    }
    forall k | 0 <= k <= |book| ensures ([x] + book)[k] == if k == 0 then x else book[k - 1] {
    }
  }

  lemma MadeQuantity(resting: Ticket, t: Ticket, quantity: int)
    ensures MakeTrade(resting, t, quantity).quantity == quantity
  {
  }

  lemma ResidualBehind(first: Trade, trades: seq<Trade>, x: Resting, book: seq<Resting>)
    requires |trades| <= |book| && first.quantity == x.remaining
    ensures Residual([first] + trades, [x] + book) == Residual(trades, book)
  {
    var longer, deeper, n := [first] + trades, [x] + book, |trades|;
    TailBehind(x, book, n);
    assert |longer| == n + 1;
    if n == 0 {
      assert longer[0] == first && deeper[0] == x;
      assert book[0..] == book;
    } else {
      assert longer[n] == trades[n - 1] && deeper[n] == book[n - 1];
    }
  }

  lemma TailBehind(x: Resting, book: seq<Resting>, n: nat)
    requires n <= |book|
    ensures ([x] + book)[n + 1..] == book[n..]
  {
  }

  lemma {:induction false} ScanFillsInOrder(t: Ticket, quantity: int, book: seq<Resting>)
    requires AllLive(book)
    ensures FillsInOrder(t, Scan(t, quantity, book).trades, book)
    ensures Scan(t, quantity, book).book == Residual(Scan(t, quantity, book).trades, book)
    decreases |book|
  {
    hide FillsInOrder, Residual, Crosses, MakeTrade;
    if quantity <= 0 || book == [] || !Crosses(t, book[0].ticket) {
      NoFills(t, book);
    } else {
      var x := book[0];
      assert x in book && forall y | y in book[1..] :: y in book;
      if x.remaining <= quantity {
        var rest := Scan(t, quantity - x.remaining, book[1..]);
        ScanFillsInOrder(t, quantity - x.remaining, book[1..]);
        FillsInOrderHead(t, rest.trades, x, book[1..]);
        assert [x] + book[1..] == book;
      } else {
        LastFill(t, quantity, book);
      }
    }
  }

  /**
    The terms of the trades, field by field: trade k is with the k-th order of the book, at its
    price, for some of its quantity, within the limit of the incoming order; the buying side of the
    two gives buyer and buy order, the selling side gives seller and sell order.
  */
  lemma TradesOnTerms(t: Ticket, quantity: int, book: seq<Resting>)
    requires AllLive(book) && forall x | x in book :: x.ticket.side != t.side
    ensures var trades := Scan(t, quantity, book).trades;
      && |trades| <= |book|
      && forall k | 0 <= k < |trades| ::
           var resting := book[k].ticket;
           && trades[k].price == resting.price && trades[k].symbol == resting.symbol
           && 0 < trades[k].quantity <= book[k].remaining
           && if t.side.Buy? then
                && resting.price <= t.price
                && trades[k].buyOrder == t.id && trades[k].buyer == t.user
                && trades[k].sellOrder == resting.id && trades[k].seller == resting.user
              else
                && resting.price >= t.price
                && trades[k].sellOrder == t.id && trades[k].seller == t.user
                && trades[k].buyOrder == resting.id && trades[k].buyer == resting.user
  {
    hide Scan;
    ScanFillsInOrder(t, quantity, book);
    assert forall k | 0 <= k < |book| :: book[k] in book;
  }

  /** What comes first by price and then by time is filled first: an order trades only if all before it were emptied. */
  lemma FilledInPriority(t: Ticket, quantity: int, book: seq<Resting>, x: Resting, y: Resting, k: nat) returns (i: nat)
    requires AllLive(book) && IsListing(book, Elems(book)) && x in book && y in book
    requires forall z | z in book :: z.ticket.side != t.side && z.ticket.id != t.id
    requires forall z, w | z in book && w in book && z.ticket.id == w.ticket.id :: z == w
    requires if x.ticket.price == y.ticket.price then x.ticket.created < y.ticket.created
             else if t.side.Sell? then x.ticket.price > y.ticket.price
             else x.ticket.price < y.ticket.price
    requires var trades := Scan(t, quantity, book).trades;
      k < |trades| && (trades[k].buyOrder == y.ticket.id || trades[k].sellOrder == y.ticket.id)
    ensures var trades := Scan(t, quantity, book).trades;
      && i < k < |trades| && trades[i].quantity == x.remaining
      && (trades[i].buyOrder == x.ticket.id || trades[i].sellOrder == x.ticket.id)
  {
    hide Scan, Elems;
    var trades := Scan(t, quantity, book).trades;
    TradesOnTerms(t, quantity, book);
    ScanFillsInOrder(t, quantity, book);
    assert book[k] in book && book[k] == y;
    i :| 0 <= i < |book| && book[i] == x;
    assert Before(x.ticket, y.ticket);
  }

  lemma NoFills(t: Ticket, book: seq<Resting>)
    ensures FillsInOrder(t, [], book) && Residual([], book) == book
  {
  }

  lemma LastFill(t: Ticket, quantity: int, book: seq<Resting>)
    requires book != [] && 0 < quantity < book[0].remaining && Crosses(t, book[0].ticket)
    ensures var trades := [MakeTrade(book[0].ticket, t, quantity)];
      && FillsInOrder(t, trades, book)
      && Residual(trades, book) == [book[0].(remaining := book[0].remaining - quantity)] + book[1..]
  {
  }

  /** Nothing is lost: what was asked is what was traded plus what remains; a remainder means no crossing order is left. */
  lemma {:induction false} ScanConserves(t: Ticket, quantity: int, book: seq<Resting>)
    requires AllLive(book) && quantity >= 0
    ensures var o := Scan(t, quantity, book);
      && Traded(o.trades) + o.remaining == quantity
      && 0 <= o.remaining
      && AllLive(o.book)
      && (o.remaining > 0 && o.book != [] ==> !Crosses(t, o.book[0].ticket))
    decreases |book|
  {
    if quantity <= 0 || book == [] || !Crosses(t, book[0].ticket) {
    } else {
      assert book[0] in book;
      var o := Scan(t, quantity, book);
      if book[0].remaining <= quantity {
        var rest := Scan(t, quantity - book[0].remaining, book[1..]);
        ScanConserves(t, quantity - book[0].remaining, book[1..]);
        assert o.trades[1..] == rest.trades;
      } else {
        assert o.trades[1..] == [];
      }
    }
  }

  /** Live orders, one entry each, best first. */
  ghost predicate Queue(book: seq<Resting>) {
    && AllLive(book)
    && forall i, j | 0 <= i < j < |book| ::
         book[i].ticket.id != book[j].ticket.id && !Before(book[j].ticket, book[i].ticket)
  }

  /** `rest` holds only orders of `book`, none of them grown. */
  ghost predicate ShrunkFrom(rest: seq<Resting>, book: seq<Resting>) {
    forall x | x in rest :: exists y :: y in book && y.ticket == x.ticket && x.remaining <= y.remaining
  }

  lemma {:induction false} ScanKeepsQueue(t: Ticket, quantity: int, book: seq<Resting>)
    requires Queue(book)
    ensures Queue(Scan(t, quantity, book).book)
    ensures ShrunkFrom(Scan(t, quantity, book).book, book)
    decreases |book|
  {
    hide Queue, ShrunkFrom, Crosses, MakeTrade;
    if quantity <= 0 || book == [] || !Crosses(t, book[0].ticket) {
      ShrunkFromItself(book);
    } else if book[0].remaining <= quantity {
      TailIsQueue(book);
      ScanKeepsQueue(t, quantity - book[0].remaining, book[1..]);
      ShrunkFromTail(Scan(t, quantity - book[0].remaining, book[1..]).book, book);
    } else {
      ShrinkHead(book, quantity);
    }
  }

  lemma ShrunkFromItself(book: seq<Resting>)
    ensures ShrunkFrom(book, book)
  {
  }

  lemma ShrunkFromTail(rest: seq<Resting>, book: seq<Resting>)
    requires book != [] && ShrunkFrom(rest, book[1..])
    ensures ShrunkFrom(rest, book)
  {
    assert forall x | x in book[1..] :: x in book;
  }

  lemma TailIsQueue(book: seq<Resting>)
    requires book != [] && Queue(book)
    ensures Queue(book[1..])
  {
    assert forall x | x in book[1..] :: x in book;
  }

  lemma ShrinkHead(book: seq<Resting>, quantity: int)
    requires Queue(book) && book != [] && 0 < quantity < book[0].remaining
    ensures var rest := [book[0].(remaining := book[0].remaining - quantity)] + book[1..];
      Queue(rest) && ShrunkFrom(rest, book)
  {
    hide Before;
    var rest := [book[0].(remaining := book[0].remaining - quantity)] + book[1..];
    forall i | 0 <= i < |rest|
      ensures rest[i].ticket == book[i].ticket && 0 < rest[i].remaining <= book[i].remaining && book[i] in book
    {
      assert book[i] in book;
    }
    AllShrunk(rest, book);
    forall i, j | 0 <= i < j < |rest|
      ensures rest[i].ticket.id != rest[j].ticket.id && !Before(rest[j].ticket, rest[i].ticket)
    {
      assert book[i].ticket.id != book[j].ticket.id && !Before(book[j].ticket, book[i].ticket);
    }
  }

  lemma AllShrunk(rest: seq<Resting>, book: seq<Resting>)
    requires |rest| == |book|
    requires forall i | 0 <= i < |rest| ::
      rest[i].ticket == book[i].ticket && 0 < rest[i].remaining <= book[i].remaining
    ensures AllLive(rest) && ShrunkFrom(rest, book)
  {
    forall x | x in rest
      ensures x.remaining > 0
      ensures exists y :: y in book && y.ticket == x.ticket && x.remaining <= y.remaining
    {
      var i :| 0 <= i < |rest| && rest[i] == x;
      assert book[i] in book;
    }
  }

  /** An order that keeps a remainder crosses nothing that is left of a sorted book. */
  lemma {:induction false} RemainderCrossesNothing(t: Ticket, quantity: int, book: seq<Resting>)
    requires Queue(book) && Scan(t, quantity, book).remaining > 0
    requires forall x | x in book :: x.ticket.side != t.side
    ensures forall x | x in Scan(t, quantity, book).book :: !Crosses(t, x.ticket)
    decreases |book|
  {
    if book != [] && Crosses(t, book[0].ticket) {
      RemainderCrossesNothing(t, quantity - book[0].remaining, book[1..]);
    } else {
      forall x | x in book ensures !Crosses(t, x.ticket) {
        var j :| 0 <= j < |book| && book[j] == x;
        assert book[0] in book;
      }
    }
  }
}
