/** One symbol's book: two heaps and the match loops over them. */
module Orderbook {
  import opened Model
  import opened Matching
  import opened Book
  import opened OrderHeap

  /** The live orders of a heap; cancelled and filled orders may sit anywhere in it. */
  function LiveIn(h: seq<Order>): Live
    reads h
  {
    set o | o in h && o.remaining > 0 :: Resting(o.ticket, o.remaining)
  }

  /** Different objects are different orders. */
  ghost predicate Identified(h: seq<Order>) {
    forall a, b | a in h && b in h && a.ticket.id == b.ticket.id :: a == b
  }

  // ---------------------------------------------------------------- orders consumed by a scan

  function Total(book: seq<Resting>): int {
    if book == [] then 0 else book[0].remaining + Total(book[1..])
  }

  function FillAll(t: Ticket, book: seq<Resting>): seq<Trade> {
    if book == [] then [] else [MakeTrade(book[0].ticket, t, book[0].remaining)] + FillAll(t, book[1..])
  }

  /** A scan whose quantity covers a crossing prefix consumes the prefix and goes on behind it. */
  lemma {:induction false} ScanPrefix(t: Ticket, quantity: int, prefix: seq<Resting>, rest: seq<Resting>)
    requires AllLive(prefix) && (forall x | x in prefix :: Crosses(t, x.ticket))
    requires Total(prefix) <= quantity
    ensures var o := Scan(t, quantity - Total(prefix), rest);
      Scan(t, quantity, prefix + rest) == Outcome(FillAll(t, prefix) + o.trades, o.remaining, o.book)
    decreases |prefix|
  {
    hide Scan, MakeTrade, Crosses;
    if prefix == [] {
      assert prefix + rest == rest;
    } else {
      var x := prefix[0];
      assert x in prefix && forall y | y in prefix[1..] :: y in prefix;
      TotalNonNegative(prefix[1..]);
      ScanPrefix(t, quantity - x.remaining, prefix[1..], rest);
      ScanHead(t, quantity, x, prefix[1..] + rest);
      assert prefix + rest == [x] + (prefix[1..] + rest);
      assert Total(prefix) == x.remaining + Total(prefix[1..]);
      FillAllHead(t, prefix, Scan(t, quantity - Total(prefix), rest).trades);
    }
  }

  lemma FillAllHead(t: Ticket, book: seq<Resting>, more: seq<Trade>)
    requires book != []
    ensures FillAll(t, book) + more
            == [MakeTrade(book[0].ticket, t, book[0].remaining)] + (FillAll(t, book[1..]) + more)
  {
  }

  lemma ScanHead(t: Ticket, quantity: int, x: Resting, rest: seq<Resting>)
    requires 0 < x.remaining <= quantity && Crosses(t, x.ticket)
    ensures var o := Scan(t, quantity - x.remaining, rest);
      Scan(t, quantity, [x] + rest) == Outcome([MakeTrade(x.ticket, t, x.remaining)] + o.trades, o.remaining, o.book)
  {
    assert ([x] + rest)[1..] == rest;
  }

  lemma {:induction false} TotalNonNegative(book: seq<Resting>)
    requires AllLive(book)
    ensures Total(book) >= 0
  {
    if book != [] {
      assert book[0] in book;
      TotalNonNegative(book[1..]);
    }
  }

  lemma {:induction false} TotalAppend(book: seq<Resting>, x: Resting)
    ensures Total(book + [x]) == Total(book) + x.remaining
  {
    if book == [] {
      assert [x][1..] == [];
    } else {
      assert (book + [x])[1..] == book[1..] + [x];
      TotalAppend(book[1..], x);
    }
  }

  lemma {:induction false} FillAllAppend(t: Ticket, book: seq<Resting>, x: Resting)
    ensures FillAll(t, book + [x]) == FillAll(t, book) + [MakeTrade(x.ticket, t, x.remaining)]
  {
    if book == [] {
      assert [x][1..] == [];
    } else {
      assert (book + [x])[1..] == book[1..] + [x];
      FillAllAppend(t, book[1..], x);
    }
  }

  /** Orders consumed in order, none of them after anything still waiting. */
  ghost predicate Consumed(t: Ticket, prefix: seq<Resting>, waiting: Live, live: Live) {
    && IsListing(prefix, Elems(prefix))
    && AllLive(prefix)
    && (forall x | x in prefix :: Crosses(t, x.ticket))
    && Elems(prefix) !! waiting
    && Elems(prefix) + waiting == live
  }

  ghost predicate Precedes(prefix: seq<Resting>, t: Ticket) {
    forall x | x in prefix :: !Before(t, x.ticket)
  }

  /** Consuming the best waiting order extends the listing. */
  lemma ConsumeBest(t: Ticket, prefix: seq<Resting>, waiting: Live, live: Live, x: Resting)
    requires Consumed(t, prefix, waiting, live) && x in waiting && x.remaining > 0 && Crosses(t, x.ticket)
    requires Precedes(prefix, x.ticket)
    ensures Consumed(t, prefix + [x], waiting - {x}, live)
    ensures Total(prefix + [x]) == Total(prefix) + x.remaining
    ensures FillAll(t, prefix + [x]) == FillAll(t, prefix) + [MakeTrade(x.ticket, t, x.remaining)]
  {
    TotalAppend(prefix, x);
    FillAllAppend(t, prefix, x);
    var longer := prefix + [x];
    assert Elems(longer) == Elems(prefix) + {x};
    forall i, j | 0 <= i < j < |longer|
      ensures longer[i] != longer[j] && !Before(longer[j].ticket, longer[i].ticket)
    {
      assert i < |prefix| && longer[i] == prefix[i] && longer[i] in Elems(prefix);
    }
  }

  /** A consumed prefix followed by any listing of the waiting orders lists all of them. */
  lemma ListingsJoin(t: Ticket, prefix: seq<Resting>, waiting: Live, live: Live, rest: seq<Resting>)
    requires Consumed(t, prefix, waiting, live) && IsListing(rest, waiting)
    requires forall x | x in waiting :: Precedes(prefix, x.ticket)
    ensures IsListing(prefix + rest, live)
  {
    var book := prefix + rest;
    assert Elems(book) == Elems(prefix) + Elems(rest);
    forall i, j | 0 <= i < j < |book|
      ensures book[i] != book[j] && !Before(book[j].ticket, book[i].ticket)
    {
      if i < |prefix| <= j {
        assert book[i] == prefix[i] && prefix[i] in Elems(prefix);
        assert book[j] == rest[j - |prefix|] && rest[j - |prefix|] in Elems(rest);
      }
    }
  }

  // ---------------------------------------------------------------- progress of the match loop

  /** Either every trade so far emptied its resting order, or the last one filled the incoming order. */
  datatype Progress = Emptying(prefix: seq<Resting>) | Inside(listing: seq<Resting>, left: seq<Resting>)

  /** `trades` and `remaining` are what the scan of `live` gives so far; `waiting` is still in the heap. */
  ghost predicate Tracks(
    p: Progress, t: Ticket, wanted: int, live: Live, waiting: Live, trades: seq<Trade>, remaining: int)
  {
    match p
    case Emptying(prefix) =>
      && Consumed(t, prefix, waiting, live)
      && (forall x | x in waiting :: Precedes(prefix, x.ticket))
      && trades == FillAll(t, prefix)
      && remaining == wanted - Total(prefix)
      && remaining >= 0
    case Inside(listing, left) =>
      && remaining == 0
      && IsListing(listing, live)
      && IsListing(left, waiting)
      && Scan(t, wanted, listing) == Outcome(trades, 0, left)
  }

  ghost predicate IsBest(x: Resting, waiting: Live) {
    && x in waiting
    && (forall y | y in waiting :: !Before(y.ticket, x.ticket))
    && (forall y | y in waiting && y.ticket.id == x.ticket.id :: y == x)
  }

  lemma TrackStart(t: Ticket, wanted: int, live: Live) returns (p: Progress)
    requires wanted >= 0
    ensures Tracks(p, t, wanted, live, live, [], wanted)
  {
    p := Emptying([]);
    assert Elems([]) == {};
  }

  /** The best waiting order is emptied. */
  lemma TrackEmptied(p: Progress, t: Ticket, wanted: int, live: Live, waiting: Live,
                     trades: seq<Trade>, remaining: int, x: Resting)
    returns (p': Progress)
    requires Tracks(p, t, wanted, live, waiting, trades, remaining)
    requires IsBest(x, waiting) && Crosses(t, x.ticket) && 0 < x.remaining <= remaining
    ensures Tracks(p', t, wanted, live, waiting - {x},
                   trades + [MakeTrade(x.ticket, t, x.remaining)], remaining - x.remaining)
  {
    var prefix := p.prefix;
    p' := Emptying(prefix + [x]);
    ConsumeBest(t, prefix, waiting, live, x);
    forall y | y in waiting - {x} ensures Precedes(prefix + [x], y.ticket) {
      assert Precedes(prefix, y.ticket);
    }
  }

  /** The best waiting order fills the rest of the incoming order and keeps something. */
  lemma TrackFilled(p: Progress, t: Ticket, wanted: int, live: Live, waiting: Live,
                    trades: seq<Trade>, remaining: int, x: Resting, side: Side)
    returns (p': Progress)
    requires Tracks(p, t, wanted, live, waiting, trades, remaining) && OneSided(waiting, side)
    requires IsBest(x, waiting) && Crosses(t, x.ticket) && 0 < remaining < x.remaining
    ensures Tracks(p', t, wanted, live, waiting - {x} + {x.(remaining := x.remaining - remaining)},
                   trades + [MakeTrade(x.ticket, t, remaining)], 0)
  {
    var prefix := p.prefix;
    var rest := ListingExists(waiting - {x}, side);
    p' := Inside(prefix + ([x] + rest), [x.(remaining := x.remaining - remaining)] + rest);
    ListingOfBest(waiting, x, x.remaining, rest);
    ListingOfBest(waiting, x, x.remaining - remaining, rest);
    assert waiting - {x} + {x} == waiting;
    ListingsJoin(t, prefix, waiting, live, [x] + rest);
    ScanPrefix(t, wanted, prefix, [x] + rest);
    ScanInside(t, remaining, x, rest);
  }

  /** One trade of the loop, whichever of the two orders it exhausts. */
  lemma TrackTrade(p: Progress, t: Ticket, wanted: int, live: Live, waiting: Live, trades: seq<Trade>, remaining: int,
                   x: Resting, side: Side, quantity: int, waiting': Live, trades': seq<Trade>)
    returns (p': Progress)
    requires Tracks(p, t, wanted, live, waiting, trades, remaining) && OneSided(waiting, side)
    requires IsBest(x, waiting) && Crosses(t, x.ticket) && x.remaining > 0 && remaining > 0
    requires quantity == Min(remaining, x.remaining)
    requires waiting' == waiting - {x} + Leftover(x.ticket, x.remaining - quantity)
    requires trades' == trades + [MakeTrade(x.ticket, t, quantity)]
    ensures Tracks(p', t, wanted, live, waiting', trades', remaining - quantity)
    ensures OneSided(waiting', side)
  {
    if x.remaining <= remaining {
      p' := TrackEmptied(p, t, wanted, live, waiting, trades, remaining, x);
      assert waiting' == waiting - {x};
    } else {
      p' := TrackFilled(p, t, wanted, live, waiting, trades, remaining, x, side);
    }
  }

  /** Putting the best order in front of a listing of the others lists all, also after it shrank. */
  lemma ListingOfBest(waiting: Live, x: Resting, remaining: int, rest: seq<Resting>)
    requires IsBest(x, waiting) && IsListing(rest, waiting - {x})
    ensures IsListing([x.(remaining := remaining)] + rest, waiting - {x} + {x.(remaining := remaining)})
  {
    var y := x.(remaining := remaining);
    assert Elems([y] + rest) == {y} + Elems(rest);
    forall z | z in rest ensures z != y && !Before(z.ticket, y.ticket) {
      assert z in Elems(rest);
    }
  }

  lemma ScanInside(t: Ticket, quantity: int, x: Resting, rest: seq<Resting>)
    requires 0 < quantity < x.remaining && Crosses(t, x.ticket)
    ensures Scan(t, quantity, [x] + rest)
            == Outcome([MakeTrade(x.ticket, t, quantity)], 0, [x.(remaining := x.remaining - quantity)] + rest)
  {
    assert ([x] + rest)[1..] == rest;
  }

  /** The loop stops because nothing is wanted or nothing waiting crosses: the scan stops there too. */
  lemma TrackStopped(p: Progress, t: Ticket, wanted: int, live: Live, waiting: Live,
                     trades: seq<Trade>, remaining: int, side: Side)
    returns (listing: seq<Resting>, left: seq<Resting>)
    requires Tracks(p, t, wanted, live, waiting, trades, remaining) && OneSided(waiting, side)
    requires remaining == 0 || forall x | x in waiting :: !Crosses(t, x.ticket)
    ensures IsListing(listing, live) && IsListing(left, waiting)
    ensures Scan(t, wanted, listing) == Outcome(trades, remaining, left)
  {
    match p
    case Inside(l, r) =>
      listing, left := l, r;
    case Emptying(prefix) =>
      left := ListingExists(waiting, side);
      listing := prefix + left;
      ListingsJoin(t, prefix, waiting, live, left);
      ScanPrefix(t, wanted, prefix, left);
      if left != [] { assert left[0] in Elems(left); }
  }

  // ---------------------------------------------------------------- the match loop

  lemma TopIsBestLive(h: seq<Order>, side: Side)
    requires IsHeap(h, side) && h != [] && Identified(h)
    ensures OneSided(LiveIn(h), side)
    ensures forall x | x in LiveIn(h) :: !Before(x.ticket, h[0].ticket)
    ensures h[0].remaining > 0 ==> IsBest(Resting(h[0].ticket, h[0].remaining), LiveIn(h))
  {
    forall x | x in LiveIn(h) ensures !Before(x.ticket, h[0].ticket) {
      var o :| o in h && Resting(o.ticket, o.remaining) == x && o.remaining > 0;
      var i :| 0 <= i < |h| && h[i] == o;
      TopIsBest(h, side, i);
    }
  }

  lemma AllOnSide(h: seq<Order>, side: Side)
    requires IsHeap(h, side)
    ensures OneSided(LiveIn(h), side)
    ensures forall o | o in h :: o.ticket.side == side
  {
  }

  /** When the loop stops wanting more, nothing live in the heap crosses. */
  lemma NothingCrosses(h: seq<Order>, side: Side, t: Ticket, wanted: int)
    requires IsHeap(h, side) && Identified(h) && t.side != side
    requires wanted == 0 || h == [] || !Crosses(t, h[0].ticket)
    ensures wanted == 0 || forall x | x in LiveIn(h) :: !Crosses(t, x.ticket)
  {
    if h != [] { TopIsBestLive(h, side); }
  }

  lemma OnlyDeadDropped(h: seq<Order>, r: seq<Order>)
    requires forall o | o in r :: o in h
    requires forall o | o in h && o !in r :: o.remaining <= 0
    ensures LiveIn(h) == LiveIn(r)
  {
  }

  /** Popping an exhausted top leaves the same live orders. */
  method PopDead(h: seq<Order>, side: Side) returns (r: seq<Order>)
    requires IsHeap(h, side) && Identified(h) && h != [] && h[0].remaining <= 0
    ensures IsHeap(r, side) && Identified(r) && |r| < |h|
    ensures forall o :: o in h <==> o in r || o == h[0]
    ensures LiveIn(r) == LiveIn(h)
  {
    var top;
    r, top := Pop(h, side);
    assert |multiset(h)| == |multiset(r)| + 1;
    forall o ensures o in h <==> o in r || o == top {
      assert o in h <==> o in multiset(h);
      assert o in r <==> o in multiset(r);
    }
  }

  /** Takes `quantity` off both sides of a trade; one record of the live set changes. */
  method Fill(order: Order, best: Order, quantity: int, ghost h: seq<Order>)
    requires best in h && Identified(h) && order !in h
    requires 0 < quantity <= best.remaining
    modifies order`remaining, best`remaining
    ensures order.remaining == old(order.remaining) - quantity
    ensures best.remaining == old(best.remaining) - quantity
    ensures LiveIn(h) == old(LiveIn(h)) - {Resting(best.ticket, old(best.remaining))}
                         + Leftover(best.ticket, best.remaining)
  {
    ghost var before := LiveIn(h);
    ghost var x := Resting(best.ticket, best.remaining);
    order.remaining := order.remaining - quantity;
    best.remaining := best.remaining - quantity;
    forall y ensures y in LiveIn(h) <==> y in before - {x} + Leftover(best.ticket, best.remaining) {
      if y in LiveIn(h) {
        var o :| o in h && Resting(o.ticket, o.remaining) == y && o.remaining > 0;
      }
      if y in before && y != x {
        var o :| o in h && Resting(o.ticket, old(o.remaining)) == y && old(o.remaining) > 0;
        assert o != best;
      }
    }
  }

  /**
    The loop of matchBuyOrder and matchSellOrder over the other side's heap `h`. The trades,
    the remainder and the live orders left are those of the scan over a listing of the live
    orders, wherever the dead orders sit in the heap. `listing` is that list; `left` is what
    the scan leaves of it.
  */
  method MatchAgainst(order: Order, h: seq<Order>)
    returns (r: seq<Order>, trades: seq<Trade>, ghost listing: seq<Resting>, ghost left: seq<Resting>)
    requires IsHeap(h, Opposite(order.ticket.side)) && Identified(h)
    requires order.remaining >= 0 && forall o | o in h :: o.remaining >= 0
    modifies order`remaining, h`remaining
    ensures IsHeap(r, Opposite(order.ticket.side)) && forall o | o in r :: o in h
    ensures forall o | o in h :: 0 <= o.remaining <= old(o.remaining) && (o !in r ==> o.remaining == 0)
    ensures IsListing(listing, old(LiveIn(h)))
    ensures Scan(order.ticket, old(order.remaining), listing) == Outcome(trades, order.remaining, left)
    ensures IsListing(left, LiveIn(r)) && LiveIn(h) == LiveIn(r) && order.remaining >= 0
  {
    hide IsHeap, Identified, LiveIn, HeapOrdered, Tracks, Scan, IsListing, IsBest, Elems, Consumed,
      OneSided, Crosses, MakeTrade;
    var t, side := order.ticket, Opposite(order.ticket.side);
    ghost var live := LiveIn(h);
    ghost var wanted := order.remaining;
    ghost var waiting := live;
    ghost var progress := TrackStart(t, wanted, live);
    AllOnSide(h, side);
    r, trades := h, [];
    while order.remaining > 0 && |r| > 0
      invariant IsHeap(r, side) && Identified(r)
      invariant order.remaining >= 0 && forall o | o in r :: o in h && o != order
      invariant forall o | o in h :: 0 <= o.remaining <= old(o.remaining) && (o !in r ==> o.remaining == 0)
      invariant waiting == LiveIn(r) && OneSided(waiting, side)
      invariant Tracks(progress, t, wanted, live, waiting, trades, order.remaining)
      decreases |r|, order.remaining
    {
      var best := r[0];
      TopIsBestLive(r, side);
      if !Crosses(t, best.ticket) { break; }

      var quantity := Min(order.remaining, best.remaining);
      if quantity <= 0 {
        // The other way to trade nothing, an empty incoming order, cannot reach this point.
        assert best.remaining <= 0;
        r := PopDead(r, side);
        continue;
      }

      ghost var x := Resting(best.ticket, best.remaining);
      ghost var remaining, waiting', trades' := order.remaining, waiting, trades;
      trades := trades + [MakeTrade(best.ticket, t, quantity)];
      Fill(order, best, quantity, r);
      waiting := LiveIn(r);
      progress := TrackTrade(progress, t, wanted, live, waiting', trades', remaining, x, side,
                             quantity, waiting, trades);

      if best.remaining == 0 {
        r := PopDead(r, side);
      }
    }
    NothingCrosses(r, side, t, order.remaining);
    OnlyDeadDropped(h, r);
    listing, left := TrackStopped(progress, t, wanted, live, waiting, trades, order.remaining, side);
  }

  lemma ListingElems(book: seq<Resting>, live: Live)
    requires IsListing(book, live)
    ensures Elems(book) == live
  {
  }

  /** Pushing a live order adds exactly its record. */
  method PushLive(h: seq<Order>, order: Order, side: Side) returns (r: seq<Order>)
    requires IsHeap(h, side) && Identified(h) && order.ticket.side == side && order.remaining > 0
    requires forall o | o in h :: o.ticket.id != order.ticket.id
    ensures IsHeap(r, side) && Identified(r)
    ensures forall o :: o in r <==> o in h || o == order
    ensures LiveIn(r) == LiveIn(h) + {Resting(order.ticket, order.remaining)}
  {
    r := Push(h, order, side);
    forall o ensures o in r <==> o in h || o == order {
      assert o in r <==> o in multiset(r);
      assert o in h <==> o in multiset(h);
    }
    assert order in r;
  }

  /** The body of matchBuyOrder and matchSellOrder: match against `other`, rest in `own`. */
  method MatchAndRest(order: Order, own: seq<Order>, other: seq<Order>)
    returns (own': seq<Order>, other': seq<Order>, trades: seq<Trade>, ghost listing: seq<Resting>)
    requires IsHeap(own, order.ticket.side) && Identified(own)
    requires IsHeap(other, Opposite(order.ticket.side)) && Identified(other)
    requires order.remaining >= 0 && forall o | o in other :: o.remaining >= 0
    requires forall o | o in own :: o.ticket.id != order.ticket.id
    modifies order`remaining, other`remaining
    ensures IsHeap(own', order.ticket.side) && Identified(own')
    ensures IsHeap(other', Opposite(order.ticket.side)) && Identified(other')
    ensures IsListing(listing, old(LiveIn(other)))
    ensures var o := Scan(order.ticket, old(order.remaining), listing);
      && trades == o.trades
      && order.remaining == o.remaining >= 0
      && LiveIn(other') == Elems(o.book)
      && LiveIn(own') == old(LiveIn(own)) + Leftover(order.ticket, o.remaining)
    ensures forall o :: o in own' <==> o in own || (o == order && order.remaining > 0)
    ensures forall o | o in own && o != order :: o.remaining == old(o.remaining)
    ensures forall o | o in other' :: o in other
    ensures forall o | o in other :: o.remaining >= 0 && (o !in other' ==> o.remaining == 0)
  {
    hide IsHeap, Scan, IsListing;
    AllOnSide(own, order.ticket.side);
    AllOnSide(other, Opposite(order.ticket.side));
    ghost var left;
    other', trades, listing, left := MatchAgainst(order, other);
    assert LiveIn(own) == old(LiveIn(own));
    ListingElems(left, LiveIn(other'));
    own' := own;
    if order.remaining > 0 {
      own' := PushLive(own, order, order.ticket.side);
    }
  }

  class OrderBook {
    var buyOrders: seq<Order>
    var sellOrders: seq<Order>

    constructor ()
      ensures buyOrders == [] && sellOrders == [] && IsHeap(buyOrders, Buy) && IsHeap(sellOrders, Sell)
    {
      buyOrders, sellOrders := [], [];
    }

    function OnSide(side: Side): seq<Order>
      reads this
    {
      if side.Buy? then buyOrders else sellOrders
    }

    function Members(): set<Order>
      reads this
    {
      (set o | o in buyOrders) + (set o | o in sellOrders)
    }

    ghost predicate Valid()
      reads this, buyOrders, sellOrders
    {
      && IsHeap(buyOrders, Buy) && Identified(buyOrders)
      && IsHeap(sellOrders, Sell) && Identified(sellOrders)
      && (forall o | o in buyOrders :: o.remaining >= 0)
      && (forall o | o in sellOrders :: o.remaining >= 0)
    }

    /**
      The incoming order was matched by the scan of a listing of the other side's live orders,
      and rests on its own side with what it has left.
    */
    twostate predicate Matched(order: Order, before: set<Order>, quantity: int, trades: seq<Trade>, listing: seq<Resting>)
      reads this, order, buyOrders, sellOrders, before
    {
      var t := order.ticket;
      var o := Scan(t, quantity, listing);
      && IsListing(listing, old(LiveIn(OnSide(Opposite(t.side)))))
      && trades == o.trades
      && order.remaining == o.remaining >= 0
      && LiveIn(OnSide(Opposite(t.side))) == Elems(o.book)
      && LiveIn(OnSide(t.side)) == old(LiveIn(OnSide(t.side))) + Leftover(t, o.remaining)
      && Members() <= before + {order}
      && (forall o | o in before && o !in Members() :: o.remaining == 0)
      && (forall o | o in before :: o.remaining >= 0)
      && (order.remaining > 0 ==> order in Members())
    }

    ghost predicate Stranger(order: Order)
      reads this
    {
      order !in Members() && forall o | o in Members() :: o.ticket.id != order.ticket.id
    }

    /** The LIMIT path of ProcessOrder. */
    method ProcessOrder(order: Order) returns (trades: seq<Trade>, ghost listing: seq<Resting>)
      requires Valid() && Stranger(order) && Admitted(order.remaining, order.ticket.quantity) >= 0
      modifies this, order`remaining, Members()`remaining
      ensures Valid() && Matched(order, old(Members()), old(Admitted(order.remaining, order.ticket.quantity)), trades, listing)
    {
      if order.remaining <= 0 && order.ticket.quantity > 0 {
        order.remaining := order.ticket.quantity;
      }
      if order.ticket.side.Buy? {
        trades, listing := MatchBuyOrder(order);
      } else {
        trades, listing := MatchSellOrder(order);
      }
    }

    method MatchBuyOrder(order: Order) returns (trades: seq<Trade>, ghost listing: seq<Resting>)
      requires Valid() && Stranger(order) && order.remaining >= 0 && order.ticket.side.Buy?
      modifies this, order`remaining, Members()`remaining
      ensures Valid() && Matched(order, old(Members()), old(order.remaining), trades, listing)
    {
      hide IsHeap, Scan, IsListing, LiveIn, Identified;
      buyOrders, sellOrders, trades, listing := MatchAndRest(order, buyOrders, sellOrders);
    }

    method MatchSellOrder(order: Order) returns (trades: seq<Trade>, ghost listing: seq<Resting>)
      requires Valid() && Stranger(order) && order.remaining >= 0 && order.ticket.side.Sell?
      modifies this, order`remaining, Members()`remaining
      ensures Valid() && Matched(order, old(Members()), old(order.remaining), trades, listing)
    {
      hide IsHeap, Scan, IsListing, LiveIn, Identified;
      sellOrders, buyOrders, trades, listing := MatchAndRest(order, sellOrders, buyOrders);
    }

    /** Recovery puts an open order back where it rested. */
    method RestoreOrder(order: Order)
      requires Valid() && Stranger(order)
      modifies this
      ensures Valid()
      ensures Members() == old(Members()) + (if order.remaining > 0 then {order} else {})
    {
      if order.remaining <= 0 { return; }
      if order.ticket.side.Buy? {
        buyOrders := PushLive(buyOrders, order, Buy);
      } else {
        sellOrders := PushLive(sellOrders, order, Sell);
      }
    }
  }
}
