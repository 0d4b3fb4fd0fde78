/** The matching engine: one order map and one book per symbol, sharing the order objects. */
module Engine {
  import opened Model
  import opened Matching
  import opened Book
  import opened Runs
  import opened Records
  import opened OrderHeap
  import opened Orderbook

  /** A deep copy of one symbol's orders; the order of the copies is that of a map iteration. */
  datatype SymbolSnapshot = SymbolSnapshot(symbol: Symbol, orders: View)

  class MatchingEngine {
    var orderBooks: map<Symbol, OrderBook>
    var orders: map<Id, Order>

    constructor ()
      ensures Valid() && View() == map[] && orders == map[] && orderBooks == map[]
    {
      orderBooks, orders := map[], map[];
    }

    /** What the engine knows about its orders, as values. */
    function View(): View
      reads this, orders.Values
    {
      map id | id in orders :: Record(orders[id].ticket, orders[id].remaining, orders[id].status)
    }

    /** Both heaps of a book hold only orders of the map, under their own ids and symbol. */
    ghost predicate Shelved(book: OrderBook, symbol: Symbol)
      reads this, book
    {
      && IsHeap(book.buyOrders, Buy)
      && IsHeap(book.sellOrders, Sell)
      && forall o | o in book.Members() ::
           o.ticket.id in orders && orders[o.ticket.id] == o && o.ticket.symbol == symbol
    }

    /** The books are separate objects that share the orders of the map. */
    ghost predicate BooksFit()
      reads this, orderBooks.Values
    {
      && (forall s | s in orderBooks :: Shelved(orderBooks[s], s))
      && (forall s, s' | s in orderBooks && s' in orderBooks && s != s' :: orderBooks[s] != orderBooks[s'])
      && (forall id | id in orders :: orders[id].ticket.id == id)
    }

    ghost predicate InBook(o: Order)
      reads this, orderBooks.Values
    {
      o.ticket.symbol in orderBooks && o in orderBooks[o.ticket.symbol].Members()
    }

    /** Every live order rests in its book; dead orders may still be there or not. */
    ghost predicate Consistent()
      reads this, orderBooks.Values, orders.Values
    {
      && BooksFit()
      && (forall id | id in orders :: orders[id].remaining >= 0)
      && (forall id | id in orders && orders[id].remaining > 0 :: InBook(orders[id]))
    }

    ghost predicate Valid()
      reads this, orderBooks.Values, orders.Values
    {
      Consistent() && StatusesFit(View())
    }

    lemma ViewIndexed()
      requires Consistent()
      ensures Indexed(View()) && View().Keys == orders.Keys
    {
    }

    lemma ViewKeys()
      ensures View().Keys == orders.Keys
    {
    }

    /** A heap's live orders are the engine's live orders of that symbol and side. */
    lemma HeapIsSide(symbol: Symbol, side: Side)
      requires Consistent() && symbol in orderBooks
      ensures LiveIn(orderBooks[symbol].OnSide(side)) == OnSide(LiveOf(View()), symbol, side)
    {
      var book := orderBooks[symbol];
      AllOnSide(book.buyOrders, Buy);
      AllOnSide(book.sellOrders, Sell);
      forall x ensures x in LiveIn(book.OnSide(side)) <==> x in OnSide(LiveOf(View()), symbol, side) {
        if x in LiveIn(book.OnSide(side)) {
          var o :| o in book.OnSide(side) && o.remaining > 0 && Resting(o.ticket, o.remaining) == x;
          assert o in book.Members();
          assert x.ticket.id in View();
        }
        if x in OnSide(LiveOf(View()), symbol, side) {
          var o := orders[x.ticket.id];
          assert InBook(o);
        }
      }
    }

    lemma BookValid(symbol: Symbol)
      requires Consistent() && symbol in orderBooks
      ensures orderBooks[symbol].Valid()
    {
      var book := orderBooks[symbol];
      assert forall o | o in book.buyOrders :: o in book.Members();
      assert forall o | o in book.sellOrders :: o in book.Members();
    }

    method GetOrCreateOrderBook(symbol: Symbol) returns (book: OrderBook)
      requires Consistent()
      modifies this`orderBooks
      ensures Consistent()
      ensures orderBooks == old(orderBooks)[symbol := book]
      ensures if symbol in old(orderBooks) then book == old(orderBooks)[symbol] else fresh(book) && book.Members() == {}
      ensures View() == old(View())
    {
      hide IsHeap;
      if symbol in orderBooks {
        book := orderBooks[symbol];
      } else {
        book := new OrderBook();
        orderBooks := orderBooks[symbol := book];
      }
    }

    /** The book of `order` was matched against it; everything else stayed as it was. */
    twostate predicate OnlyBookMatched(order: Order, new before: set<Order>)
      requires order.ticket.symbol in orderBooks
      reads this, orderBooks.Values, orders.Values, order, before
    {
      var t := order.ticket;
      var book := orderBooks[t.symbol];
      && t.id !in old(orders) && orders == old(orders)[t.id := order]
      && orderBooks == old(orderBooks) && before == old(book.Members())
      && (forall s | s in orderBooks && s != t.symbol ::
            && orderBooks[s].buyOrders == old(orderBooks[s].buyOrders)
            && orderBooks[s].sellOrders == old(orderBooks[s].sellOrders))
      && (forall id | id in old(orders) && orders[id] !in before :: orders[id].remaining == old(orders[id].remaining))
      && book.Members() <= before + {order}
      && (forall o | o in before && o !in book.Members() :: o.remaining == 0)
      && (forall o | o in before :: o.remaining >= 0)
      && order.remaining >= 0
      && (order.remaining > 0 ==> order in book.Members())
    }

    twostate lemma StillConsistent(order: Order, new before: set<Order>)
      requires old(Consistent()) && order.ticket.symbol in orderBooks && OnlyBookMatched(order, before)
      requires IsHeap(orderBooks[order.ticket.symbol].buyOrders, Buy)
      requires IsHeap(orderBooks[order.ticket.symbol].sellOrders, Sell)
      ensures Consistent()
    {
      hide IsHeap;
      forall s | s in orderBooks && s != order.ticket.symbol ensures Shelved(orderBooks[s], s) {
        assert orderBooks[s].Members() == old(orderBooks[s].Members());
      }
      assert Shelved(orderBooks[order.ticket.symbol], order.ticket.symbol);
      forall id | id in orders ensures orders[id].remaining >= 0 && (orders[id].remaining > 0 ==> InBook(orders[id])) {
      }
    }

    /** Both sides of the book follow the scan, so the live set does. */
    twostate lemma LiveScanned(order: Order, new before: set<Order>, new listing: seq<Resting>)
      requires order.ticket.symbol in orderBooks && OnlyBookMatched(order, before)
      requires old(Consistent()) && Consistent()
      requires var t := order.ticket; var o := Scan(t, t.quantity, listing);
        && OnSide(LiveOf(View()), t.symbol, Opposite(t.side)) == Elems(o.book)
        && OnSide(LiveOf(View()), t.symbol, t.side)
           == OnSide(old(LiveOf(View())), t.symbol, t.side) + Leftover(t, o.remaining)
      ensures LiveOf(View()) == AfterScan(old(LiveOf(View())), order.ticket, order.ticket.quantity, listing)
    {
      hide Scan, LiveOf, MatchingEngine.View, Consistent, OnlyBookMatched;
      var t := order.ticket;
      var live, live' := old(LiveOf(View())), LiveOf(View());
      var o := Scan(t, t.quantity, listing);
      forall x ensures x in live' <==> x in AfterScan(live, t, t.quantity, listing) {
        if x.ticket.symbol != t.symbol {
          OtherSymbolSame(order, before, x);
        } else if x.ticket.side == t.side {
          assert x in live' <==> x in OnSide(live', t.symbol, t.side);
          assert x !in Elems(o.book) || x in OnSide(live', t.symbol, Opposite(t.side));
        } else {
          assert x.ticket.side == Opposite(t.side);
          assert x in live' <==> x in OnSide(live', t.symbol, Opposite(t.side));
          assert x in Opposing(live, t) <==> x in live;
        }
      }
    }

    twostate lemma OtherSymbolSame(order: Order, new before: set<Order>, new x: Resting)
      requires order.ticket.symbol in orderBooks && OnlyBookMatched(order, before)
      requires old(Consistent()) && Consistent()
      requires x.ticket.symbol != order.ticket.symbol
      ensures x in LiveOf(View()) <==> x in old(LiveOf(View()))
    {
      hide IsHeap;
      var id := x.ticket.id;
      assert old(Shelved(orderBooks[order.ticket.symbol], order.ticket.symbol));
      LiveRecord(View(), x);
      LiveRecord(old(View()), x);
      if id in orders && orders[id].ticket == x.ticket {
        assert id in old(orders) && orders[id] !in before;
      }
    }

    /** The book alone: which objects and which live sets a match touches. */
    method MatchShelf(order: Order) returns (trades: seq<Trade>, ghost listing: seq<Resting>)
      requires Consistent() && order.ticket.id !in orders && order.ticket.symbol in orderBooks
      requires Admitted(order.remaining, order.ticket.quantity) == order.ticket.quantity > 0
      modifies this`orders, orderBooks[order.ticket.symbol], orders.Values`remaining, order`remaining
      ensures OnlyBookMatched(order, old(orderBooks[order.ticket.symbol].Members()))
      ensures var t := order.ticket; var book := orderBooks[t.symbol]; var o := Scan(t, t.quantity, listing);
        && IsHeap(book.buyOrders, Buy) && IsHeap(book.sellOrders, Sell)
        && IsListing(listing, old(LiveIn(orderBooks[t.symbol].OnSide(Opposite(t.side)))))
        && trades == o.trades
        && LiveIn(book.OnSide(Opposite(t.side))) == Elems(o.book)
        && LiveIn(book.OnSide(t.side)) == old(LiveIn(orderBooks[t.symbol].OnSide(t.side))) + Leftover(t, o.remaining)
    {
      hide IsHeap, IsListing, Scan, Identified, LiveIn, Elems, Leftover;
      var book := orderBooks[order.ticket.symbol];
      BookValid(order.ticket.symbol);
      orders := orders[order.ticket.id := order];
      trades, listing := book.ProcessOrder(order);
    }

    twostate lemma StatusesKept(order: Order)
      requires order.ticket.id !in old(orders) && orders == old(orders)[order.ticket.id := order]
      requires order.status.New? && forall id | id in old(orders) :: orders[id].status == old(orders[id].status)
      ensures OnlyQuantitiesMoved(old(View()), View(), order.ticket)
    {
    }

    /** Matching an order in its book: the live set is scanned, the books stay consistent. */
    method MatchInBook(order: Order) returns (trades: seq<Trade>, ghost listing: seq<Resting>)
      requires Consistent() && order.ticket.id !in orders && order.ticket.symbol in orderBooks
      requires Admitted(order.remaining, order.ticket.quantity) == order.ticket.quantity > 0
      modifies this`orders, orderBooks[order.ticket.symbol], orders.Values`remaining, order`remaining
      ensures Consistent()
      ensures orders == old(orders)[order.ticket.id := order]
      ensures IsListing(listing, Opposing(old(LiveOf(View())), order.ticket))
      ensures trades == Scan(order.ticket, order.ticket.quantity, listing).trades
      ensures LiveOf(View()) == AfterScan(old(LiveOf(View())), order.ticket, order.ticket.quantity, listing)
      ensures order.status.New? ==> OnlyQuantitiesMoved(old(View()), View(), order.ticket)
    {
      hide IsHeap, IsListing, Scan, Identified, LiveOf, LiveIn, Elems, Leftover, OnSide, AfterScan, OnlyQuantitiesMoved;
      var t := order.ticket;
      HeapIsSide(t.symbol, t.side);
      HeapIsSide(t.symbol, Opposite(t.side));
      ghost var before := orderBooks[t.symbol].Members();
      trades, listing := MatchShelf(order);
      StillConsistent(order, before);
      if order.status.New? { StatusesKept(order); }
      HeapIsSide(t.symbol, t.side);
      HeapIsSide(t.symbol, Opposite(t.side));
      LiveScanned(order, before, listing);
    }

    /** The orders that a match touched, looked up by the ids its trades name. */
    method ChangedOrders(order: Order, trades: seq<Trade>) returns (changed: map<Id, Order>)
      requires order.ticket.id in orders && orders[order.ticket.id] == order
      ensures forall id :: id in changed <==> id in orders && (id == order.ticket.id || Mentioned(trades, id))
      ensures forall id | id in changed :: changed[id] == orders[id]
    {
      changed := map[order.ticket.id := order];
      for i := 0 to |trades|
        invariant forall id :: id in changed
                    <==> id in orders && (id == order.ticket.id || Mentioned(trades[..i], id))
        invariant forall id | id in changed :: changed[id] == orders[id]
      {
        var trade := trades[i];
        MentionedNext(trades, i);
        if trade.buyOrder in orders {
          changed := changed[trade.buyOrder := orders[trade.buyOrder]];
        }
        if trade.sellOrder in orders {
          changed := changed[trade.sellOrder := orders[trade.sellOrder]];
        }
      }
      assert trades[..|trades|] == trades;
    }

    /** `updateOrderStatus` on one order of the map. */
    method UpdateStatus(id: Id)
      requires Consistent() && id in orders
      modifies orders[id]
      ensures Consistent()
      ensures View() == Recomputed(old(View()), {id})
    {
      hide IsHeap, Shelved, InBook, BooksFit;
      OneObject(id);
      UpdateOrderStatus(orders[id]);
      ShelvesStay();
    }

    /** `updateOrderStatus` on every changed order. */
    method UpdateStatuses(changed: map<Id, Order>) returns (updated: seq<Order>)
      requires Consistent()
      requires forall id | id in changed :: id in orders && changed[id] == orders[id]
      modifies changed.Values
      ensures Consistent()
      ensures View() == Recomputed(old(View()), changed.Keys)
      ensures forall o :: o in updated <==> o in changed.Values
    {
      hide *;
      updated := [];
      var pending := changed.Keys;
      ghost var v := View();
      RecomputeNone(v);
      assert changed.Keys - pending == {};
      while pending != {}
        invariant pending <= changed.Keys && Consistent()
        invariant View() == Recomputed(v, changed.Keys - pending)
        invariant forall o :: o in updated <==> exists id :: id in changed && id !in pending && changed[id] == o
        decreases pending
      {
        var id :| id in pending;
        RecomputeOneMore(v, changed.Keys - pending, id);
        assert changed.Keys - pending + {id} == changed.Keys - (pending - {id});
        pending := pending - {id};
        UpdateStatus(id);
        updated := updated + [changed[id]];
      }
      assert changed.Keys - {} == changed.Keys;
    }

    /**
      Creates an order. The trades are those of the reference scan over a listing of the live
      orders; every order the trades name, and no other, lost what it traded and had its status
      recomputed.
    */
    method ProcessOrder(order: Order)
      returns (trades: seq<Trade>, updated: seq<Order>, ghost listing: seq<Resting>)
      requires Valid() && order.ticket.id !in orders && order.status.New?
      requires order.ticket.quantity > 0 && (order.remaining <= 0 || order.remaining == order.ticket.quantity)
      modifies this, orderBooks.Values, orders.Values, order
      ensures Valid()
      ensures orders == old(orders)[order.ticket.id := order]
      ensures fresh(orderBooks.Values - old(orderBooks.Values))
      ensures IsListing(listing, Opposing(old(LiveOf(View())), order.ticket))
      ensures trades == Scan(order.ticket, order.ticket.quantity, listing).trades
      ensures var t := order.ticket;
        View() == AfterMatch(old(View())[t.id := Record(t, t.quantity, New)], t.id, trades)
      ensures PriorityKept(old(LiveOf(View())), order.ticket, trades)
      ensures OnRestingTerms(old(LiveOf(View())), order.ticket, trades)
      ensures forall id | id in orders :: id in View() && StatusTells(View()[id])
      ensures forall o :: o in updated
                <==> o in orders.Values && (o == order || Mentioned(trades, o.ticket.id))
    {
      hide *;
      var t := order.ticket;
      ghost var v := View();
      EnterProcess(order);
      var book := GetOrCreateOrderBook(t.symbol);
      trades, listing := MatchInBook(order);
      ViewIndexed();
      ghost var matched := View();
      updated := Refresh(order, trades);
      RecomputedIsAfterMatch(v, matched, t, listing);
      MatchScansLive(v, t, listing);
      LiveOfWellFormed(v);
      ScanIsFair(LiveOf(v), t, t.quantity, listing);
      LeaveProcess();
    }

    lemma EnterProcess(order: Order)
      requires Valid() && order.ticket.id !in orders
      requires order.ticket.quantity > 0 && (order.remaining <= 0 || order.remaining == order.ticket.quantity)
      ensures Admitted(order.remaining, order.ticket.quantity) == order.ticket.quantity
      ensures Consistent() && Indexed(View()) && StatusesFit(View()) && order.ticket.id !in View()
    {
    }

    lemma LeaveProcess()
      requires Consistent() && StatusesFit(View())
      ensures Valid() && forall id | id in orders :: id in View() && StatusTells(View()[id])
    {
      ViewIndexed();
      FitIsTelling(View());
    }

    /** The engine's own part of ProcessOrder after the book: find the changed orders, set their statuses. */
    method Refresh(order: Order, trades: seq<Trade>) returns (updated: seq<Order>)
      requires Consistent() && order.ticket.id in orders && orders[order.ticket.id] == order
      modifies orders.Values
      ensures Consistent()
      ensures View() == Recomputed(old(View()), Touched(old(View()), order.ticket.id, trades))
      ensures forall o :: o in updated
                <==> o in orders.Values && (o == order || Mentioned(trades, o.ticket.id))
    {
      hide IsHeap, Recomputed, Mentioned, Touched, InBook;
      var changed := ChangedOrders(order, trades);
      ChangedAreTouched(order, trades, changed);
      updated := UpdateStatuses(changed);
    }

    lemma ChangedAreTouched(order: Order, trades: seq<Trade>, changed: map<Id, Order>)
      requires BooksFit() && order.ticket.id in orders && orders[order.ticket.id] == order
      requires forall id :: id in changed <==> id in orders && (id == order.ticket.id || Mentioned(trades, id))
      requires forall id | id in changed :: changed[id] == orders[id]
      ensures changed.Keys == Touched(View(), order.ticket.id, trades)
      ensures forall o :: o in changed.Values
                <==> o in orders.Values && (o == order || Mentioned(trades, o.ticket.id))
    {
      hide Mentioned;
      forall o ensures o in changed.Values
                <==> o in orders.Values && (o == order || Mentioned(trades, o.ticket.id))
      {
        if o in orders.Values {
          assert orders[o.ticket.id] == o;
          assert o in changed.Values <==> o.ticket.id in changed;
        }
      }
    }

    /**
      Assigns both mutable fields of one order; its place in a heap does not depend on them. The
      books stay consistent exactly when an open order is still in its book.
    */
    method Overwrite(id: Id, remaining: int, status: Status)
      requires Consistent() && id in orders
      modifies orders[id]
      ensures Consistent() <==> remaining >= 0 && (remaining > 0 ==> InBook(orders[id]))
      ensures View() == old(View())[id := Record(orders[id].ticket, remaining, status)]
      ensures InBook(orders[id]) == old(InBook(orders[id]))
    {
      hide IsHeap, Shelved, InBook, BooksFit;
      OneObject(id);
      orders[id].remaining := remaining;
      orders[id].status := status;
      ShelvesStay();
    }

    lemma OneObject(id: Id)
      requires BooksFit() && id in orders
      ensures forall k | k in orders && k != id :: orders[k] != orders[id]
    {
    }

    twostate lemma ShelvesStay()
      requires old(BooksFit()) && orders == old(orders) && orderBooks == old(orderBooks)
      requires forall s | s in orderBooks :: unchanged(orderBooks[s])
      ensures BooksFit() && forall id | id in orders :: InBook(orders[id]) == old(InBook(orders[id]))
    {
      hide IsHeap;
    }

    /** Cancels in place: the order is emptied where it sits, its heap is not touched. */
    method CancelOrder(id: Id) returns (found: bool, remaining: int, status: Status)
      requires Valid()
      modifies if id in orders then {orders[id]} else {}
      ensures Valid()
      ensures found <==> id in orders
      ensures !found ==> View() == old(View())
      ensures found ==> View() == AfterCancel(old(View()), id)
                        && remaining == old(orders[id].remaining) && status == old(orders[id].status)
                        && orders[id].remaining == 0 && orders[id].status == Cancelled
    {
      if id !in orders { return false, 0, New; }
      found, remaining, status := true, orders[id].remaining, orders[id].status;
      ViewIndexed();
      CancelRemovesLive(View(), id);
      Overwrite(id, 0, Cancelled);
    }

    /**
      Gives an order any quantity and status. The engine is consistent afterwards exactly when they
      fit each other and a live order is still in its book, as after a cancel that no match followed.
    */
    method RestoreOrder(id: Id, remaining: int, status: Status) returns (found: bool)
      requires Valid()
      modifies if id in orders then {orders[id]} else {}
      ensures found <==> id in orders
      ensures View() == if found then old(View())[id := Record(orders[id].ticket, remaining, status)] else old(View())
      ensures Valid() <==> found ==>
        && remaining >= 0 && StatusFits(Record(orders[id].ticket, remaining, status))
        && (remaining > 0 ==> old(InBook(orders[id])))
    {
      hide Consistent, InBook, StatusFits;
      if id !in orders { return false; }
      found := true;
      ghost var v := View();
      ViewKeys();
      Overwrite(id, remaining, status);
      StatusesWith(v, id, Record(orders[id].ticket, remaining, status));
    }

    lemma StatusesWith(v: View, id: Id, r: Record)
      requires StatusesFit(v)
      ensures StatusesFit(v[id := r]) <==> StatusFits(r)
    {
      hide StatusFits;
      assert v[id := r][id] == r;
    }

    twostate lemma ViewGains(order: Order)
      requires order.ticket.id !in old(orders) && orders == old(orders)[order.ticket.id := order]
      requires forall id | id in old(orders) ::
                 orders[id].remaining == old(orders[id].remaining) && orders[id].status == old(orders[id].status)
      ensures View() == old(View())[order.ticket.id := Record(order.ticket, order.remaining, order.status)]
    {
    }

    /** Puts an order object into the map and, if it is open, into its book. */
    method Place(order: Order, open: bool)
      requires Consistent() && order.ticket.id !in orders && order.remaining >= 0
      requires order.remaining > 0 ==> open
      modifies this, orderBooks.Values
      ensures Consistent()
      ensures orders == old(orders)[order.ticket.id := order]
      ensures orders.Values <= old(orders.Values) + {order}
      ensures fresh(orderBooks.Values - old(orderBooks.Values))
      ensures View() == old(View())[order.ticket.id := Record(order.ticket, order.remaining, order.status)]
    {
      hide *;
      if open {
        var book := GetOrCreateOrderBook(order.ticket.symbol);
        PlaceOnShelf(order);
      } else {
        PlaceAside(order);
      }
      ViewGains(order);
    }

    /** The same for a new object with the contents of a record. */
    method PlaceCopy(r: Record, open: bool)
      requires Consistent() && r.ticket.id !in orders && r.remaining >= 0
      requires r.remaining > 0 ==> open
      modifies this, orderBooks.Values
      ensures Consistent()
      ensures fresh(orders.Values - old(orders.Values)) && fresh(orderBooks.Values - old(orderBooks.Values))
      ensures View() == old(View())[r.ticket.id := r]
    {
      hide Consistent, MatchingEngine.View;
      var order := new Order(r.ticket, r.remaining, r.status);
      Place(order, open);
    }

    method PlaceAside(order: Order)
      requires Consistent() && order.ticket.id !in orders && order.remaining == 0
      modifies this`orders
      ensures Consistent()
      ensures orders == old(orders)[order.ticket.id := order]
    {
      hide IsHeap;
      orders := orders[order.ticket.id := order];
    }

    method PlaceOnShelf(order: Order)
      requires Consistent() && order.ticket.id !in orders && order.remaining >= 0
      requires order.ticket.symbol in orderBooks
      modifies this`orders, orderBooks[order.ticket.symbol]
      ensures Consistent()
      ensures orders == old(orders)[order.ticket.id := order]
    {
      hide IsHeap, LiveIn, Identified;
      var book := orderBooks[order.ticket.symbol];
      BookValid(order.ticket.symbol);
      ghost var before := book.Members();
      orders := orders[order.ticket.id := order];
      book.RestoreOrder(order);
      StillConsistent(order, before);
    }

    /** Copies one symbol's orders, dead ones included. */
    method SnapshotSymbol(symbol: Symbol) returns (snapshot: SymbolSnapshot)
      requires Valid()
      ensures snapshot == SymbolSnapshot(symbol, OfSymbol(View(), symbol))
      ensures forall id :: id in snapshot.orders <==> id in orders && orders[id].ticket.symbol == symbol
      ensures forall id | id in snapshot.orders ::
        snapshot.orders[id] == Record(orders[id].ticket, orders[id].remaining, orders[id].status)
    {
      hide Consistent, StatusesFit;
      var copies: View := map[];
      var pending := orders.Keys;
      while pending != {}
        invariant pending <= orders.Keys
        invariant copies == OfSymbol(Done(View(), pending), symbol)
        decreases pending
      {
        var id :| id in pending;
        pending := pending - {id};
        if orders[id].ticket.symbol == symbol {
          copies := copies[id := Record(orders[id].ticket, orders[id].remaining, orders[id].status)];
        }
      }
      snapshot := SymbolSnapshot(symbol, copies);
    }

    /** Throws one symbol away: its orders and its book. */
    method DropSymbol(symbol: Symbol)
      requires Consistent()
      modifies this
      ensures Consistent()
      ensures View() == NotOfSymbol(old(View()), symbol)
      ensures orderBooks == old(orderBooks) - {symbol}
      ensures orders.Values <= old(orders.Values)
    {
      var kept := WithoutSymbol(orders, symbol);
      orders, orderBooks := kept, orderBooks - {symbol};
      StillFits(symbol);
    }

    twostate lemma StillFits(symbol: Symbol)
      requires old(Consistent())
      requires orders == map id | id in old(orders) && old(orders)[id].ticket.symbol != symbol :: old(orders)[id]
      requires orderBooks == old(orderBooks) - {symbol}
      requires forall s | s in orderBooks ::
        orderBooks[s].buyOrders == old(orderBooks[s].buyOrders) && orderBooks[s].sellOrders == old(orderBooks[s].sellOrders)
      requires forall id | id in orders ::
        orders[id].remaining == old(orders[id].remaining) && orders[id].status == old(orders[id].status)
      ensures Consistent()
      ensures View() == NotOfSymbol(old(View()), symbol)
    {
      hide Shelved, IsHeap;
      forall s | s in orderBooks ensures Shelved(orderBooks[s], s) {
        ShelfStays(symbol, s);
      }
      forall id | id in orders && orders[id].remaining > 0 ensures InBook(orders[id]) {
        assert old(InBook(orders[id]));
      }
    }

    /** The shelf of another symbol does not miss the orders that are thrown away. */
    twostate lemma ShelfStays(symbol: Symbol, new s: Symbol)
      requires orders == map id | id in old(orders) && old(orders)[id].ticket.symbol != symbol :: old(orders)[id]
      requires orderBooks == old(orderBooks) - {symbol} && s in orderBooks && old(Shelved(orderBooks[s], s))
      requires orderBooks[s].buyOrders == old(orderBooks[s].buyOrders)
      requires orderBooks[s].sellOrders == old(orderBooks[s].sellOrders)
      ensures Shelved(orderBooks[s], s)
    {
      hide IsHeap;
      assert orderBooks[s].Members() == old(orderBooks[s].Members());
    }

    /** Rebuilds one symbol from a snapshot: the engine knows what it knew when the snapshot was taken. */
    method RestoreSymbol(snapshot: SymbolSnapshot)
      requires Valid() && Indexed(snapshot.orders) && StatusesFit(snapshot.orders)
      requires snapshot.orders.Keys !! NotOfSymbol(View(), snapshot.symbol).Keys
      modifies this, orderBooks.Values
      ensures Valid()
      ensures View() == NotOfSymbol(old(View()), snapshot.symbol) + snapshot.orders
      ensures forall id | id in snapshot.orders :: id in View() && View()[id] == snapshot.orders[id]
      ensures forall id | id in old(View()) && old(View())[id].ticket.symbol != snapshot.symbol ::
        id in View() && View()[id] == old(View())[id]
      ensures forall id | id in View() && id !in snapshot.orders ::
        id in old(View()) && old(View())[id].ticket.symbol != snapshot.symbol
      ensures fresh(orderBooks.Values - old(orderBooks.Values)) && fresh(orders.Values - old(orders.Values))
    {
      hide Consistent, Done, NotOfSymbol, MatchingEngine.View;
      DropSymbol(snapshot.symbol);
      ghost var rest := View();
      var pending := snapshot.orders.Keys;
      CopyNone(rest, snapshot.orders);
      while pending != {}
        invariant pending <= snapshot.orders.Keys && Consistent()
        invariant View() == rest + Done(snapshot.orders, pending)
        invariant fresh(orderBooks.Values - old(orderBooks.Values)) && fresh(orders.Values - old(orders.Values))
        decreases pending
      {
        var id :| id in pending;
        CopyOneMore(rest, snapshot.orders, pending, id);
        pending := pending - {id};
        var r := snapshot.orders[id];
        ViewIndexed();
        PlaceCopy(r, r.remaining > 0 && !r.status.Cancelled? && !r.status.Filled?);
      }
      assert pending == {};
      RestoredExactly(old(View()), snapshot);
      StatusesJoin(old(View()), snapshot);
    }

    lemma RestoredExactly(v: View, snapshot: SymbolSnapshot)
      requires snapshot.orders.Keys !! NotOfSymbol(v, snapshot.symbol).Keys
      ensures var v' := NotOfSymbol(v, snapshot.symbol) + snapshot.orders;
        && (forall id | id in snapshot.orders :: v'[id] == snapshot.orders[id])
        && (forall id | id in v && v[id].ticket.symbol != snapshot.symbol :: id in v' && v'[id] == v[id])
        && (forall id | id in v' :: id in snapshot.orders || (id in v && v[id].ticket.symbol != snapshot.symbol))
    {
    }

    lemma StatusesJoin(v: View, snapshot: SymbolSnapshot)
      requires StatusesFit(v) && StatusesFit(snapshot.orders)
      ensures StatusesFit(NotOfSymbol(v, snapshot.symbol) + snapshot.orders)
    {
    }

    /** Recovery: the engine knows exactly the open rows. */
    method RestoreOrders(rows: seq<Record>) returns (restored: nat)
      requires forall i, j | 0 <= i < j < |rows| :: rows[i].ticket.id != rows[j].ticket.id
      requires forall i | 0 <= i < |rows| :: StatusFits(rows[i])
      modifies this
      ensures Valid()
      ensures View() == ByIds(rows) && restored == |View()|
      ensures forall j | 0 <= j < |rows| && rows[j].remaining > 0 ::
        rows[j].ticket.id in View() && View()[rows[j].ticket.id] == rows[j]
      ensures forall id | id in View() :: View()[id] in rows && View()[id].remaining > 0
      ensures fresh(orderBooks.Values) && fresh(orders.Values)
    {
      hide Consistent, ByIds, StatusesFit, Indexed, StatusFits, MatchingEngine.View;
      orderBooks, orders := map[], map[];
      restored := 0;
      EmptyIsConsistent();
      for i := 0 to |rows|
        invariant Consistent()
        invariant View() == ByIds(rows[..i]) && restored == |ByIds(rows[..i])|
        invariant fresh(orderBooks.Values) && fresh(orders.Values)
      {
        NextRow(rows, i);
        if rows[i].remaining > 0 {
          ViewIndexed();
          PlaceCopy(rows[i], true);
          restored := restored + 1;
        }
      }
      assert rows[..|rows|] == rows;
      ByIdsKeys(rows);
      ByIdsHasAll(rows);
    }

    lemma EmptyIsConsistent()
      requires orders == map[] && orderBooks == map[]
      ensures Consistent() && View() == map[] && View() == ByIds([])
    {
    }
  }

  /** The order map without one symbol's orders. */
  method WithoutSymbol(orders: map<Id, Order>, symbol: Symbol) returns (kept: map<Id, Order>)
    ensures kept == map id | id in orders && orders[id].ticket.symbol != symbol :: orders[id]
  {
    kept := orders;
    var pending := orders.Keys;
    while pending != {}
      invariant pending <= orders.Keys
      invariant kept == map id | id in orders && (id in pending || orders[id].ticket.symbol != symbol) :: orders[id]
      decreases pending
    {
      var id :| id in pending;
      pending := pending - {id};
      if orders[id].ticket.symbol == symbol {
        kept := kept - {id};
      }
    }
  }

  lemma MentionedNext(trades: seq<Trade>, i: nat)
    requires i < |trades|
    ensures forall id :: Mentioned(trades[..i + 1], id) <==> Mentioned(trades[..i], id) || Names(trades[i], id)
  {
    assert trades[..i + 1] == trades[..i] + [trades[i]];
    assert trades[i] in trades[..i + 1];
    assert forall trade | trade in trades[..i] :: trade in trades[..i + 1];
  }

  method UpdateOrderStatus(order: Order)
    modifies order
    ensures if old(order.status).Cancelled? then order.status.Cancelled? && order.remaining == old(order.remaining)
      else && order.remaining == (if old(order.remaining) < 0 then 0 else old(order.remaining))
           && order.status == if old(order.remaining) <= 0 then Filled
                              else if old(order.remaining) < order.ticket.quantity then PartiallyFilled else New
    ensures Record(order.ticket, order.remaining, order.status)
            == Updated(Record(order.ticket, old(order.remaining), old(order.status)), old(order.remaining))
  {
    if order.status.Cancelled? { return; }
    if order.remaining <= 0 {
      order.remaining := 0;
      order.status := Filled;
    } else if order.remaining < order.ticket.quantity {
      order.status := PartiallyFilled;
    } else {
      order.status := New;
    }
  }
}
