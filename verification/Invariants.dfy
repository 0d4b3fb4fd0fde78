/** What every step of the exchange keeps. */
module Invariants {
  import opened Model
  import opened Matching
  import opened Book
  import opened Records
  import opened Money
  import opened Totals
  import opened Ledgers
  import opened Exchange

  // ---------------------------------------------------------------- sums under single updates

  lemma RowShare(rows: map<Id, Row>, id: Id, row: Row, k: Key)
    ensures Total(ReservedBy(rows[id := row], k))
            == Total(ReservedBy(rows, k)) + Share(row.ticket, k, row.reserved)
               - (if id in rows then Share(rows[id].ticket, k, rows[id].reserved) else 0)
  {
    TotalUpdate(ReservedBy(rows, k), id, Share(row.ticket, k, row.reserved));
    assert ReservedBy(rows[id := row], k) == ReservedBy(rows, k)[id := Share(row.ticket, k, row.reserved)];
  }

  lemma InflightShare(inflight: map<Id, Pending>, id: Id, p: Pending, k: Key)
    ensures id !in inflight ==>
      Total(InflightBy(inflight[id := p], k)) == Total(InflightBy(inflight, k)) + Share(p.ticket, k, p.amount)
    ensures id in inflight ==>
      Total(InflightBy(inflight - {id}, k))
      == Total(InflightBy(inflight, k)) - Share(inflight[id].ticket, k, inflight[id].amount)
  {
    TotalUpdate(InflightBy(inflight, k), id, Share(p.ticket, k, p.amount));
    assert InflightBy(inflight[id := p], k) == InflightBy(inflight, k)[id := Share(p.ticket, k, p.amount)];
    TotalRemove(InflightBy(inflight, k), id);
    assert InflightBy(inflight - {id}, k) == InflightBy(inflight, k) - {id};
  }

  /** No account disappears. */
  ghost predicate Wider(l: Ledger, l': Ledger) {
    l.users.Keys <= l'.users.Keys && l.positions.Keys <= l'.positions.Keys
  }

  lemma BackedWider(l: Ledger, l': Ledger, t: Ticket)
    requires Wider(l, l') && Backed(l, t)
    ensures Backed(l', t)
  {
  }

  // ---------------------------------------------------------------- reservation steps

  /** A step that touches accounts and in-flight reservations only. */
  lemma AccountsOnly(s: State, s': State)
    requires Invariant(s) && Wider(s.l, s'.l)
    requires s'.l.rows == s.l.rows && s'.booked == s.booked && s'.unsettled == s.unsettled && s'.cancels == s.cancels
    requires forall id | id in s'.inflight && id !in s.inflight ::
               PendingFits(id, s'.inflight[id]) && Backed(s'.l, s'.inflight[id].ticket) && id !in s.l.rows
    requires forall id | id in s'.inflight && id in s.inflight :: s'.inflight[id] == s.inflight[id]
    requires forall k :: AgreesAt(s', k)
    ensures Invariant(s')
  {
    hide RowFits, TradeFits, PendingFits, AgreesAt, Worth;
    forall id | id in s'.l.rows ensures NotStranded(s', id) && Backed(s'.l, s'.l.rows[id].ticket) {
      assert NotStranded(s, id);
      BackedWider(s.l, s'.l, s.l.rows[id].ticket);
    }
    forall id | id in s'.inflight && id in s.inflight ensures Backed(s'.l, s'.inflight[id].ticket) {
      BackedWider(s.l, s'.l, s.inflight[id].ticket);
    }
  }

  lemma ReserveKeeps(s: State, s': State, t: Ticket)
    requires Invariant(s) && ReserveStep(s, s', t)
    ensures Invariant(s')
  {
    hide RowFits, TradeFits, NotStranded, CostFor, Shape;
    var amount := ReserveFor(t, t.quantity).value;
    AmountPositive(t);
    forall k ensures AgreesAt(s', k) {
      assert AgreesAt(s, k);
      InflightShare(s.inflight, t.id, Pending(t, amount), k);
    }
    AccountsOnly(s, s');
  }

  /** An admitted order reserves something. */
  lemma AmountPositive(t: Ticket)
    requires t.price > 0 && t.quantity > 0 && ReserveFor(t, t.quantity).Ok?
    ensures ReserveFor(t, t.quantity).value > 0
  {
    var amount := ReserveFor(t, t.quantity).value;
    ReserveIsWorth(t, t.quantity, amount);
    assert t.price * t.quantity > 0;
  }

  lemma CompensateKeeps(s: State, s': State, id: Id)
    requires Invariant(s) && CompensateStep(s, s', id)
    ensures Invariant(s')
  {
    hide RowFits, TradeFits, NotStranded, CostFor, Total, Worth;
    var p := s.inflight[id];
    forall k ensures AgreesAt(s', k) {
      assert AgreesAt(s, k);
      InflightShare(s.inflight, id, p, k);
    }
    AccountsOnly(s, s');
  }

  lemma InsertKeeps(s: State, s': State, id: Id)
    requires Invariant(s) && InsertStep(s, s', id)
    ensures Invariant(s')
  {
    hide Shape, Worth, CostFor;
    var p := s.inflight[id];
    InsertKeepsShape(s, s', id);
    forall k ensures AgreesAt(s', k) {
      assert AgreesAt(s, k);
      InflightShare(s.inflight, id, p, k);
      RowShare(s.l.rows, id, s'.l.rows[id], k);
    }
    forall o | o in s'.l.rows ensures NotStranded(s', o) {
      if o != id { assert NotStranded(s, o); }
    }
  }

  lemma InsertKeepsShape(s: State, s': State, id: Id)
    requires Shape(s) && InsertStep(s, s', id)
    ensures Shape(s') && id !in s.l.rows
    ensures SCALE * s'.l.rows[id].reserved == Worth(s'.l.rows[id].ticket, s'.l.rows[id].remaining)
  {
    hide TradeFits, CostFor, StatusFits;
    AdmittedStatus(s.inflight[id].ticket, s.inflight[id].amount);
    ReserveIsWorth(s.inflight[id].ticket, s.inflight[id].ticket.quantity, s.inflight[id].amount);
    TradesStillFit(s, s'.l.rows, s'.booked);
  }

  lemma AdmittedStatus(t: Ticket, amount: int)
    requires t.quantity > 0
    ensures StatusFits(RecordOf(Row(t, t.quantity, New, amount)))
  {
  }

  /** A trade keeps fitting while its orders keep their tickets. */
  lemma TradeFitsWider(rows: map<Id, Row>, rows': map<Id, Row>, booked: set<Id>, booked': set<Id>, t: Trade)
    requires TradeFits(rows, booked, t) && booked <= booked' && booked <= rows.Keys
    requires forall id | id in booked :: id in rows' && rows'[id].ticket == rows[id].ticket
    ensures TradeFits(rows', booked', t)
  {
  }

  lemma TradesStillFit(s: State, rows: map<Id, Row>, booked: set<Id>)
    requires Shape(s) && s.booked <= booked
    requires forall id | id in s.booked :: id in rows && rows[id].ticket == s.l.rows[id].ticket
    ensures forall tid | tid in s.unsettled :: TradeFits(rows, booked, s.unsettled[tid])
  {
    forall tid | tid in s.unsettled ensures TradeFits(rows, booked, s.unsettled[tid]) {
      TradeFitsWider(s.l.rows, rows, s.booked, booked, s.unsettled[tid]);
    }
  }

  // ---------------------------------------------------------------- matching

  /** The rows can give what the trade takes, and the trade is new. */
  ghost predicate FillFits(s: State, tid: Id, t: Trade) {
    && tid !in s.unsettled
    && TradeFits(s.l.rows, s.booked, t)
    && t.quantity <= s.l.rows[t.buyOrder].remaining
    && t.quantity <= s.l.rows[t.sellOrder].remaining
  }

  lemma LessIsWorthLess(t: Ticket, left: int, more: int)
    requires t.price > 0 && left <= more
    ensures Worth(t, left) <= Worth(t, more)
  {
    if t.side.Buy? { assert t.price * (more - left) >= 0; }
  }

  lemma FillKeepsShape(s: State, tid: Id, t: Trade)
    requires Shape(s) && FillFits(s, tid, t)
    ensures Shape(Fill(s, tid, t))
  {
    hide ReserveFor, Backed, PendingFits, TradeFits, RowFits, FillRow;
    var s' := Fill(s, tid, t);
    FillEffect(s, tid, t);
    TradesStillFit(s, s'.l.rows, s'.booked);
    TradeFitsWider(s.l.rows, s'.l.rows, s.booked, s'.booked, t);
    AccountsStillBack(s, s');
  }

  /** A fill shrinks two rows and leaves every other row alone. */
  lemma FillEffect(s: State, tid: Id, t: Trade)
    requires Shape(s) && FillFits(s, tid, t)
    ensures var rows, rows' := s.l.rows, Fill(s, tid, t).l.rows;
      && rows'.Keys == rows.Keys
      && (forall id | id in rows ::
            && RowFits(id, rows'[id])
            && rows'[id].ticket == rows[id].ticket && rows'[id].reserved == rows[id].reserved
            && if Names(t, id) then id in s.booked && rows'[id].remaining == rows[id].remaining - t.quantity >= 0
               else rows'[id] == rows[id])
    ensures t.quantity > 0
  {
    hide Backed, PendingFits, ReserveFor;
    var rows := s.l.rows;
    forall id | id in rows ensures RowFits(id, Fill(s, tid, t).l.rows[id]) {
      FillKeepsRow(s, t.buyOrder, t.quantity, id);
      FillKeepsRow(s.(l := s.l.(rows := FillRow(rows, t.buyOrder, t.quantity))), t.sellOrder, t.quantity, id);
    }
  }

  lemma AccountsStillBack(s: State, s': State)
    requires Shape(s) && s'.l.users == s.l.users && s'.l.positions == s.l.positions && s'.inflight == s.inflight
    requires s'.l.rows.Keys == s.l.rows.Keys
    requires forall id | id in s.l.rows :: s'.l.rows[id].ticket == s.l.rows[id].ticket
    ensures forall id | id in s'.l.rows :: Backed(s'.l, s'.l.rows[id].ticket)
    ensures forall id | id in s'.inflight :: Backed(s'.l, s'.inflight[id].ticket)
  {
  }

  lemma FillKeepsRow(s: State, o: Id, quantity: int, id: Id)
    requires id in s.l.rows && RowFits(id, s.l.rows[id])
    requires id == o ==> 0 < quantity <= s.l.rows[id].remaining
    ensures RowFits(id, FillRow(s.l.rows, o, quantity)[id])
    ensures id != o ==> FillRow(s.l.rows, o, quantity)[id] == s.l.rows[id]
  {
  }

  lemma FillKeeps(s: State, tid: Id, t: Trade)
    requires Invariant(s) && FillFits(s, tid, t)
    ensures Invariant(Fill(s, tid, t))
  {
    hide CostFor, Shape, RowFits, Worth, Total, Awaits, FillRow;
    var s' := Fill(s, tid, t);
    FillKeepsShape(s, tid, t);
    FillEffect(s, tid, t);
    forall k ensures AgreesAt(s', k) {
      assert AgreesAt(s, k);
      assert ReservedBy(s'.l.rows, k) == ReservedBy(s.l.rows, k);
    }
    forall id | id in s'.l.rows ensures NotStranded(s', id) {
      assert NotStranded(s, id);
      ShapePrice(s, id);
      LessIsWorthLess(s.l.rows[id].ticket, s'.l.rows[id].remaining, s.l.rows[id].remaining);
      AwaitsAfterFill(s, tid, t, id);
    }
  }

  lemma ShapePrice(s: State, id: Id)
    requires Shape(s) && id in s.l.rows
    ensures s.l.rows[id].ticket.price > 0 && RowFits(id, s.l.rows[id])
  {
  }

  lemma AwaitsAfterFill(s: State, tid: Id, t: Trade, id: Id)
    requires tid !in s.unsettled
    ensures Awaits(s, id) || Names(t, id) ==> Awaits(Fill(s, tid, t), id)
  {
    var s' := Fill(s, tid, t);
    assert s'.unsettled[tid] == t;
    if k :| k in s.unsettled && Names(s.unsettled[k], id) {
      assert k in s'.unsettled && s'.unsettled[k] == s.unsettled[k];
    }
  }

  /** The rows say what the book says about the incoming order and the orders to be scanned. */
  ghost predicate Reflects(s: State, t: Ticket, quantity: int, book: seq<Resting>) {
    && Queue(book)
    && t.id in s.l.rows && t.id in s.booked && s.l.rows[t.id].ticket == t && s.l.rows[t.id].remaining == quantity
    && forall x | x in book :: BookRow(s, t, x)
  }

  ghost predicate BookRow(s: State, t: Ticket, x: Resting) {
    && x.ticket.id in s.l.rows && x.ticket.id in s.booked
    && s.l.rows[x.ticket.id].ticket == x.ticket && s.l.rows[x.ticket.id].remaining == x.remaining
    && x.ticket.side == Opposite(t.side) && x.ticket.symbol == t.symbol && x.ticket.id != t.id
  }

  /** The trade the scan makes next can be filled in the rows. */
  lemma NextTradeFits(s: State, tid: Id, t: Ticket, quantity: int, x: Resting, filled: int)
    requires BookRow(s, t, x) && tid !in s.unsettled
    requires t.id in s.l.rows && t.id in s.booked && s.l.rows[t.id].ticket == t && s.l.rows[t.id].remaining == quantity
    requires Crosses(t, x.ticket) && 0 < filled <= quantity && filled <= x.remaining
    ensures FillFits(s, tid, MakeTrade(x.ticket, t, filled))
  {
  }

  lemma ReflectsAfterFill(s: State, tid: Id, t: Ticket, quantity: int, book: seq<Resting>)
    requires book != [] && Reflects(s, t, quantity, book)
    ensures Reflects(Fill(s, tid, MakeTrade(book[0].ticket, t, book[0].remaining)), t,
                     quantity - book[0].remaining, book[1..])
  {
    hide StatusFor;
    TailIsQueue(book);
    var s' := Fill(s, tid, MakeTrade(book[0].ticket, t, book[0].remaining));
    assert BookRow(s, t, book[0]);
    forall x | x in book[1..] ensures BookRow(s', t, x) {
      var j :| 0 <= j < |book| - 1 && book[1..][j] == x;
      assert book[j + 1] == x && x in book && book[0] in book;
      assert BookRow(s, t, x);
    }
  }

  /** Recording all trades of a scan keeps the invariant. */
  lemma {:induction false} FillsKeep(s: State, tids: seq<Id>, t: Ticket, quantity: int, book: seq<Resting>)
    requires Invariant(s) && Reflects(s, t, quantity, book)
    requires |tids| == |Scan(t, quantity, book).trades| && FreshIds(s, tids)
    ensures Invariant(FillAll(s, tids, Scan(t, quantity, book).trades))
    decreases |book|
  {
    hide Invariant, FillFits, Queue, BookRow, MakeTrade, Crosses, Fill;
    var trades := Scan(t, quantity, book).trades;
    if quantity > 0 && book != [] && Crosses(t, book[0].ticket) {
      var x := book[0];
      assert x in book;
      QueueIsIdentified(book);
      var filled := Min(quantity, x.remaining);
      var trade := MakeTrade(x.ticket, t, filled);
      assert trades[0] == trade;
      NextTradeFits(s, tids[0], t, quantity, x, filled);
      FillKeeps(s, tids[0], trade);
      if x.remaining <= quantity {
        ReflectsAfterFill(s, tids[0], t, quantity, book);
        FreshTail(s, tids, trade);
        FillsKeep(Fill(s, tids[0], trade), tids[1..], t, quantity - x.remaining, book[1..]);
        assert trades[1..] == Scan(t, quantity - x.remaining, book[1..]).trades;
      } else {
        assert trades[1..] == [];
      }
    }
  }

  lemma FreshTail(s: State, tids: seq<Id>, trade: Trade)
    requires tids != [] && FreshIds(s, tids)
    ensures FreshIds(Fill(s, tids[0], trade), tids[1..])
  {
  }

  /** The listing of the live book reflects the rows, once the incoming order is booked. */
  lemma BookReflects(s: State, id: Id, listing: seq<Resting>)
    requires Shape(s) && id in s.l.rows && id !in s.booked
    requires IsListing(listing, Opposing(LiveOf(BookView(s)), s.l.rows[id].ticket))
    ensures var t := s.l.rows[id].ticket;
      Reflects(s.(booked := s.booked + {id}), t, t.quantity, listing)
  {
    hide IsListing, Opposing;
    var t := s.l.rows[id].ticket;
    var live := LiveOf(BookView(s));
    BookIndexed(s);
    LiveOfWellFormed(BookView(s));
    ListingIsQueue(live, t, listing);
    forall x | x in listing ensures BookRow(s.(booked := s.booked + {id}), t, x) {
      LiveRecord(BookView(s), x);
    }
  }

  lemma BookIndexed(s: State)
    requires Shape(s)
    ensures Indexed(BookView(s)) && StatusesFit(BookView(s))
  {
    hide Backed, TradeFits;
  }

  lemma MatchKeeps(s: State, s': State, id: Id, listing: seq<Resting>, tids: seq<Id>)
    requires Invariant(s) && MatchStep(s, s', id, listing, tids)
    ensures Invariant(s')
  {
    hide Reflects, IsListing, Scan, FillAll;
    var s1 := s.(booked := s.booked + {id});
    BookReflects(s, id, listing);
    BookingKeeps(s, id);
    FillsKeep(s1, tids, s.l.rows[id].ticket, s.l.rows[id].ticket.quantity, listing);
  }

  lemma BookingKeeps(s: State, id: Id)
    requires Invariant(s) && id in s.l.rows && id !in s.booked
    ensures Invariant(s.(booked := s.booked + {id}))
  {
    hide RowFits, PendingFits, Worth, CostFor, Backed;
    var s1 := s.(booked := s.booked + {id});
    forall tid | tid in s.unsettled ensures TradeFits(s1.l.rows, s1.booked, s1.unsettled[tid]) {
      TradeFitsWider(s.l.rows, s1.l.rows, s.booked, s1.booked, s.unsettled[tid]);
    }
    forall k ensures AgreesAt(s1, k) { assert AgreesAt(s, k); }
    forall o | o in s1.l.rows ensures NotStranded(s1, o) { assert NotStranded(s, o); }
  }

  // ---------------------------------------------------------------- cancelling

  lemma CancelKeeps(s: State, s': State, id: Id, event: Id)
    requires Invariant(s) && CancelStep(s, s', id, event)
    ensures Invariant(s')
  {
    CancelKeepsShape(s, s', id, event);
    ShapePrice(s, id);
    hide Shape, NotStranded, AgreesAt;
    forall k ensures AgreesAt(s', k) {
      CancelKeepsSums(s, s', id, event, k);
    }
    forall o | o in s'.l.rows ensures NotStranded(s', o) {
      CancelStrandsNothing(s, s', id, event, o);
    }
  }

  lemma CancelKeepsSums(s: State, s': State, id: Id, event: Id, k: Key)
    requires CancelStep(s, s', id, event) && AgreesAt(s, k)
    ensures AgreesAt(s', k)
  {
    hide Total, KeyOf;
    assert ReservedBy(s'.l.rows, k) == ReservedBy(s.l.rows, k);
  }

  lemma CancelStrandsNothing(s: State, s': State, id: Id, event: Id, o: Id)
    requires o in s.l.rows && NotStranded(s, o) && CancelStep(s, s', id, event) && s.l.rows[id].ticket.price > 0
    ensures NotStranded(s', o)
  {
    LessIsWorthLess(s.l.rows[id].ticket, 0, s.l.rows[id].remaining);
    if o == id {
      assert s'.cancels[event] == id;
    } else if e :| e in s.cancels && s.cancels[e] == o {
      assert s'.cancels[e] == o;
    }
  }

  lemma CancelKeepsShape(s: State, s': State, id: Id, event: Id)
    requires Shape(s) && CancelStep(s, s', id, event)
    ensures Shape(s')
  {
    hide CostFor, PendingFits, TradeFits, Backed;
    TradesStillFit(s, s'.l.rows, s'.booked);
    AccountsStillBack(s, s');
  }

  // ---------------------------------------------------------------- settling

  /** Nothing is reserved beyond what the remainder needs. */
  predicate Exact(l: Ledger, id: Id)
    requires id in l.rows
  {
    SCALE * l.rows[id].reserved == Worth(l.rows[id].ticket, l.rows[id].remaining)
  }

  /** What an applied payment changed, and that it changed nothing else. */
  lemma PayEffect(l: Ledger, id: Id, side: Side, user: Id, k: Key, amount: int)
    requires PayLeg(l, id, side, user, k, amount).Applied?
    ensures id in l.rows && Has(l, k)
    ensures var l' := PayLeg(l, id, side, user, k, amount).ledger;
      && l'.rows.Keys == l.rows.Keys && Has(l', k) && Wider(l, l') && Wider(l', l)
      && (forall o | o in l.rows && o != id :: l'.rows[o] == l.rows[o])
      && l'.rows[id] == l.rows[id].(reserved := l'.rows[id].reserved)
      && 0 <= l'.rows[id].reserved <= l.rows[id].reserved
      && Exact(l', id)
      && At(l', k).held == At(l, k).held - amount >= 0
      && At(l', k).reserved == At(l, k).reserved - (l.rows[id].reserved - l'.rows[id].reserved) >= 0
      && (forall j | j != k :: Has(l', j) == Has(l, j) && (Has(l, j) ==> At(l', j) == At(l, j)))
  {
    var row := l.rows[id];
    ReserveIsWorth(row.ticket, row.remaining, ReserveFor(row.ticket, row.remaining).value);
  }

  lemma PayKeeps(s: State, l': Ledger, id: Id, side: Side, user: Id, k: Key, amount: int)
    requires Invariant(s) && PayLeg(s.l, id, side, user, k, amount) == Applied(l')
    requires k == KeyOf(s.l.rows[id].ticket)
    ensures Invariant(s.(l := l')) && Exact(l', id)
  {
    hide PayLeg, Worth, Shape, CostFor;
    PayEffect(s.l, id, side, user, k, amount);
    var s' := s.(l := l');
    PayKeepsShape(s, l', id);
    forall j ensures AgreesAt(s', j) {
      assert AgreesAt(s, j);
      RowShare(s.l.rows, id, l'.rows[id], j);
      assert l'.rows == s.l.rows[id := l'.rows[id]];
    }
    forall o | o in s'.l.rows ensures NotStranded(s', o) {
      assert NotStranded(s, o);
    }
  }

  lemma PayKeepsShape(s: State, l': Ledger, id: Id)
    requires Shape(s) && id in s.l.rows && l'.rows.Keys == s.l.rows.Keys && Wider(s.l, l') && Exact(l', id)
    requires forall o | o in s.l.rows && o != id :: l'.rows[o] == s.l.rows[o]
    requires l'.rows[id] == s.l.rows[id].(reserved := l'.rows[id].reserved) && 0 <= l'.rows[id].reserved
    ensures Shape(s.(l := l'))
  {
    hide Backed;
    var s' := s.(l := l');
    forall o | o in s'.l.rows ensures RowFits(o, l'.rows[o]) && Backed(l', l'.rows[o].ticket) {
      BackedWider(s.l, l', s.l.rows[o].ticket);
    }
    forall o | o in s'.inflight ensures Backed(l', s'.inflight[o].ticket) {
      BackedWider(s.l, l', s.inflight[o].ticket);
    }
    forall tid | tid in s.unsettled ensures TradeFits(l'.rows, s.booked, s.unsettled[tid]) {
      TradeFitsWider(s.l.rows, l'.rows, s.booked, s.booked, s.unsettled[tid]);
    }
    if id !in s.booked {
      var row := s.l.rows[id];
      ReserveIsWorth(row.ticket, row.remaining, row.reserved);
      assert l'.rows[id].reserved == row.reserved;
    }
  }

  /** Money or shares arriving touch no reservation. */
  lemma CreditKeeps(s: State, k: Key, a: Account)
    requires Invariant(s)
    requires a.reserved == ReservedAt(s.l, k)
    ensures Invariant(s.(l := Put(s.l, k, a)))
    ensures Put(s.l, k, a).rows == s.l.rows
  {
    hide Shape, NotStranded, CostFor;
    var s' := s.(l := Put(s.l, k, a));
    forall j ensures AgreesAt(s', j) { assert AgreesAt(s, j); }
    AccountsOnly(s, s');
  }

  /** An event may be forgotten once the orders it names hold exactly what they need. */
  lemma DropTrade(s: State, tid: Id)
    requires Invariant(s) && tid in s.unsettled
    requires forall id | id in s.l.rows && Names(s.unsettled[tid], id) :: Exact(s.l, id)
    ensures Invariant(s.(unsettled := s.unsettled - {tid}))
  {
    hide RowFits, TradeFits, PendingFits, Backed, Worth, CostFor;
    var s' := s.(unsettled := s.unsettled - {tid});
    forall k ensures AgreesAt(s', k) { assert AgreesAt(s, k); }
    forall id | id in s'.l.rows ensures NotStranded(s', id) {
      assert NotStranded(s, id);
      if !Exact(s.l, id) {
        if j :| j in s.unsettled && Names(s.unsettled[j], id) {
          assert j in s'.unsettled && s'.unsettled[j] == s.unsettled[j];
        }
      }
    }
  }

  lemma SettleKeeps(s: State, s': State, tid: Id)
    requires Invariant(s) && SettleStep(s, s', tid)
    ensures Invariant(s')
    ensures forall id | id in s'.l.rows && Names(s.unsettled[tid], id) :: Exact(s'.l, id)
  {
    hide Invariant, PayLeg, TradeFits, Exact;
    var t := s.unsettled[tid];
    TradeOrders(s, tid);
    var total := CostFor(t.price, t.quantity).value;
    var l1 := PayLeg(s.l, t.buyOrder, Buy, t.buyer, Cash(t.buyer), total).ledger;
    PayKeeps(s, l1, t.buyOrder, Buy, t.buyer, Cash(t.buyer), total);
    PayEffect(s.l, t.buyOrder, Buy, t.buyer, Cash(t.buyer), total);
    var s1 := s.(l := l1);

    var k := Units(t.buyer, t.symbol);
    CreditKeeps(s1, k, Account(HeldAt(l1, k) + t.quantity, ReservedAt(l1, k)));
    var l2 := CreditUnits(l1, t.buyer, t.symbol, t.quantity);
    var s2 := s.(l := l2);

    var l3 := PayLeg(l2, t.sellOrder, Sell, t.seller, Units(t.seller, t.symbol), t.quantity).ledger;
    PayKeeps(s2, l3, t.sellOrder, Sell, t.seller, Units(t.seller, t.symbol), t.quantity);
    PayEffect(l2, t.sellOrder, Sell, t.seller, Units(t.seller, t.symbol), t.quantity);
    var s3 := s.(l := l3);

    CreditKeeps(s3, Cash(t.seller), l3.users[t.seller].(held := l3.users[t.seller].held + total));
    var s4 := s.(l := s'.l);
    ExactStays(l1, s'.l, t.buyOrder);
    ExactStays(l3, s'.l, t.sellOrder);
    DropTrade(s4, tid);
  }

  lemma ExactStays(l: Ledger, l': Ledger, id: Id)
    requires id in l.rows && Exact(l, id) && id in l'.rows && l'.rows[id] == l.rows[id]
    ensures Exact(l', id)
  {
  }

  lemma TradeOrders(s: State, tid: Id)
    requires Invariant(s) && tid in s.unsettled
    ensures var t := s.unsettled[tid];
      && t.buyOrder in s.l.rows && t.sellOrder in s.l.rows && t.buyOrder != t.sellOrder
      && KeyOf(s.l.rows[t.buyOrder].ticket) == Cash(t.buyer)
      && KeyOf(s.l.rows[t.sellOrder].ticket) == Units(t.seller, t.symbol)
      && TradeFits(s.l.rows, s.booked, t)
  {
  }

  // ---------------------------------------------------------------- releasing

  lemma ReleaseKeeps(s: State, s': State, event: Id)
    requires Invariant(s) && ReleaseStep(s, s', event)
    ensures Invariant(s')
    ensures s.cancels[event] in s'.l.rows && s'.l.rows[s.cancels[event]].reserved == 0
  {
    hide Worth, Shape;
    var id := s.cancels[event];
    CancelledRow(s, event);
    var row := s.l.rows[id];
    ReleaseKeepsShape(s, s', event);
    forall k ensures AgreesAt(s', k) {
      assert AgreesAt(s, k);
      RowShare(s.l.rows, id, row.(reserved := 0), k);
      assert s'.l.rows == s.l.rows[id := row.(reserved := 0)];
    }
    forall o | o in s'.l.rows ensures NotStranded(s', o) {
      assert NotStranded(s, o);
      if o != id {
        if e :| e in s.cancels && s.cancels[e] == o { assert s'.cancels[e] == o; }
      }
    }
  }

  lemma CancelledRow(s: State, event: Id)
    requires Shape(s) && event in s.cancels
    ensures s.cancels[event] in s.l.rows && s.cancels[event] in s.booked
    ensures var row := s.l.rows[s.cancels[event]]; row.remaining == 0 && Worth(row.ticket, row.remaining) == 0
  {
    NothingWorthNothing(s.l.rows[s.cancels[event]].ticket);
  }

  lemma ReleaseKeepsShape(s: State, s': State, event: Id)
    requires Shape(s) && ReleaseStep(s, s', event)
    ensures Shape(s')
  {
    hide Shape;
    CancelledRow(s, event);
    PayKeepsShape(s, s'.l, s.cancels[event]);
    FewerCancels(s.(l := s'.l), event);
  }

  lemma FewerCancels(s: State, event: Id)
    requires Shape(s)
    ensures Shape(s.(cancels := s.cancels - {event}))
  {
  }

  lemma NothingWorthNothing(t: Ticket)
    ensures Worth(t, 0) == 0
  {
  }

  // ---------------------------------------------------------------- every reachable state

  lemma InitialHolds(s: State)
    requires Initial(s)
    ensures Invariant(s)
  {
    forall k ensures AgreesAt(s, k) {
      assert ReservedBy(s.l.rows, k) == map[] && InflightBy(s.inflight, k) == map[];
    }
  }

  lemma NextKeeps(s: State, step: Step, s': State)
    requires Invariant(s) && Next(s, step, s')
    ensures Invariant(s')
  {
    hide Invariant, ReserveStep, InsertStep, CompensateStep, MatchStep, CancelStep, SettleStep, ReleaseStep;
    match step
    case Reserve(t) => ReserveKeeps(s, s', t);
    case Insert(id) => InsertKeeps(s, s', id);
    case Compensate(id) => CompensateKeeps(s, s', id);
    case Match(id, listing, tids) => MatchKeeps(s, s', id, listing, tids);
    case Cancel(id, event) => CancelKeeps(s, s', id, event);
    case Settle(tid) => SettleKeeps(s, s', tid);
    case Release(event) => ReleaseKeeps(s, s', event);
  }

  ghost predicate Trace(states: seq<State>, steps: seq<Step>) {
    && |states| == |steps| + 1
    && Initial(states[0])
    && forall i | 0 <= i < |steps| :: Next(states[i], steps[i], states[i + 1])
  }

  /** The reservation ledger agrees with its parts, and nothing is stranded, in every reachable state. */
  lemma {:induction false} ReachableHolds(states: seq<State>, steps: seq<Step>, n: nat)
    requires Trace(states, steps) && n < |states|
    ensures Invariant(states[n])
  {
    if n == 0 {
      InitialHolds(states[0]);
    } else {
      ReachableHolds(states, steps, n - 1);
      NextKeeps(states[n - 1], steps[n - 1], states[n]);
    }
  }
}
