/**
  Can every fill be paid? The margin of an account is what it holds minus everything it may
  still have to pay: open orders at their limits, fills waiting to be settled, reservations in
  flight. All amounts are times 10^8, so that they exist even where a cost is not exact.
*/
module Solvency {
  import opened Model
  import opened Matching
  import opened Book
  import opened Records
  import opened Money
  import opened Totals
  import opened Ledgers
  import opened Exchange
  import opened Invariants

  function WorthBy(rows: map<Id, Row>, k: Key): map<Id, int> {
    map id | id in rows :: Share(rows[id].ticket, k, Worth(rows[id].ticket, rows[id].remaining))
  }

  /** What a trade takes from an account. */
  function Pays(t: Trade, k: Key): int {
    match k
    case Cash(u) => if u == t.buyer then t.price * t.quantity else 0
    case Units(u, s) => if u == t.seller && s == t.symbol then SCALE * t.quantity else 0
  }

  /** What a trade brings to an account. */
  function Earns(t: Trade, k: Key): int {
    match k
    case Cash(u) => if u == t.seller then t.price * t.quantity else 0
    case Units(u, s) => if u == t.buyer && s == t.symbol then SCALE * t.quantity else 0
  }

  function PaysBy(unsettled: map<Id, Trade>, k: Key): map<Id, int> {
    map tid | tid in unsettled :: Pays(unsettled[tid], k)
  }

  ghost function Owed(s: State, k: Key): int {
    Total(WorthBy(s.l.rows, k)) + Total(PaysBy(s.unsettled, k)) + SCALE * Total(InflightBy(s.inflight, k))
  }

  ghost function Margin(s: State, k: Key): int {
    SCALE * HeldAt(s.l, k) - Owed(s, k)
  }

  ghost predicate Solvent(s: State) {
    forall k :: Margin(s, k) >= 0
  }

  // ---------------------------------------------------------------- sums under single updates

  lemma WorthShare(rows: map<Id, Row>, id: Id, row: Row, k: Key)
    ensures Total(WorthBy(rows[id := row], k))
            == Total(WorthBy(rows, k)) + Share(row.ticket, k, Worth(row.ticket, row.remaining))
               - (if id in rows then Share(rows[id].ticket, k, Worth(rows[id].ticket, rows[id].remaining)) else 0)
  {
    var w := Share(row.ticket, k, Worth(row.ticket, row.remaining));
    TotalUpdate(WorthBy(rows, k), id, w);
    assert WorthBy(rows[id := row], k) == WorthBy(rows, k)[id := w];
  }

  lemma PaysShare(unsettled: map<Id, Trade>, tid: Id, t: Trade, k: Key)
    ensures tid !in unsettled ==> Total(PaysBy(unsettled[tid := t], k)) == Total(PaysBy(unsettled, k)) + Pays(t, k)
    ensures tid in unsettled ==>
      Total(PaysBy(unsettled - {tid}, k)) == Total(PaysBy(unsettled, k)) - Pays(unsettled[tid], k)
  {
    TotalUpdate(PaysBy(unsettled, k), tid, Pays(t, k));
    assert PaysBy(unsettled[tid := t], k) == PaysBy(unsettled, k)[tid := Pays(t, k)];
    TotalRemove(PaysBy(unsettled, k), tid);
    assert PaysBy(unsettled - {tid}, k) == PaysBy(unsettled, k) - {tid};
  }

  // ---------------------------------------------------------------- the margin under every step

  lemma ReserveMargin(s: State, s': State, t: Ticket, k: Key)
    requires ReserveStep(s, s', t)
    ensures Margin(s', k) == Margin(s, k) - SCALE * Share(t, k, ReserveFor(t, t.quantity).value)
  {
    var amount := ReserveFor(t, t.quantity).value;
    InflightShare(s.inflight, t.id, Pending(t, amount), k);
  }

  lemma InsertMargin(s: State, s': State, id: Id, k: Key)
    requires Shape(s) && InsertStep(s, s', id)
    ensures Margin(s', k) == Margin(s, k)
  {
    hide Worth, CostFor;
    var p := s.inflight[id];
    ReserveIsWorth(p.ticket, p.ticket.quantity, p.amount);
    InflightShare(s.inflight, id, p, k);
    WorthShare(s.l.rows, id, s'.l.rows[id], k);
  }

  lemma CompensateMargin(s: State, s': State, id: Id, k: Key)
    requires Shape(s) && CompensateStep(s, s', id)
    ensures Margin(s', k) >= Margin(s, k)
  {
    InflightShare(s.inflight, id, s.inflight[id], k);
  }

  /** A fill at or below the buyer's limit frees at least what it will cost. */
  lemma FillMargin(s: State, tid: Id, t: Trade, k: Key)
    requires Shape(s) && FillFits(s, tid, t)
    ensures Margin(Fill(s, tid, t), k) >= Margin(s, k)
  {
    hide Shape;
    var rows := s.l.rows;
    var b, o := rows[t.buyOrder], rows[t.sellOrder];
    var rows1 := FillRow(rows, t.buyOrder, t.quantity);
    WorthShare(rows, t.buyOrder, rows1[t.buyOrder], k);
    WorthShare(rows1, t.sellOrder, FillRow(rows1, t.sellOrder, t.quantity)[t.sellOrder], k);
    PaysShare(s.unsettled, tid, t, k);
    FreedByFill(b.ticket, b.remaining, t);
    assert SCALE * (o.remaining - t.quantity) == SCALE * o.remaining - SCALE * t.quantity;
  }

  lemma FreedByFill(t: Ticket, remaining: int, trade: Trade)
    requires trade.price <= t.price && trade.quantity > 0
    ensures t.price * remaining - t.price * (remaining - trade.quantity) >= trade.price * trade.quantity
  {
    assert t.price * remaining - t.price * (remaining - trade.quantity) == t.price * trade.quantity;
    assert (t.price - trade.price) * trade.quantity >= 0;
  }

  lemma BookingMargin(s: State, booked: set<Id>, k: Key)
    ensures Margin(s.(booked := booked), k) == Margin(s, k)
  {
  }

  lemma {:induction false} FillsMargin(s: State, tids: seq<Id>, t: Ticket, quantity: int, book: seq<Resting>, k: Key)
    requires Invariant(s) && Reflects(s, t, quantity, book)
    requires |tids| == |Scan(t, quantity, book).trades| && FreshIds(s, tids)
    ensures Margin(FillAll(s, tids, Scan(t, quantity, book).trades), k) >= Margin(s, k)
    decreases |book|
  {
    hide Shape, NotStranded, AgreesAt, FillFits, Queue, BookRow, MakeTrade, Crosses, Fill, Margin;
    var trades := Scan(t, quantity, book).trades;
    if quantity > 0 && book != [] && Crosses(t, book[0].ticket) {
      var x := book[0];
      assert x in book;
      QueueIsIdentified(book);
      var filled := Min(quantity, x.remaining);
      var trade := MakeTrade(x.ticket, t, filled);
      assert trades[0] == trade;
      NextTradeFits(s, tids[0], t, quantity, x, filled);
      FillMargin(s, tids[0], trade, k);
      if x.remaining <= quantity {
        FillKeeps(s, tids[0], trade);
        ReflectsAfterFill(s, tids[0], t, quantity, book);
        FreshTail(s, tids, trade);
        FillsMargin(Fill(s, tids[0], trade), tids[1..], t, quantity - x.remaining, book[1..], k);
        assert trades[1..] == Scan(t, quantity - x.remaining, book[1..]).trades;
      } else {
        assert trades[1..] == [];
      }
    }
  }

  lemma MatchMargin(s: State, s': State, id: Id, listing: seq<Resting>, tids: seq<Id>, k: Key)
    requires Invariant(s) && MatchStep(s, s', id, listing, tids)
    ensures Margin(s', k) >= Margin(s, k)
  {
    hide Reflects, IsListing, Scan, FillAll, Margin, Shape, NotStranded;
    BookReflects(s, id, listing);
    BookingKeeps(s, id);
    BookingMargin(s, s.booked + {id}, k);
    FillsMargin(s.(booked := s.booked + {id}), tids, s.l.rows[id].ticket, s.l.rows[id].ticket.quantity, listing, k);
  }

  lemma CancelMargin(s: State, s': State, id: Id, event: Id, k: Key)
    requires Shape(s) && CancelStep(s, s', id, event)
    ensures Margin(s', k) >= Margin(s, k)
  {
    hide Shape;
    ShapePrice(s, id);
    var row := s.l.rows[id];
    WorthShare(s.l.rows, id, s'.l.rows[id], k);
    LessIsWorthLess(row.ticket, 0, row.remaining);
  }

  /** A settled trade moves its cash and its units, and nothing else. */
  lemma SettleMoves(l: Ledger, t: Trade, k: Key)
    requires SettleTrade(l, t).Applied?
    ensures SCALE * HeldAt(SettleTrade(l, t).ledger, k) == SCALE * HeldAt(l, k) - Pays(t, k) + Earns(t, k)
    ensures forall id | id in l.rows ::
      var l' := SettleTrade(l, t).ledger;
      id in l'.rows && l'.rows[id] == l.rows[id].(reserved := l'.rows[id].reserved)
    ensures SettleTrade(l, t).ledger.rows.Keys == l.rows.Keys
  {
    hide PayLeg, CostFor;
    var total := CostFor(t.price, t.quantity).value;
    CostForIsExact(t.price, t.quantity, total);
    PayEffect(l, t.buyOrder, Buy, t.buyer, Cash(t.buyer), total);
    var l1 := PayLeg(l, t.buyOrder, Buy, t.buyer, Cash(t.buyer), total).ledger;
    var l2 := CreditUnits(l1, t.buyer, t.symbol, t.quantity);
    PayEffect(l2, t.sellOrder, Sell, t.seller, Units(t.seller, t.symbol), t.quantity);
    var l3 := PayLeg(l2, t.sellOrder, Sell, t.seller, Units(t.seller, t.symbol), t.quantity).ledger;
    var l4 := SettleTrade(l, t).ledger;
    assert HeldAt(l1, k) == HeldAt(l, k) - if k == Cash(t.buyer) then total else 0;
    assert HeldAt(l2, k) == HeldAt(l1, k) + if k == Units(t.buyer, t.symbol) then t.quantity else 0;
    assert HeldAt(l3, k) == HeldAt(l2, k) - if k == Units(t.seller, t.symbol) then t.quantity else 0;
    assert HeldAt(l4, k) == HeldAt(l3, k) + if k == Cash(t.seller) then total else 0;
  }

  lemma SettleMargin(s: State, s': State, tid: Id, k: Key)
    requires Invariant(s) && SettleStep(s, s', tid)
    ensures Margin(s', k) == Margin(s, k) + Earns(s.unsettled[tid], k) >= Margin(s, k)
  {
    hide SettleTrade, NotStranded, Shape;
    var t := s.unsettled[tid];
    SettleMoves(s.l, t, k);
    PaysShare(s.unsettled, tid, t, k);
    assert WorthBy(s'.l.rows, k) == WorthBy(s.l.rows, k);
    TradeOrders(s, tid);
    ShapePrice(s, t.sellOrder);
    assert t.price * t.quantity >= 0;
  }

  lemma ReleaseMargin(s: State, s': State, event: Id, k: Key)
    requires ReleaseStep(s, s', event)
    ensures Margin(s', k) == Margin(s, k)
  {
    assert WorthBy(s'.l.rows, k) == WorthBy(s.l.rows, k);
  }

  /** No step but a reservation lowers any margin; a reservation lowers one margin by its amount. */
  lemma NextMargin(s: State, step: Step, s': State, k: Key)
    requires Invariant(s) && Next(s, step, s')
    ensures !step.Reserve? ==> Margin(s', k) >= Margin(s, k)
    ensures step.Reserve? ==>
      Margin(s', k) == Margin(s, k) - SCALE * Share(step.ticket, k, ReserveFor(step.ticket, step.ticket.quantity).value)
  {
    hide Margin, NotStranded, AgreesAt, ReserveStep, InsertStep, CompensateStep, MatchStep, CancelStep,
      SettleStep, ReleaseStep, Shape;
    match step
    case Reserve(t) => ReserveMargin(s, s', t, k);
    case Insert(id) => InsertMargin(s, s', id, k);
    case Compensate(id) => CompensateMargin(s, s', id, k);
    case Match(id, listing, tids) => MatchMargin(s, s', id, listing, tids, k);
    case Cancel(id, event) => CancelMargin(s, s', id, event, k);
    case Settle(tid) => SettleMargin(s, s', tid, k);
    case Release(event) => ReleaseMargin(s, s', event, k);
  }
}
