/** What the parts guarantee together. */
module Guarantees {
  import opened Model
  import opened Matching
  import opened Book
  import opened Runs
  import opened Records
  import opened Money
  import opened Totals
  import opened Ledgers
  import opened Exchange
  import opened Invariants
  import opened Solvency
  import opened Payment

  // ---------------------------------------------------------------- conservation

  function CashOf(l: Ledger): map<Id, int> {
    map u | u in l.users :: l.users[u].held
  }

  ghost function CashTotal(l: Ledger): int {
    Total(CashOf(l))
  }

  function UnitsOf(l: Ledger, symbol: Symbol): map<(Id, Symbol), int> {
    map p | p in l.positions :: if p.1 == symbol then l.positions[p].held else 0
  }

  ghost function UnitsTotal(l: Ledger, symbol: Symbol): int {
    Total(UnitsOf(l, symbol))
  }

  lemma PutTotals(l: Ledger, k: Key, a: Account, symbol: Symbol)
    ensures CashTotal(Put(l, k, a)) == CashTotal(l) + if k.Cash? then a.held - HeldAt(l, k) else 0
    ensures UnitsTotal(Put(l, k, a), symbol)
            == UnitsTotal(l, symbol) + if k.Units? && k.symbol == symbol then a.held - HeldAt(l, k) else 0
  {
    var l' := Put(l, k, a);
    match k
    case Cash(u) =>
      TotalUpdate(CashOf(l), u, a.held);
      assert CashOf(l') == CashOf(l)[u := a.held];
    case Units(u, s) =>
      var held := if s == symbol then a.held else 0;
      TotalUpdate(UnitsOf(l, symbol), (u, s), held);
      assert UnitsOf(l', symbol) == UnitsOf(l, symbol)[(u, s) := held];
  }

  lemma RowsDoNotCount(l: Ledger, rows: map<Id, Row>, symbol: Symbol)
    ensures CashTotal(l.(rows := rows)) == CashTotal(l)
    ensures UnitsTotal(l.(rows := rows), symbol) == UnitsTotal(l, symbol)
  {
    assert UnitsOf(l.(rows := rows), symbol) == UnitsOf(l, symbol);
  }

  lemma PayTotals(l: Ledger, id: Id, side: Side, user: Id, k: Key, amount: int, symbol: Symbol)
    requires PayLeg(l, id, side, user, k, amount).Applied?
    ensures var l' := PayLeg(l, id, side, user, k, amount).ledger;
      && CashTotal(l') == CashTotal(l) - (if k.Cash? then amount else 0)
      && UnitsTotal(l', symbol) == UnitsTotal(l, symbol) - if k.Units? && k.symbol == symbol then amount else 0
  {
    hide CashTotal, UnitsTotal;
    var row := l.rows[id];
    var next := ReserveFor(row.ticket, row.remaining).value;
    var a := Account(At(l, k).held - amount, At(l, k).reserved - (row.reserved - next));
    PutTotals(l, k, a, symbol);
    RowsDoNotCount(Put(l, k, a), Put(l, k, a).rows[id := row.(reserved := next)], symbol);
  }

  /** A settled trade moves cash and units between accounts and creates neither, also when buyer and seller are one. */
  lemma SettleConserves(l: Ledger, t: Trade, symbol: Symbol)
    requires SettleTrade(l, t).Applied?
    ensures CashTotal(SettleTrade(l, t).ledger) == CashTotal(l)
    ensures UnitsTotal(SettleTrade(l, t).ledger, symbol) == UnitsTotal(l, symbol)
  {
    hide PayLeg, CashTotal, UnitsTotal;
    var total := CostFor(t.price, t.quantity).value;
    PayTotals(l, t.buyOrder, Buy, t.buyer, Cash(t.buyer), total, symbol);
    var l1 := PayLeg(l, t.buyOrder, Buy, t.buyer, Cash(t.buyer), total).ledger;
    var k := Units(t.buyer, t.symbol);
    PutTotals(l1, k, Account(HeldAt(l1, k) + t.quantity, ReservedAt(l1, k)), symbol);
    var l2 := CreditUnits(l1, t.buyer, t.symbol, t.quantity);
    PayTotals(l2, t.sellOrder, Sell, t.seller, Units(t.seller, t.symbol), t.quantity, symbol);
    var l3 := PayLeg(l2, t.sellOrder, Sell, t.seller, Units(t.seller, t.symbol), t.quantity).ledger;
    PutTotals(l3, Cash(t.seller), l3.users[t.seller].(held := l3.users[t.seller].held + total), symbol);
  }

  lemma NextConserves(s: State, step: Step, s': State, symbol: Symbol)
    requires Next(s, step, s')
    ensures CashTotal(s'.l) == CashTotal(s.l)
    ensures UnitsTotal(s'.l, symbol) == UnitsTotal(s.l, symbol)
  {
    hide SettleTrade, CashTotal, UnitsTotal, Scan, IsListing;
    match step
    case Settle(tid) =>
      SettleConserves(s.l, s.unsettled[tid], symbol);
    case Match(id, listing, tids) =>
      var t := s.l.rows[id].ticket;
      AccountsUntouched(s.(booked := s.booked + {id}), tids, Scan(t, t.quantity, listing).trades);
      RowsDoNotCount(s.l, s'.l.rows, symbol);
    case Reserve(t) =>
      var k := KeyOf(t);
      PutTotals(s.l, k, At(s'.l, k), symbol);
    case Compensate(id) =>
      var k := KeyOf(s.inflight[id].ticket);
      PutTotals(s.l, k, At(s'.l, k), symbol);
    case Insert(id) =>
      RowsDoNotCount(s.l, s'.l.rows, symbol);
    case Cancel(id, event) =>
      RowsDoNotCount(s.l, s'.l.rows, symbol);
    case Release(event) =>
      ReleaseConserves(s.l, s.cancels[event], symbol);
  }

  lemma ReleaseConserves(l: Ledger, id: Id, symbol: Symbol)
    requires ReleaseOrder(l, id).Applied?
    ensures CashTotal(ReleaseOrder(l, id).ledger) == CashTotal(l)
    ensures UnitsTotal(ReleaseOrder(l, id).ledger, symbol) == UnitsTotal(l, symbol)
  {
    hide CashTotal, UnitsTotal;
    var row := l.rows[id];
    var k := KeyOf(row.ticket);
    if row.reserved != 0 {
      var a := At(l, k).(reserved := At(l, k).reserved - row.reserved);
      PutTotals(l, k, a, symbol);
      RowsDoNotCount(Put(l, k, a), Put(l, k, a).rows[id := row.(reserved := 0)], symbol);
    }
  }

  /** Over every run, the cash of all users and the units of every symbol stay what they were. */
  lemma {:induction false} RunConserves(states: seq<State>, steps: seq<Step>, n: nat, symbol: Symbol)
    requires Trace(states, steps) && n < |states|
    ensures CashTotal(states[n].l) == CashTotal(states[0].l)
    ensures UnitsTotal(states[n].l, symbol) == UnitsTotal(states[0].l, symbol)
  {
    hide Next, Initial, CashTotal, UnitsTotal;
    if n > 0 {
      RunConserves(states, steps, n - 1, symbol);
      NextConserves(states[n - 1], steps[n - 1], states[n], symbol);
    }
  }

  /** No account holds more than there is. */
  lemma HeldFits(states: seq<State>, steps: seq<Step>, n: nat, k: Key)
    requires Trace(states, steps) && n < |states|
    ensures 0 <= HeldAt(states[n].l, k) <= Supply(states[0].l, k)
  {
    RunSound(states, steps, n);
    SupplyCovers(states[n].l, k);
    hide Next, Initial, CashTotal, UnitsTotal, Sound;
    RunConserves(states, steps, n, if k.Units? then k.symbol else "");
  }

  /** All there is of what the account holds. */
  ghost function Supply(l: Ledger, k: Key): int {
    if k.Cash? then CashTotal(l) else UnitsTotal(l, k.symbol)
  }

  lemma SupplyCovers(l: Ledger, k: Key)
    requires Sound(l)
    ensures 0 <= HeldAt(l, k) <= Supply(l, k)
  {
    assert HeldAt(l, k) >= 0;
    match k
    case Cash(user) =>
      forall u | u in CashOf(l) ensures CashOf(l)[u] >= 0 { assert HeldAt(l, Cash(u)) >= 0; }
      TotalNonNegative(CashOf(l));
      if user in l.users { TotalBounds(CashOf(l), user); }
    case Units(user, symbol) =>
      var units := UnitsOf(l, symbol);
      forall p | p in units ensures units[p] >= 0 { assert HeldAt(l, Units(p.0, p.1)) >= 0; }
      TotalNonNegative(units);
      if (user, symbol) in l.positions { TotalBounds(units, (user, symbol)); }
  }

  /** A reservation never exceeds what is held; no other step raises what is reserved. */
  lemma NextReserved(s: State, step: Step, s': State, k: Key)
    requires Invariant(s) && Next(s, step, s')
    ensures ReservedAt(s'.l, k) <= ReservedAt(s.l, k) || ReservedAt(s'.l, k) <= HeldAt(s.l, k)
  {
    hide Invariant, SettleTrade, PayLeg, Scan, IsListing;
    match step
    case Settle(tid) =>
      SettleReserved(s.l, s.unsettled[tid], k);
    case Match(id, listing, tids) =>
      var t := s.l.rows[id].ticket;
      AccountsUntouched(s.(booked := s.booked + {id}), tids, Scan(t, t.quantity, listing).trades);
    case Compensate(id) =>
      PendingPositive(s, id);
    case Release(event) =>
      ReleasedWasReserved(s, event);
    case _ =>
  }

  lemma ReleasedWasReserved(s: State, event: Id)
    requires Invariant(s) && event in s.cancels
    ensures s.cancels[event] in s.l.rows && s.l.rows[s.cancels[event]].reserved >= 0
  {
    ReservationHolds(s, s.cancels[event]);
  }

  lemma SettleReserved(l: Ledger, t: Trade, k: Key)
    requires SettleTrade(l, t).Applied?
    ensures ReservedAt(SettleTrade(l, t).ledger, k) <= ReservedAt(l, k)
  {
    hide PayLeg;
    var total := CostFor(t.price, t.quantity).value;
    PayReserved(l, t.buyOrder, Buy, t.buyer, Cash(t.buyer), total, k);
    var l1 := PayLeg(l, t.buyOrder, Buy, t.buyer, Cash(t.buyer), total).ledger;
    var l2 := CreditUnits(l1, t.buyer, t.symbol, t.quantity);
    assert ReservedAt(l2, k) == ReservedAt(l1, k);
    PayReserved(l2, t.sellOrder, Sell, t.seller, Units(t.seller, t.symbol), t.quantity, k);
  }

  lemma PayReserved(l: Ledger, id: Id, side: Side, user: Id, account: Key, amount: int, k: Key)
    requires PayLeg(l, id, side, user, account, amount).Applied?
    ensures ReservedAt(PayLeg(l, id, side, user, account, amount).ledger, k) <= ReservedAt(l, k)
  {
    hide ReserveFor;
  }

  /** Nor does an account ever reserve more than there is. */
  lemma {:induction false} ReservedFits(states: seq<State>, steps: seq<Step>, n: nat, k: Key)
    requires Trace(states, steps) && n < |states|
    ensures 0 <= ReservedAt(states[n].l, k) <= Supply(states[0].l, k)
  {
    hide Next, Initial, Invariant, Supply, ReservedAt, HeldAt;
    ReachableHolds(states, steps, n);
    ReservedNonNegative(states[n], k);
    if n > 0 {
      ReservedFits(states, steps, n - 1, k);
      ReachableHolds(states, steps, n - 1);
      HeldFits(states, steps, n - 1, k);
      NextReserved(states[n - 1], steps[n - 1], states[n], k);
    } else {
      HeldFits(states, steps, 0, k);
      NothingReserved(states[0], k);
    }
  }

  lemma NothingReserved(s: State, k: Key)
    requires Initial(s)
    ensures ReservedAt(s.l, k) == 0
  {
  }

  /**
    No column of accounts or orders overflows: if the initial cash and the initial units of each
    symbol fit 64 bits, so do every balance, position and reserved amount of every run.
  */
  lemma ColumnsFit(states: seq<State>, steps: seq<Step>, n: nat, k: Key)
    requires Trace(states, steps) && n < |states|
    requires Supply(states[0].l, k) <= MAX_INT64
    ensures 0 <= HeldAt(states[n].l, k) <= MAX_INT64
    ensures 0 <= ReservedAt(states[n].l, k) <= MAX_INT64
    ensures forall id | id in states[n].l.rows && KeyOf(states[n].l.rows[id].ticket) == k ::
              0 <= states[n].l.rows[id].reserved <= MAX_INT64
  {
    HeldFits(states, steps, n, k);
    ReservedFits(states, steps, n, k);
    ReachableHolds(states, steps, n);
    forall id | id in states[n].l.rows && KeyOf(states[n].l.rows[id].ticket) == k
      ensures 0 <= states[n].l.rows[id].reserved <= ReservedAt(states[n].l, k)
    {
      ReservationHolds(states[n], id);
    }
  }

  // ---------------------------------------------------------------- the rows follow the match

  /** Filling the trades one by one subtracts from every row what the trades name it for. */
  lemma {:induction false} FillAllRows(s: State, tids: seq<Id>, trades: seq<Trade>, id: Id)
    requires |tids| == |trades| && id in s.l.rows
    requires forall t | t in trades :: t.buyOrder != t.sellOrder
    ensures id in FillAll(s, tids, trades).l.rows
    ensures var row, row' := s.l.rows[id], FillAll(s, tids, trades).l.rows[id];
      && row'.ticket == row.ticket && row'.reserved == row.reserved
      && row'.remaining == row.remaining - FilledIn(trades, id)
      && row'.status == if Mentioned(trades, id) then StatusFor(row'.remaining, row.ticket.quantity) else row.status
    ensures FillAll(s, tids, trades).l.rows.Keys == s.l.rows.Keys && FillAll(s, tids, trades).booked == s.booked
    decreases |trades|
  {
    hide StatusFor, Fill, Mentioned;
    if trades != [] {
      FillOneRow(s, tids[0], trades[0], id);
      assert trades[0] in trades && forall t | t in trades[1..] :: t in trades;
      FillAllRows(Fill(s, tids[0], trades[0]), tids[1..], trades[1..], id);
      MentionedHead(trades, id);
      if !Mentioned(trades[1..], id) { UnmentionedUnfilled(trades[1..], id); }
    } else {
      assert !Mentioned(trades, id) by { NothingMentioned(id); }
    }
  }

  lemma NothingMentioned(id: Id)
    ensures !Mentioned([], id)
  {
  }

  lemma FillOneRow(s: State, tid: Id, t: Trade, id: Id)
    requires id in s.l.rows && t.buyOrder != t.sellOrder
    ensures Fill(s, tid, t).l.rows.Keys == s.l.rows.Keys && Fill(s, tid, t).booked == s.booked
    ensures var row, row' := s.l.rows[id], Fill(s, tid, t).l.rows[id];
      && row'.ticket == row.ticket && row'.reserved == row.reserved
      && row'.remaining == row.remaining - FilledBy(t, id)
      && row'.status == if Names(t, id) then StatusFor(row'.remaining, row.ticket.quantity) else row.status
  {
    hide StatusFor;
  }

  lemma MentionedHead(trades: seq<Trade>, id: Id)
    requires trades != []
    ensures Mentioned(trades, id) <==> Names(trades[0], id) || Mentioned(trades[1..], id)
  {
    assert trades == [trades[0]] + trades[1..];
    assert forall t | t in trades :: t == trades[0] || t in trades[1..];
    assert trades[0] in trades && forall t | t in trades[1..] :: t in trades;
  }

  lemma ScanPairs(s: State, id: Id, listing: seq<Resting>)
    requires Shape(s) && id in s.l.rows && id !in s.booked
    requires IsListing(listing, Opposing(LiveOf(BookView(s)), s.l.rows[id].ticket))
    ensures var t := s.l.rows[id].ticket;
      forall trade | trade in Scan(t, t.quantity, listing).trades :: trade.buyOrder != trade.sellOrder
  {
    var t := s.l.rows[id].ticket;
    var trades := Scan(t, t.quantity, listing).trades;
    BookReflects(s, id, listing);
    ScanFillsInOrder(t, t.quantity, listing);
    forall trade | trade in trades ensures trade.buyOrder != trade.sellOrder {
      var k :| 0 <= k < |trades| && trades[k] == trade;
      assert listing[k] in listing;
      assert BookRow(s.(booked := s.booked + {id}), t, listing[k]);
    }
  }

  /** Only open orders and the incoming one are named by a match. */
  lemma MentionedIsOpen(s: State, id: Id, listing: seq<Resting>, o: Id)
    requires Shape(s) && id in s.l.rows && id !in s.booked && o in s.l.rows
    requires IsListing(listing, Opposing(LiveOf(BookView(s)), s.l.rows[id].ticket))
    ensures var t := s.l.rows[id].ticket;
      o == id || Mentioned(Scan(t, t.quantity, listing).trades, o) ==>
        s.l.rows[o].remaining > 0 && !s.l.rows[o].status.Cancelled?
  {
    hide TradeFits, Backed, PendingFits;
    var t := s.l.rows[id].ticket;
    var trades := Scan(t, t.quantity, listing).trades;
    ShapePrice(s, o);
    ShapePrice(s, id);
    if o != id && Mentioned(trades, o) {
      BookReflects(s, id, listing);
      ScanFillsInOrder(t, t.quantity, listing);
      var trade :| trade in trades && Names(trade, o);
      var k :| 0 <= k < |trades| && trades[k] == trade;
      assert listing[k] in listing;
      assert BookRow(s.(booked := s.booked + {id}), t, listing[k]);
    }
  }

  lemma NewRowRecord(s: State, id: Id)
    requires Shape(s) && id in s.l.rows && id !in s.booked
    ensures RecordOf(s.l.rows[id]) == Record(s.l.rows[id].ticket, s.l.rows[id].ticket.quantity, New)
    ensures s.l.rows[id].ticket.id == id
  {
    ShapePrice(s, id);
  }

  /**
    Recording a match in the exchange writes the same rows as the commit of the matching engine's
    consumer, and turns the book into what the engine holds in memory.
  */
  lemma MatchWritesRows(s: State, s': State, id: Id, listing: seq<Resting>, tids: seq<Id>)
    requires Invariant(s) && MatchStep(s, s', id, listing, tids)
    ensures var t := s.l.rows[id].ticket;
      var trades := Scan(t, t.quantity, listing).trades;
      && Indexed(BookView(s)) && StatusesFit(BookView(s)) && id !in BookView(s) && t.id == id
      && Exchange.RecordsOf(s'.l.rows) == AfterMatch(Exchange.RecordsOf(s.l.rows), id, trades)
      && BookView(s') == AfterMatch(BookView(s)[id := Record(t, t.quantity, New)], id, trades)
  {
    hide Scan, IsListing, FilledIn, Mentioned, FillAll, Shape, NotStranded, AgreesAt, Updated, StatusFor,
      FreshIds, LiveOf, StatusesFit;
    var t := s.l.rows[id].ticket;
    var trades := Scan(t, t.quantity, listing).trades;
    BookIndexed(s);
    ScanPairs(s, id, listing);
    FillAllRows(s.(booked := s.booked + {id}), tids, trades, id);
    forall o | o in s.l.rows
      ensures o in s'.l.rows
      ensures RecordOf(s'.l.rows[o]) == AfterMatch(Exchange.RecordsOf(s.l.rows), id, trades)[o]
    {
      MatchWritesRow(s, s', id, listing, tids, o);
    }
    NewRowRecord(s, id);
    hide Invariant, MatchStep;
    BookedRowsFollow(s, s', id, trades);
  }

  /** Rows that follow a match make a book that follows it. */
  lemma BookedRowsFollow(s: State, s': State, id: Id, trades: seq<Trade>)
    requires s'.booked == s.booked + {id} && s'.l.rows.Keys == s.l.rows.Keys && id in s.l.rows && id !in s.booked
    requires forall o | o in s.l.rows ::
      RecordOf(s'.l.rows[o]) == AfterMatch(Exchange.RecordsOf(s.l.rows), id, trades)[o]
    ensures BookView(s') == AfterMatch(BookView(s)[id := RecordOf(s.l.rows[id])], id, trades)
  {
    hide Mentioned, FilledIn, Updated;
  }

  lemma MatchWritesRow(s: State, s': State, id: Id, listing: seq<Resting>, tids: seq<Id>, o: Id)
    requires Invariant(s) && MatchStep(s, s', id, listing, tids) && o in s.l.rows
    ensures var t := s.l.rows[id].ticket;
      var trades := Scan(t, t.quantity, listing).trades;
      && o in s'.l.rows
      && RecordOf(s'.l.rows[o])
         == if o == id || Mentioned(trades, o)
            then Updated(RecordOf(s.l.rows[o]), s.l.rows[o].remaining - FilledIn(trades, o))
            else RecordOf(s.l.rows[o])
  {
    hide Scan, IsListing, FilledIn, Mentioned, FillAll, Shape, NotStranded, AgreesAt;
    var t := s.l.rows[id].ticket;
    var trades := Scan(t, t.quantity, listing).trades;
    MatchKeeps(s, s', id, listing, tids);
    ScanPairs(s, id, listing);
    FillAllRows(s.(booked := s.booked + {id}), tids, trades, o);
    ShapePrice(s', o);
    MentionedIsOpen(s, id, listing, o);
    if !Mentioned(trades, o) { UnmentionedUnfilled(trades, o); }
    NewRowRecord(s, id);
  }

  // ---------------------------------------------------------------- the uncrossed book, end to end

  lemma NextUncrossed(s: State, step: Step, s': State)
    requires Invariant(s) && Next(s, step, s') && Uncrossed(LiveOf(BookView(s)))
    ensures Uncrossed(LiveOf(BookView(s')))
  {
    hide Invariant, Uncrossed, BookView, ReserveStep, InsertStep, CompensateStep, MatchStep,
      CancelStep, SettleStep, ReleaseStep;
    ShapeOf(s);
    match step
    case Match(id, listing, tids) =>
      MatchKeepsUncrossed(s, s', id, listing, tids);
    case Cancel(id, event) =>
      BookCancels(s, s', id, event);
      FewerUncrossed(LiveOf(BookView(s)), LiveOf(BookView(s')));
    case _ =>
      BookStays(s, step, s');
  }

  lemma MatchKeepsUncrossed(s: State, s': State, id: Id, listing: seq<Resting>, tids: seq<Id>)
    requires Invariant(s) && MatchStep(s, s', id, listing, tids) && Uncrossed(LiveOf(BookView(s)))
    ensures Uncrossed(LiveOf(BookView(s')))
  {
    hide Scan, IsListing, FillAll, AgreesAt, NotStranded, AfterMatch, AfterScan, Uncrossed, BookView, FreshIds, StatusFits;
    MatchWritesRows(s, s', id, listing, tids);
    LiveOfWellFormed(BookView(s));
    ShapePrice(s, id);
    MatchScansLive(BookView(s), s.l.rows[id].ticket, listing);
    CreateKeepsUncrossed(LiveOf(BookView(s)), s.l.rows[id].ticket, listing);
  }

  /** Only matching and cancelling change the book. */
  lemma BookStays(s: State, step: Step, s': State)
    requires Shape(s) && Next(s, step, s') && !step.Match? && !step.Cancel?
    ensures BookView(s') == BookView(s)
  {
    hide TradeFits, Backed, PendingFits, StatusFits, SettleTrade, ReserveFor, Worth, BookView, ReleaseOrder;
    match step
    case Settle(tid) =>
      SettleMoves(s.l, s.unsettled[tid], Cash(0));
      OnlyReservedMoved(s, s');
    case Release(event) =>
      hide Shape;
      ReleaseMovesReserved(s.l, s.cancels[event]);
      OnlyReservedMoved(s, s');
    case _ =>
      UnbookedDoNotCount(s, s');
  }

  lemma ReleaseMovesReserved(l: Ledger, id: Id)
    requires ReleaseOrder(l, id).Applied?
    ensures var rows := ReleaseOrder(l, id).ledger.rows;
      rows.Keys == l.rows.Keys && forall o | o in l.rows :: RecordOf(rows[o]) == RecordOf(l.rows[o])
  {
  }

  lemma OnlyReservedMoved(s: State, s': State)
    requires s'.booked == s.booked && s'.l.rows.Keys == s.l.rows.Keys
    requires forall id | id in s.l.rows :: RecordOf(s'.l.rows[id]) == RecordOf(s.l.rows[id])
    ensures BookView(s') == BookView(s)
  {
  }

  lemma UnbookedDoNotCount(s: State, s': State)
    requires s'.booked == s.booked <= s.l.rows.Keys <= s'.l.rows.Keys
    requires forall id | id in s.booked :: s'.l.rows[id] == s.l.rows[id]
    ensures BookView(s') == BookView(s)
  {
  }

  lemma BookCancels(s: State, s': State, id: Id, event: Id)
    requires Shape(s) && CancelStep(s, s', id, event)
    ensures BookView(s') == AfterCancel(BookView(s), id)
    ensures LiveOf(BookView(s')) <= LiveOf(BookView(s))
  {
    hide Shape, StatusesFit, Indexed, LiveOf;
    BookIndexed(s);
    CancelRemovesLive(BookView(s), id);
    assert BookView(s') == AfterCancel(BookView(s), id);
  }

  lemma FewerUncrossed(live: Live, fewer: Live)
    requires fewer <= live && Uncrossed(live)
    ensures Uncrossed(fewer)
  {
  }

  lemma EmptyUncrossed(s: State)
    requires Initial(s)
    ensures Uncrossed(LiveOf(BookView(s)))
  {
    assert BookView(s) == map[];
  }

  /** In every reachable state of the exchange every open bid is below every open ask of its symbol. */
  lemma {:induction false} RunUncrossed(states: seq<State>, steps: seq<Step>, n: nat)
    requires Trace(states, steps) && n < |states|
    ensures Uncrossed(LiveOf(BookView(states[n])))
  {
    hide Next, Initial, Invariant, Uncrossed, BookView, LiveOf;
    if n == 0 {
      EmptyUncrossed(states[0]);
    } else {
      RunUncrossed(states, steps, n - 1);
      ReachableHolds(states, steps, n - 1);
      NextUncrossed(states[n - 1], steps[n - 1], states[n]);
    }
  }

  // ---------------------------------------------------------------- the grid

  /** The order was admitted on the grid. */
  predicate TicketOnGrid(tick: int, lot: int, t: Ticket)
    requires tick > 0 && lot > 0
  {
    OnGrid(tick, lot, t.price, t.quantity) && ReserveFor(t, t.quantity).Ok?
  }

  predicate TradeOnGrid(tick: int, lot: int, rows: map<Id, Row>, t: Trade)
    requires tick > 0 && lot > 0
  {
    OnGrid(tick, lot, t.price, t.quantity)
    && t.buyOrder in rows && t.quantity <= rows[t.buyOrder].ticket.quantity
  }

  ghost predicate StateOnGrid(s: State, tick: int, lot: int)
    requires tick > 0 && lot > 0
  {
    && (forall id | id in s.l.rows ::
          TicketOnGrid(tick, lot, s.l.rows[id].ticket) && Multiple(s.l.rows[id].remaining, lot))
    && (forall id | id in s.inflight :: TicketOnGrid(tick, lot, s.inflight[id].ticket))
    && (forall tid | tid in s.unsettled :: TradeOnGrid(tick, lot, s.l.rows, s.unsettled[tid]))
  }

  lemma FillOnGrid(s: State, tid: Id, t: Trade, tick: int, lot: int)
    requires tick > 0 && lot > 0 && StateOnGrid(s, tick, lot) && Shape(s) && FillFits(s, tid, t)
    requires OnGrid(tick, lot, t.price, t.quantity)
    ensures StateOnGrid(Fill(s, tid, t), tick, lot)
  {
    hide Shape, TicketOnGrid, Multiple, FillRow;
    FillEffect(s, tid, t);
    var s' := Fill(s, tid, t);
    ShapePrice(s, t.buyOrder);
    forall id | id in s'.l.rows ensures Multiple(s'.l.rows[id].remaining, lot) {
      if Names(t, id) { MultiplesSubtract(s.l.rows[id].remaining, t.quantity, lot); }
    }
  }

  /** Every trade of a scan lies on the grid if the orders do: remainders and prices stay on it. */
  lemma {:induction false} FillsOnGrid(s: State, tids: seq<Id>, t: Ticket, quantity: int, book: seq<Resting>, tick: int, lot: int)
    requires tick > 0 && lot > 0 && StateOnGrid(s, tick, lot)
    requires Invariant(s) && Reflects(s, t, quantity, book)
    requires |tids| == |Scan(t, quantity, book).trades| && FreshIds(s, tids)
    ensures StateOnGrid(FillAll(s, tids, Scan(t, quantity, book).trades), tick, lot)
    decreases |book|
  {
    hide Invariant, FillFits, Queue, MakeTrade, Crosses, Fill, StateOnGrid, Multiple;
    var trades := Scan(t, quantity, book).trades;
    if quantity > 0 && book != [] && Crosses(t, book[0].ticket) {
      var x := book[0];
      assert x in book;
      QueueIsIdentified(book);
      var filled := Min(quantity, x.remaining);
      var trade := MakeTrade(x.ticket, t, filled);
      assert trades[0] == trade;
      NextTradeFits(s, tids[0], t, quantity, x, filled);
      FillKeeps(s, tids[0], trade);
      BothOnGrid(s, t, quantity, x, tick, lot);
      ShapeOf(s);
      FillOnGrid(s, tids[0], trade, tick, lot);
      if x.remaining <= quantity {
        ReflectsAfterFill(s, tids[0], t, quantity, book);
        FreshTail(s, tids, trade);
        FillsOnGrid(Fill(s, tids[0], trade), tids[1..], t, quantity - x.remaining, book[1..], tick, lot);
        assert trades[1..] == Scan(t, quantity - x.remaining, book[1..]).trades;
      } else {
        assert trades[1..] == [];
      }
    }
  }

  lemma ShapeOf(s: State)
    requires Invariant(s)
    ensures Shape(s)
  {
  }

  lemma BothOnGrid(s: State, t: Ticket, quantity: int, x: Resting, tick: int, lot: int)
    requires tick > 0 && lot > 0 && StateOnGrid(s, tick, lot) && BookRow(s, t, x)
    requires t.id in s.l.rows && s.l.rows[t.id].remaining == quantity
    ensures OnGrid(tick, lot, MakeTrade(x.ticket, t, Min(quantity, x.remaining)).price,
                   MakeTrade(x.ticket, t, Min(quantity, x.remaining)).quantity)
  {
  }

  lemma NextOnGrid(s: State, step: Step, s': State, tick: int, lot: int)
    requires tick > 0 && lot > 0 && Invariant(s) && StateOnGrid(s, tick, lot) && Next(s, step, s')
    requires step.Reserve? ==> OnGrid(tick, lot, step.ticket.price, step.ticket.quantity)
    ensures StateOnGrid(s', tick, lot)
  {
    hide OnGrid, StateOnGrid, MatchStep, SettleStep, ReserveStep, InsertStep, CancelStep, Shape, NotStranded, AgreesAt;
    match step
    case Match(id, listing, tids) =>
      MatchOnGrid(s, s', id, listing, tids, tick, lot);
    case Settle(tid) =>
      SettleOnGrid(s, s', tid, tick, lot);
    case Reserve(t) =>
      ReserveOnGrid(s, s', t, tick, lot);
    case Insert(id) =>
      InsertOnGrid(s, s', id, tick, lot);
    case Cancel(id, event) =>
      CancelOnGrid(s, s', id, event, tick, lot);
    case Compensate(id) =>
      AccountsOnGrid(s, s', tick, lot);
    case Release(event) =>
      AccountsOnGrid(s, s', tick, lot);
  }

  lemma MatchOnGrid(s: State, s': State, id: Id, listing: seq<Resting>, tids: seq<Id>, tick: int, lot: int)
    requires tick > 0 && lot > 0 && Invariant(s) && StateOnGrid(s, tick, lot) && MatchStep(s, s', id, listing, tids)
    ensures StateOnGrid(s', tick, lot)
  {
    hide Scan, IsListing, FillAll, AgreesAt, NotStranded, Reflects, Shape, TicketOnGrid, TradeOnGrid;
    BookReflects(s, id, listing);
    BookingKeeps(s, id);
    FillsOnGrid(s.(booked := s.booked + {id}), tids, s.l.rows[id].ticket, s.l.rows[id].ticket.quantity, listing, tick, lot);
  }

  lemma SettleOnGrid(s: State, s': State, tid: Id, tick: int, lot: int)
    requires tick > 0 && lot > 0 && StateOnGrid(s, tick, lot) && SettleStep(s, s', tid)
    ensures StateOnGrid(s', tick, lot)
  {
    hide SettleTrade, ReserveFor, OnGrid;
    SettleMoves(s.l, s.unsettled[tid], Cash(0));
  }

  lemma ReserveOnGrid(s: State, s': State, t: Ticket, tick: int, lot: int)
    requires tick > 0 && lot > 0 && StateOnGrid(s, tick, lot) && ReserveStep(s, s', t)
    requires OnGrid(tick, lot, t.price, t.quantity)
    ensures StateOnGrid(s', tick, lot)
  {
    hide OnGrid;
  }

  lemma InsertOnGrid(s: State, s': State, id: Id, tick: int, lot: int)
    requires tick > 0 && lot > 0 && StateOnGrid(s, tick, lot) && Shape(s) && InsertStep(s, s', id)
    ensures StateOnGrid(s', tick, lot)
  {
    hide ReserveFor, Multiple, RowFits, TradeFits, Backed;
  }

  lemma CancelOnGrid(s: State, s': State, id: Id, event: Id, tick: int, lot: int)
    requires tick > 0 && lot > 0 && StateOnGrid(s, tick, lot) && CancelStep(s, s', id, event)
    ensures StateOnGrid(s', tick, lot)
  {
    hide ReserveFor;
  }

  /** The grid does not depend on accounts, reserved amounts or in-flight reservations that end. */
  lemma AccountsOnGrid(s: State, s': State, tick: int, lot: int)
    requires tick > 0 && lot > 0 && StateOnGrid(s, tick, lot)
    requires s'.l.rows.Keys == s.l.rows.Keys && s'.unsettled == s.unsettled
    requires forall id | id in s.l.rows :: s'.l.rows[id] == s.l.rows[id].(reserved := s'.l.rows[id].reserved)
    requires forall id | id in s'.inflight :: id in s.inflight && s'.inflight[id] == s.inflight[id]
    ensures StateOnGrid(s', tick, lot)
  {
    hide ReserveFor, Multiple;
  }

  /** On the grid the costs of a settlement exist: exact, and no larger than what admission computed. */
  lemma GridComputable(s: State, tid: Id, tick: int, lot: int)
    requires Grid(tick, lot) && Invariant(s) && StateOnGrid(s, tick, lot) && tid in s.unsettled
    ensures s.unsettled[tid].buyOrder in s.l.rows && Computable(s, tid)
  {
    hide Invariant, Multiple, CostFor, RowFits, TradeFits;
    TradeOrders(s, tid);
    PositiveTrade(s, tid);
    var t := s.unsettled[tid];
    var buy := s.l.rows[t.buyOrder];
    BuyFacts(s, tid);
    assert TradeOnGrid(tick, lot, s.l.rows, t) && TicketOnGrid(tick, lot, buy.ticket);
    RemainderOnGrid(s, t.buyOrder, tick, lot);
    CostWithin(tick, lot, t.price, t.quantity, buy.ticket.price, buy.ticket.quantity);
    CostWithin(tick, lot, buy.ticket.price, buy.remaining, buy.ticket.price, buy.ticket.quantity);
  }

  lemma RemainderOnGrid(s: State, id: Id, tick: int, lot: int)
    requires tick > 0 && lot > 0 && StateOnGrid(s, tick, lot) && id in s.l.rows
    ensures OnGrid(tick, lot, s.l.rows[id].ticket.price, s.l.rows[id].remaining)
  {
  }

  lemma BuyFacts(s: State, tid: Id)
    requires Invariant(s) && tid in s.unsettled
    ensures var t := s.unsettled[tid];
      && t.buyOrder in s.l.rows && s.l.rows[t.buyOrder].ticket.side.Buy?
      && 0 <= t.price <= s.l.rows[t.buyOrder].ticket.price
      && 0 <= s.l.rows[t.buyOrder].remaining <= s.l.rows[t.buyOrder].ticket.quantity
  {
    TradeOrders(s, tid);
    PositiveTrade(s, tid);
    ShapePrice(s, s.unsettled[tid].buyOrder);
  }

  lemma CostWithin(tick: int, lot: int, price: int, quantity: int, limit: int, most: int)
    requires Grid(tick, lot) && OnGrid(tick, lot, price, quantity)
    requires 0 <= price <= limit && 0 <= quantity <= most && CostFor(limit, most).Ok?
    ensures CostFor(price, quantity).Ok?
  {
    var bound := CostFor(limit, most).value;
    CostForIsExact(limit, most, bound);
    GridIsExact(tick, lot, price, quantity);
    var cost := Quo(price * quantity, SCALE);
    QuoExact(price * quantity, SCALE, cost);
    assert price * quantity <= limit * most by {
      assert price * quantity <= limit * quantity;
      assert limit * quantity <= limit * most;
    }
    assert price * quantity >= 0;
  }

  /**
    The exchange as a whole: in every run whose reservations are taken on covered accounts, for
    orders on a grid, the ledger can settle every fill that is waiting, in any order.
  */
  lemma {:induction false} EveryFillSettles(states: seq<State>, steps: seq<Step>, n: nat, tid: Id, tick: int, lot: int)
    requires Trace(states, steps) && n < |states| && Grid(tick, lot)
    requires forall i | 0 <= i < |steps| && steps[i].Reserve? ::
      Covered(states[i], KeyOf(steps[i].ticket)) && OnGrid(tick, lot, steps[i].ticket.price, steps[i].ticket.quantity)
    requires tid in states[n].unsettled
    ensures SettleTrade(states[n].l, states[n].unsettled[tid]).Applied?
  {
    hide Multiple, OnGrid, Invariant, StateOnGrid, Covered;
    var s := states[n];
    RunSolvent(states, steps, n);
    RunSound(states, steps, n);
    ReachableHolds(states, steps, n);
    RunOnGrid(states, steps, n, tick, lot);
    GridComputable(s, tid, tick, lot);
    SolventFunds(s, tid);
    SettlesIff(s, tid);
  }

  lemma {:induction false} RunOnGrid(states: seq<State>, steps: seq<Step>, n: nat, tick: int, lot: int)
    requires tick > 0 && lot > 0
    requires Trace(states, steps) && n < |states|
    requires forall i | 0 <= i < |steps| && steps[i].Reserve? ::
      OnGrid(tick, lot, steps[i].ticket.price, steps[i].ticket.quantity)
    ensures StateOnGrid(states[n], tick, lot)
  {
    hide OnGrid, Invariant;
    if n > 0 {
      RunOnGrid(states, steps, n - 1, tick, lot);
      ReachableHolds(states, steps, n - 1);
      NextOnGrid(states[n - 1], steps[n - 1], states[n], tick, lot);
    }
  }

  /** A solvent state holds what each waiting trade takes. */
  lemma SolventFunds(s: State, tid: Id)
    requires Invariant(s) && Solvent(s) && tid in s.unsettled
    ensures Funded(s, tid)
  {
    hide Invariant, Worth;
    var t := s.unsettled[tid];
    OwedCoversTrade(s, tid, Cash(t.buyer));
    OwedCoversTrade(s, tid, Units(t.seller, t.symbol));
    assert Margin(s, Cash(t.buyer)) >= 0 && Margin(s, Units(t.seller, t.symbol)) >= 0;
  }

  lemma OwedCoversTrade(s: State, tid: Id, k: Key)
    requires Invariant(s) && tid in s.unsettled
    ensures Pays(s.unsettled[tid], k) <= Owed(s, k)
  {
    hide Invariant, Total;
    forall id | id in s.l.rows ensures WorthBy(s.l.rows, k)[id] >= 0 {
      ReservationHolds(s, id);
    }
    TotalNonNegative(WorthBy(s.l.rows, k));
    forall id | id in s.unsettled ensures PaysBy(s.unsettled, k)[id] >= 0 {
      PositiveTrade(s, id);
    }
    TotalBounds(PaysBy(s.unsettled, k), tid);
    forall id | id in s.inflight ensures InflightBy(s.inflight, k)[id] >= 0 {
      PendingPositive(s, id);
    }
    TotalNonNegative(InflightBy(s.inflight, k));
  }

  lemma PendingPositive(s: State, id: Id)
    requires Invariant(s) && id in s.inflight
    ensures s.inflight[id].amount > 0
  {
  }
}
