/**
  The matching engine's consumer: one command is one database transaction around a change of
  the in-memory book. The transaction either commits all of its statements or none; what has
  to be proved is that memory follows.
*/
module Consumer {
  import opened Model
  import opened Matching
  import opened Book
  import opened Runs
  import opened Records
  import opened OrderHeap
  import opened Orderbook
  import opened Engine

  /** An event's place in the outbox stands for its fresh UUID. */
  datatype Event =
    | TradeMade(trade: Trade)
    | OrderUpdated(record: Record)
    | OrderCancelled(record: Record)

  datatype Tables = Tables(rows: View, trades: seq<Trade>, outbox: seq<Event>, processed: set<Id>)

  /**
    The first step of a transaction that goes wrong, if any. `LostRace`: between this worker's
    check and its mark another worker committed the same command, with its rows and its mark.
  */
  datatype Fault = NoFault | AtBegin | AtCheck | AtPersist | AtMark | LostRace | AtCommit

  /** `UPDATE orders SET remaining_quantity, status WHERE id`: an unknown id changes nothing. */
  function UpdateRow(rows: View, r: Record): View {
    if r.ticket.id in rows then
      rows[r.ticket.id := rows[r.ticket.id].(remaining := r.remaining, status := r.status)]
    else rows
  }

  function TradeEvents(trades: seq<Trade>): seq<Event> {
    seq(|trades|, i requires 0 <= i < |trades| => TradeMade(trades[i]))
  }

  /** The rows of `orders` that carry the new records of `changed`. */
  function WithRecords(rows: View, changed: View): View {
    map id | id in rows ::
      if id in changed then rows[id].(remaining := changed[id].remaining, status := changed[id].status) else rows[id]
  }

  function Restrict(v: View, ids: set<Id>): View {
    map id | id in v && id in ids :: v[id]
  }

  /** Memory and table agree: what the engine knows is what the rows say, and it knows every open booked row. */
  ghost predicate Agree(view: View, rows: View, booked: set<Id>) {
    && Indexed(rows) && StatusesFit(rows)
    && booked <= rows.Keys && view.Keys <= booked
    && (forall id | id in view :: rows[id] == view[id])
    && (forall id | id in booked && rows[id].remaining > 0 :: id in view)
  }

  /** The create command of this row is still on its way. */
  ghost predicate Queued(rows: View, booked: set<Id>, t: Ticket) {
    t.id in rows && t.id !in booked && rows[t.id] == Record(t, t.quantity, New) && t.quantity > 0
  }

  lemma MentionedIsLiveOrNew(live: Live, t: Ticket, quantity: int, listing: seq<Resting>, id: Id)
    requires WellFormed(live) && IsListing(listing, Opposing(live, t))
    requires Mentioned(Scan(t, quantity, listing).trades, id)
    ensures id == t.id || exists x :: x in live && x.ticket.id == id
  {
    ListingIsQueue(live, t, listing);
    ScanFillsInOrder(t, quantity, listing);
    var trades := Scan(t, quantity, listing).trades;
    var trade :| trade in trades && Names(trade, id);
    var k :| 0 <= k < |trades| && trades[k] == trade;
    assert listing[k] in listing;
  }

  /** A committed create leaves memory and rows in agreement, and both are what the match says. */
  lemma CreateKeepsAgreement(view: View, rows: View, booked: set<Id>, t: Ticket, listing: seq<Resting>)
    requires Agree(view, rows, booked) && Queued(rows, booked, t)
    requires Indexed(view) && StatusesFit(view)
    requires IsListing(listing, Opposing(LiveOf(view), t))
    ensures var trades := Scan(t, t.quantity, listing).trades;
      var view' := AfterMatch(view[t.id := Record(t, t.quantity, New)], t.id, trades);
      var rows' := AfterMatch(rows, t.id, trades);
      && Agree(view', rows', booked + {t.id})
      && rows' == WithRecords(rows, Restrict(view', Touched(view', t.id, trades)))
  {
    hide Scan, IsListing, Mentioned, FilledIn, AfterScan, LiveOf, Updated, WithRecords, Restrict, Touched;
    var trades := Scan(t, t.quantity, listing).trades;
    var view1 := view[t.id := Record(t, t.quantity, New)];
    var view' := AfterMatch(view1, t.id, trades);
    var rows' := AfterMatch(rows, t.id, trades);
    LiveOfWellFormed(view);
    MatchScansLive(view, t, listing);
    forall id | id in rows
      ensures id !in view1 ==> rows'[id] == rows[id]
      ensures id in view1 ==> rows'[id] == view'[id] && rows'[id].ticket == rows[id].ticket
    {
      UnknownNotMentioned(view, t, listing, id);
      if id in view1 { SameTicket(view1, t.id, trades, id); }
    }
    TouchedRows(rows, rows', view1, view', t.id, trades);
  }

  lemma UnknownNotMentioned(view: View, t: Ticket, listing: seq<Resting>, id: Id)
    requires Indexed(view) && IsListing(listing, Opposing(LiveOf(view), t))
    ensures id !in view && id != t.id ==> !Mentioned(Scan(t, t.quantity, listing).trades, id)
  {
    LiveOfWellFormed(view);
    if Mentioned(Scan(t, t.quantity, listing).trades, id) {
      MentionedIsLiveOrNew(LiveOf(view), t, t.quantity, listing, id);
      KnownIfLive(view, id);
    }
  }

  lemma TouchedRows(rows: View, rows': View, view1: View, view': View, id: Id, trades: seq<Trade>)
    requires rows' == AfterMatch(rows, id, trades) && view' == AfterMatch(view1, id, trades) && view1.Keys <= rows.Keys
    requires forall k | k in rows ::
      if k in view1 then rows'[k] == view'[k] && rows'[k].ticket == rows[k].ticket else rows'[k] == rows[k]
    ensures rows' == WithRecords(rows, Restrict(view', Touched(view', id, trades)))
  {
    hide Mentioned, FilledIn, Updated;
  }

  lemma SameTicket(v: View, id: Id, trades: seq<Trade>, k: Id)
    requires k in v
    ensures AfterMatch(v, id, trades)[k].ticket == v[k].ticket
  {
  }

  lemma KnownIfLive(view: View, id: Id)
    requires Indexed(view)
    ensures (exists x :: x in LiveOf(view) && x.ticket.id == id) ==> id in view
  {
  }

  /** A match changes only orders of its own symbol. */
  lemma MatchStaysInSymbol(view: View, t: Ticket, listing: seq<Resting>)
    requires Indexed(view) && t.id !in view
    requires IsListing(listing, Opposing(LiveOf(view), t))
    ensures var v' := AfterMatch(view[t.id := Record(t, t.quantity, New)], t.id, Scan(t, t.quantity, listing).trades);
      && NotOfSymbol(v', t.symbol) + OfSymbol(view, t.symbol) == view
      && OfSymbol(view, t.symbol).Keys !! NotOfSymbol(v', t.symbol).Keys
  {
    hide Scan, IsListing, FilledIn, Mentioned, LiveOf;
    var trades := Scan(t, t.quantity, listing).trades;
    LiveOfWellFormed(view);
    forall id | id in view && Mentioned(trades, id) ensures view[id].ticket.symbol == t.symbol {
      MentionedInSymbol(view, t, listing, id);
    }
    var v1 := view[t.id := Record(t, t.quantity, New)];
    forall id | id in v1 ensures AfterMatch(v1, t.id, trades)[id].ticket == v1[id].ticket {
      SameTicket(v1, t.id, trades, id);
    }
  }

  lemma MentionedInSymbol(view: View, t: Ticket, listing: seq<Resting>, id: Id)
    requires Indexed(view) && t.id !in view && id in view
    requires IsListing(listing, Opposing(LiveOf(view), t))
    requires Mentioned(Scan(t, t.quantity, listing).trades, id)
    ensures view[id].ticket.symbol == t.symbol
  {
    LiveOfWellFormed(view);
    ListingIsQueue(LiveOf(view), t, listing);
    ScanFillsInOrder(t, t.quantity, listing);
    var trades := Scan(t, t.quantity, listing).trades;
    var trade :| trade in trades && Names(trade, id);
    var k :| 0 <= k < |trades| && trades[k] == trade;
    assert listing[k] in listing;
    LiveRecord(view, listing[k]);
  }

  lemma SnapshotFits(view: View, symbol: Symbol)
    requires Indexed(view) && StatusesFit(view)
    ensures Indexed(OfSymbol(view, symbol)) && StatusesFit(OfSymbol(view, symbol))
  {
  }

  function RecordsOf(orders: seq<Order>): seq<Record>
    reads orders
  {
    seq(|orders|, i requires 0 <= i < |orders| reads orders =>
      Record(orders[i].ticket, orders[i].remaining, orders[i].status))
  }

  function UpdateEvents(records: seq<Record>): seq<Event> {
    seq(|records|, i requires 0 <= i < |records| => OrderUpdated(records[i]))
  }

  /** The ids of some records. */
  function Ids(records: seq<Record>): set<Id> {
    set r | r in records :: r.ticket.id
  }

  lemma UpdateOneMore(rows: View, view: View, records: seq<Record>, i: nat)
    requires i < |records| && records[i].ticket.id in view && view[records[i].ticket.id] == records[i]
    ensures UpdateRow(WithRecords(rows, Restrict(view, Ids(records[..i]))), records[i])
            == WithRecords(rows, Restrict(view, Ids(records[..i + 1])))
  {
    assert records[..i + 1] == records[..i] + [records[i]];
    assert Ids(records[..i + 1]) == Ids(records[..i]) + {records[i].ticket.id};
  }

  lemma EventsOneMore(trades: seq<Trade>, records: seq<Record>, i: nat)
    ensures i < |trades| ==> TradeEvents(trades[..i + 1]) == TradeEvents(trades[..i]) + [TradeMade(trades[i])]
    ensures i < |records| ==> UpdateEvents(records[..i + 1]) == UpdateEvents(records[..i]) + [OrderUpdated(records[i])]
  {
  }

  method InsertTrades(tables: Tables, trades: seq<Trade>) returns (work: Tables)
    ensures work == tables.(trades := tables.trades + trades, outbox := tables.outbox + TradeEvents(trades))
  {
    hide TradeEvents;
    work := tables;
    NoEvents(trades, []);
    for i := 0 to |trades|
      invariant work == tables.(trades := tables.trades + trades[..i],
                                outbox := tables.outbox + TradeEvents(trades[..i]))
    {
      EventsOneMore(trades, [], i);
      assert trades[..i + 1] == trades[..i] + [trades[i]];
      work := work.(trades := work.trades + [trades[i]], outbox := work.outbox + [TradeMade(trades[i])]);
    }
    assert trades[..|trades|] == trades;
  }

  lemma NoEvents(trades: seq<Trade>, records: seq<Record>)
    ensures TradeEvents(trades[..0]) == [] && UpdateEvents(records[..0]) == []
  {
  }

  lemma UpdateNone(rows: View, view: View, records: seq<Record>)
    ensures WithRecords(rows, Restrict(view, Ids(records[..0]))) == rows
  {
  }

  /** Inside a transaction: the trades with their events, then the changed orders with theirs. */
  method PersistMatchResultsTx(tables: Tables, trades: seq<Trade>, updated: seq<Record>, ghost view: View)
    returns (work: Tables)
    requires forall r | r in updated :: r.ticket.id in view && view[r.ticket.id] == r
    ensures work.rows == WithRecords(tables.rows, Restrict(view, Ids(updated)))
    ensures work.trades == tables.trades + trades
    ensures work.outbox == tables.outbox + TradeEvents(trades) + UpdateEvents(updated)
    ensures work.processed == tables.processed
  {
    hide TradeEvents, UpdateEvents, WithRecords, Restrict, Ids, UpdateRow;
    work := InsertTrades(tables, trades);
    ghost var outbox := work.outbox;
    UpdateNone(tables.rows, view, updated);
    NoEvents(trades, updated);
    for i := 0 to |updated|
      invariant work.rows == WithRecords(tables.rows, Restrict(view, Ids(updated[..i])))
      invariant work.outbox == outbox + UpdateEvents(updated[..i])
      invariant work.trades == tables.trades + trades && work.processed == tables.processed
    {
      UpdateOneMore(tables.rows, view, updated, i);
      EventsOneMore([], updated, i);
      work := work.(rows := UpdateRow(work.rows, updated[i]), outbox := work.outbox + [OrderUpdated(updated[i])]);
    }
    assert updated[..|updated|] == updated;
  }

  /** The tables after a committed create, matched along `listing`. */
  ghost predicate CreateCommitsWith(before: Tables, command: Id, t: Ticket, listing: seq<Resting>, after: Tables) {
    var trades := Scan(t, t.quantity, listing).trades;
    && after.rows == AfterMatch(before.rows, t.id, trades)
    && after.trades == before.trades + trades
    && before.outbox <= after.outbox
    && after.processed == before.processed + {command}
  }

  /** Some worker whose memory has the live orders of `view` committed the create. */
  ghost predicate CreateCommits(view: View, before: Tables, command: Id, t: Ticket, after: Tables) {
    exists listing ::
      IsListing(listing, Opposing(LiveOf(view), t)) && CreateCommitsWith(before, command, t, listing, after)
  }

  /** The tables after a committed cancel: an open order is closed and announced, any other stays. */
  ghost predicate CancelCommits(before: Tables, command: Id, id: Id, after: Tables) {
    && after.trades == before.trades
    && after.processed == before.processed + {command}
    && if Closes(before, command, id) then
         && after.rows == AfterCancel(before.rows, id)
         && after.outbox == before.outbox + [OrderCancelled(after.rows[id])]
       else after.rows == before.rows && after.outbox == before.outbox
  }

  class MatchingConsumer {
    const engine: MatchingEngine
    var tables: Tables
    /** The orders whose create command was committed. */
    ghost var booked: set<Id>

    ghost predicate Valid()
      reads this, engine, engine.orderBooks.Values, engine.orders.Values
    {
      engine.Valid() && Agree(engine.View(), tables.rows, booked)
    }

    constructor (engine: MatchingEngine, tables: Tables, ghost booked: set<Id>)
      requires engine.Valid() && Agree(engine.View(), tables.rows, booked)
      ensures Valid() && this.engine == engine && this.tables == tables && this.booked == booked
    {
      this.engine, this.tables, this.booked := engine, tables, booked;
    }

    /** The in-memory half of a create, with the snapshot that can undo it. */
    method MatchInMemory(t: Ticket)
      returns (snapshot: SymbolSnapshot, trades: seq<Trade>, records: seq<Record>, ghost listing: seq<Resting>)
      requires Valid() && Queued(tables.rows, booked, t)
      modifies engine, engine.orderBooks.Values, engine.orders.Values
      ensures engine.Valid()
      ensures fresh(engine.orderBooks.Values - old(engine.orderBooks.Values))
      ensures snapshot == SymbolSnapshot(t.symbol, OfSymbol(old(engine.View()), t.symbol))
      ensures IsListing(listing, Opposing(old(LiveOf(engine.View())), t))
      ensures trades == Scan(t, t.quantity, listing).trades
      ensures engine.View() == AfterMatch(old(engine.View())[t.id := Record(t, t.quantity, New)], t.id, trades)
      ensures Ids(records) == Touched(engine.View(), t.id, trades)
      ensures forall r | r in records :: r.ticket.id in engine.View() && engine.View()[r.ticket.id] == r
    {
      hide IsListing, Scan, AfterMatch, LiveOf, StatusesFit, Mentioned, Agree, Ids, Touched, OfSymbol, RecordsOf,
        MatchingEngine.Consistent, MatchingEngine.View;
      snapshot := engine.SnapshotSymbol(t.symbol);
      var order := new Order(t, t.quantity, New);
      KnownIsBooked(t.id);
      ViewFits(t);
      var updated;
      trades, updated, listing := engine.ProcessOrder(order);
      records := RecordsOf(updated);
      RecordsAreTouched(order, trades, updated);
    }

    lemma KnownIsBooked(id: Id)
      requires Valid() && id !in booked
      ensures engine.Valid() && id !in engine.orders
    {
      engine.ViewIndexed();
    }

    lemma RecordsAreTouched(order: Order, trades: seq<Trade>, updated: seq<Order>)
      requires engine.Consistent() && order.ticket.id in engine.orders && engine.orders[order.ticket.id] == order
      requires forall o :: o in updated <==> o in engine.orders.Values && (o == order || Mentioned(trades, o.ticket.id))
      ensures Ids(RecordsOf(updated)) == Touched(engine.View(), order.ticket.id, trades)
      ensures forall r | r in RecordsOf(updated) :: r.ticket.id in engine.View() && engine.View()[r.ticket.id] == r
    {
      hide Mentioned;
      var records := RecordsOf(updated);
      forall r | r in records
        ensures r.ticket.id in engine.View() && engine.View()[r.ticket.id] == r
        ensures r.ticket.id in Touched(engine.View(), order.ticket.id, trades)
      {
        var i :| 0 <= i < |records| && records[i] == r;
        assert updated[i] in updated;
      }
      forall id | id in Touched(engine.View(), order.ticket.id, trades) ensures id in Ids(records) {
        var o := engine.orders[id];
        assert o in updated;
        var i :| 0 <= i < |updated| && updated[i] == o;
        assert records[i] in records;
      }
    }

    /** Puts the engine back to the snapshot taken before the match. */
    method Undo(snapshot: SymbolSnapshot, ghost view: View, t: Ticket, ghost listing: seq<Resting>)
      requires engine.Valid() && Indexed(view) && StatusesFit(view) && t.id !in view
      requires snapshot == SymbolSnapshot(t.symbol, OfSymbol(view, t.symbol))
      requires IsListing(listing, Opposing(LiveOf(view), t))
      requires engine.View()
               == AfterMatch(view[t.id := Record(t, t.quantity, New)], t.id, Scan(t, t.quantity, listing).trades)
      modifies engine, engine.orderBooks.Values
      ensures engine.Valid() && engine.View() == view
    {
      hide IsListing, Scan, AfterMatch, LiveOf, OfSymbol, NotOfSymbol;
      MatchStaysInSymbol(view, t, listing);
      SnapshotFits(view, t.symbol);
      engine.RestoreSymbol(snapshot);
    }

    /**
      `processCreateCommand`. A repeated command and every fault but one leave rows and memory as
      they were; a commit carries the match, and memory holds the same. The exception is a lost
      race: the rows are then the winner's, and memory was put back to before the match, so the
      two no longer agree.
    */
    method ProcessCreateCommand(command: Id, t: Ticket, fault: Fault, winner: Tables)
      returns (processed: bool, error: bool, ghost listing: seq<Resting>, ghost records: seq<Record>)
      requires Valid() && (command !in tables.processed ==> Queued(tables.rows, booked, t))
      requires fault.LostRace? && command !in tables.processed ==>
        CreateCommits(engine.View(), tables, command, t, winner)
      modifies this, engine, engine.orderBooks.Values, engine.orders.Values
      ensures engine.Valid()
      ensures Valid() <==> !(fault.LostRace? && command !in old(tables.processed))
      ensures processed <==> fault.NoFault? && command !in old(tables.processed)
      ensures error <==> fault.AtBegin? || fault.AtCheck? || fault.AtCommit?
                         || (command !in old(tables.processed) && (fault.AtPersist? || fault.AtMark?))
      ensures !error ==> command in tables.processed   // only a committed command is acknowledged
      ensures !processed ==> engine.View() == old(engine.View())
      ensures !processed && Valid() ==> tables == old(tables) && booked == old(booked)
      ensures !Valid() ==> tables == winner && booked == old(booked) + {t.id}
      ensures processed ==>
        && IsListing(listing, Opposing(old(LiveOf(engine.View())), t))
        && CreateCommitsWith(old(tables), command, t, listing, tables)
        && booked == old(booked) + {t.id}
        && var o := Scan(t, t.quantity, listing);
        && Ids(records) == Touched(engine.View(), t.id, o.trades)
        && (forall r | r in records :: r.ticket.id in tables.rows && r == tables.rows[r.ticket.id])
        && tables.outbox == old(tables.outbox) + TradeEvents(o.trades) + UpdateEvents(records)
        && LiveOf(engine.View()) == AfterScan(old(LiveOf(engine.View())), t, t.quantity, listing)
        && Step(old(LiveOf(engine.View())), Create(t), Matched(o.trades, o.remaining), LiveOf(engine.View()))
        && PriorityKept(old(LiveOf(engine.View())), t, o.trades)
        && OnRestingTerms(old(LiveOf(engine.View())), t, o.trades)
    {
      hide IsListing, Scan, AfterMatch, LiveOf, AfterScan, OfSymbol, StatusesFit, Agree, Ids, WithRecords,
        Restrict, Touched, Mentioned, Step, CreateCommits, PriorityKept, OnRestingTerms,
        MatchingEngine.Consistent, MatchingEngine.View;
      listing, records := [], [];
      if fault.AtBegin? || fault.AtCheck? { return false, true, listing, records; }
      var work := tables;
      if command in work.processed {
        return false, fault.AtCommit?, listing, records;
      }

      ghost var view := engine.View();
      ViewFits(t);
      var snapshot, trades, changed;
      snapshot, trades, changed, listing := MatchInMemory(t);

      if fault.AtPersist? {
        Undo(snapshot, view, t, listing);
        return false, true, listing, records;
      }
      work := PersistMatchResultsTx(work, trades, changed, engine.View());

      if fault.AtMark? {
        Undo(snapshot, view, t, listing);
        return false, true, listing, records;
      }
      if fault.LostRace? {
        LostCreateDisagrees(view, tables, booked, command, t, winner);
        WinnerMarks(view, tables, command, t, winner);
        Undo(snapshot, view, t, listing);
        tables, booked := winner, booked + {t.id};
        return false, false, listing, records;
      }
      work := work.(processed := work.processed + {command});

      if fault.AtCommit? {
        Undo(snapshot, view, t, listing);
        return false, true, listing, records;
      }
      CreateKeepsAgreement(view, tables.rows, booked, t, listing);
      MatchScansLive(view, t, listing);
      CreateSteps(view, t, listing);
      LiveOfWellFormed(view);
      ScanIsFair(LiveOf(view), t, t.quantity, listing);
      tables := work;
      booked := booked + {t.id};
      records := changed;
      RowsFollow(records);
      return true, false, listing, records;
    }

    lemma RowsFollow(records: seq<Record>)
      requires Agree(engine.View(), tables.rows, booked)
      requires forall r | r in records :: r.ticket.id in engine.View() && engine.View()[r.ticket.id] == r
      ensures forall r | r in records :: r.ticket.id in tables.rows && tables.rows[r.ticket.id] == r
    {
    }

    lemma ViewAgrees()
      requires Valid()
      ensures Indexed(engine.View()) && StatusesFit(engine.View()) && Agree(engine.View(), tables.rows, booked)
    {
    }

    lemma ViewFits(t: Ticket)
      requires Valid() && Queued(tables.rows, booked, t)
      ensures Indexed(engine.View()) && StatusesFit(engine.View()) && t.id !in engine.View() && t.quantity > 0
      ensures Agree(engine.View(), tables.rows, booked)
    {
    }

    /**
      `processCancelCommand`. Memory and rows agree after every outcome but one: the engine knew
      the order, it was open, and then the mark or the commit failed, which leaves the row open and
      memory cancelled, or another worker's cancel won, which leaves the row closed and memory open.
    */
    method ProcessCancelCommand(command: Id, id: Id, fault: Fault, winner: Tables)
      returns (processed: bool, error: bool)
      requires Valid()
      requires fault.LostRace? && command !in tables.processed ==> CancelCommits(tables, command, id, winner)
      modifies this, engine, engine.orders.Values
      ensures engine.Valid() && booked == old(booked)
      ensures processed <==> Striking(fault, old(tables), command, id).NoFault? && command !in old(tables.processed)
      ensures error <==> fault.AtBegin? || fault.AtCheck? || fault.AtCommit?
                         || (command !in old(tables.processed)
                             && (fault.AtMark? || (fault.AtPersist? && Closes(old(tables), command, id))
                                 || (fault.LostRace? && id !in old(tables.rows))))
      ensures !error ==> command in tables.processed
      ensures processed ==> CancelCommits(old(tables), command, id, tables)
      ensures processed && id in old(tables.rows) && old(tables.rows)[id].remaining > 0 ==>
        && id in tables.rows && tables.rows[id].remaining == 0 && tables.rows[id].status == Cancelled
        && tables.outbox == old(tables.outbox) + [OrderCancelled(tables.rows[id])]
      ensures processed ==>
        Step(old(LiveOf(engine.View())), Cancel(id), Removed(old(Remaining(engine.View(), id))), LiveOf(engine.View()))
      ensures !processed ==>
        tables == if fault.LostRace? && command !in old(tables.processed) then winner else old(tables)
      ensures Valid() <==>
        !(Closes(old(tables), command, id) && id in booked && (fault.AtMark? || fault.LostRace? || fault.AtCommit?))
    {
      hide LiveOf, StatusesFit, Agree, WithId, Step, AfterCancel, CancelCommits, MatchingEngine.Consistent,
        MatchingEngine.View, StatusFits;
      if fault.AtBegin? || fault.AtCheck? { return false, true; }
      if command in tables.processed {
        return false, fault.AtCommit?;
      }
      ghost var view, before := engine.View(), tables;
      ViewAgrees();
      CancelOutcomes(view, before, booked, command, id);
      if fault.LostRace? {
        // The row lock makes this worker wait for the winner's commit.
        LostCancel(view, before, booked, command, id, winner);
        tables := winner;
      }
      var work := tables;
      if id in work.rows {
        var row := work.rows[id];
        if !row.status.Filled? && !row.status.Cancelled? && row.remaining > 0 {
          CancelInMemory(id, fault.AtPersist?);
          if fault.AtPersist? { return false, true; }
          row := Record(row.ticket, 0, Cancelled);
          // PersistCancelledOrderTx
          work := work.(rows := UpdateRow(work.rows, row), outbox := work.outbox + [OrderCancelled(row)]);
        }
      }
      if fault.AtMark? || command in work.processed { return false, fault.AtMark? || id !in work.rows; }
      if fault.AtCommit? { return false, true; }
      tables := work.(processed := work.processed + {command});
      CancelIsCommit(before, command, id, tables);
      return true, false;
    }

    /**
      Cancels in memory, if the engine knows the order; `persistFails` means that the statements
      after it failed and the order is put back.
    */
    method CancelInMemory(id: Id, persistFails: bool)
      requires engine.Valid() && (id in engine.View() ==> engine.View()[id].remaining > 0)
      modifies engine.orders.Values
      ensures engine.Valid()
      ensures engine.View() == if id in old(engine.View()) && !persistFails then AfterCancel(old(engine.View()), id)
                               else old(engine.View())
    {
      hide MatchingEngine.Consistent, StatusFits;
      engine.ViewKeys();
      if id in engine.orders { LiveIsShelved(id); }
      var found, remaining, status := engine.CancelOrder(id);
      if persistFails && found {
        var restored := engine.RestoreOrder(id, remaining, status);
      }
    }

    lemma LiveIsShelved(id: Id)
      requires engine.Valid() && id in engine.View() && engine.View()[id].remaining > 0
      ensures id in engine.orders && engine.InBook(engine.orders[id]) && StatusFits(engine.View()[id])
    {
    }

    /** `LoadOpenOrders`, in whatever order the rows come. */
    method LoadOpenOrders() returns (open: seq<Record>)
      requires Indexed(tables.rows) && StatusesFit(tables.rows)
      ensures forall i, j | 0 <= i < j < |open| :: open[i].ticket.id != open[j].ticket.id
      ensures forall i | 0 <= i < |open| :: StatusFits(open[i])
      ensures ByIds(open) == OpenRows(tables.rows)
    {
      hide OpenRows, ByIds, Done, StatusFits;
      open := [];
      var pending := tables.rows.Keys;
      OpenNone(tables.rows);
      while pending != {}
        invariant pending <= tables.rows.Keys
        invariant forall i, j | 0 <= i < j < |open| :: open[i].ticket.id != open[j].ticket.id
        invariant forall i | 0 <= i < |open| ::
                    StatusFits(open[i]) && open[i].remaining > 0 && open[i].ticket.id !in pending
        invariant ByIds(open) == OpenRows(Done(tables.rows, pending))
        decreases pending
      {
        var id :| id in pending;
        assert pending - {id} + {id} == pending;
        pending := pending - {id};
        var row := tables.rows[id];
        OpenOneMore(tables.rows, pending, id, open);
        if row.remaining > 0 && (row.status.New? || row.status.PartiallyFilled?) {
          open := open + [row];
        }
      }
    }

    /**
      A restart: the book is rebuilt from the open rows. Memory then agrees with the rows exactly
      when no create command is in flight: the row of a queued order is loaded as if it were booked.
    */
    method Restart()
      requires Indexed(tables.rows) && StatusesFit(tables.rows) && booked <= tables.rows.Keys
      modifies engine
      ensures engine.Valid()
      ensures LiveOf(engine.View()) == LiveOf(tables.rows)
      ensures engine.View() == OpenRows(tables.rows)
      ensures Valid() <==> AllBooked(tables.rows, booked)
    {
      var open := LoadOpenOrders();
      var restored := engine.RestoreOrders(open);
      OpenRowsAgreeIff(tables.rows, booked);
    }
  }

  /** No open row waits for its create command. */
  ghost predicate AllBooked(rows: View, booked: set<Id>) {
    forall id | id in rows && rows[id].remaining > 0 :: id in booked
  }

  /** A scan of the engine's live orders is a step of the book. */
  lemma CreateSteps(view: View, t: Ticket, listing: seq<Resting>)
    requires Indexed(view) && t.id !in view && t.quantity > 0
    requires IsListing(listing, Opposing(LiveOf(view), t))
    ensures var o := Scan(t, t.quantity, listing);
      Step(LiveOf(view), Create(t), Matched(o.trades, o.remaining), AfterScan(LiveOf(view), t, t.quantity, listing))
  {
    hide IsListing, Scan, LiveOf, AfterScan;
    LiveOfWellFormed(view);
    var o := Scan(t, t.quantity, listing);
    var live' := AfterScan(LiveOf(view), t, t.quantity, listing);
    assert CreatesWith(LiveOf(view), t, listing, Matched(o.trades, o.remaining), live');
  }

  /** What a view says is left of an order. */
  function Remaining(view: View, id: Id): int {
    if id in view then view[id].remaining else 0
  }

  lemma RemovalSteps(view: View, id: Id)
    requires Indexed(view)
    ensures var live := LiveOf(view);
      && Step(live, Cancel(id), Removed(Remaining(view, id)), live - WithId(live, id))
      && (Remaining(view, id) == 0 ==> live - WithId(live, id) == live)
  {
    var live := LiveOf(view);
    if id in view && view[id].remaining > 0 {
      assert Resting(view[id].ticket, view[id].remaining) in WithId(live, id);
    }
  }

  /**
    A worker that loses the race for a create goes back to before the match, and the winner's
    match always shows in the rows: as the new order's remainder or as what it took from another.
  */
  lemma LostCreateDisagrees(view: View, before: Tables, booked: set<Id>, command: Id, t: Ticket, winner: Tables)
    requires Agree(view, before.rows, booked) && Queued(before.rows, booked, t)
    requires Indexed(view) && StatusesFit(view)
    requires CreateCommits(view, before, command, t, winner)
    ensures !Agree(view, winner.rows, booked + {t.id})
  {
    hide IsListing, Scan, Mentioned, FilledIn, LiveOf, StatusesFit, Indexed;
    var listing :| IsListing(listing, Opposing(LiveOf(view), t)) && CreateCommitsWith(before, command, t, listing, winner);
    var trades := Scan(t, t.quantity, listing).trades;
    if FilledIn(trades, t.id) != 0 {
      var k := FilledPartner(view, t, listing);
      assert winner.rows[k].remaining != view[k].remaining;
    } else {
      assert winner.rows[t.id].remaining > 0 && t.id !in view;
    }
  }

  lemma WinnerMarks(view: View, before: Tables, command: Id, t: Ticket, winner: Tables)
    requires CreateCommits(view, before, command, t, winner)
    ensures command in winner.processed
  {
  }

  /** A match that fills the incoming order takes something from an order of the book. */
  lemma FilledPartner(view: View, t: Ticket, listing: seq<Resting>) returns (k: Id)
    requires Indexed(view) && StatusesFit(view) && t.id !in view
    requires IsListing(listing, Opposing(LiveOf(view), t))
    requires FilledIn(Scan(t, t.quantity, listing).trades, t.id) != 0
    ensures k in view && k != t.id && view[k].remaining > 0 && !view[k].status.Cancelled?
    ensures Mentioned(Scan(t, t.quantity, listing).trades, k) && FilledIn(Scan(t, t.quantity, listing).trades, k) > 0
  {
    var trades := Scan(t, t.quantity, listing).trades;
    LiveOfWellFormed(view);
    ListingIsQueue(LiveOf(view), t, listing);
    ScanFillsInOrder(t, t.quantity, listing);
    assert trades != [];
    k := listing[0].ticket.id;
    assert listing[0] in listing && trades[0] in trades && Names(trades[0], k);
    LiveRecord(view, listing[0]);
    NoFillNoTrade(trades, k);
  }

  /** What each outcome of a cancel means for the agreement and for the live orders. */
  lemma CancelOutcomes(view: View, before: Tables, booked: set<Id>, command: Id, id: Id)
    requires Agree(view, before.rows, booked) && Indexed(view) && StatusesFit(view) && command !in before.processed
    ensures Closes(before, command, id) <==> id in before.rows && before.rows[id].remaining > 0
    ensures Closes(before, command, id) ==> (id in view <==> id in booked) && before.rows[id].ticket.id == id
    ensures id in view ==> id in before.rows && view[id] == before.rows[id] && view[id].remaining >= 0
    ensures Closes(before, command, id) && id in view ==>
      && view[id].remaining > 0
      && Agree(AfterCancel(view, id), AfterCancel(before.rows, id), booked)
      && !Agree(AfterCancel(view, id), before.rows, booked)
      && LiveOf(AfterCancel(view, id)) == LiveOf(view) - WithId(LiveOf(view), id)
    ensures Closes(before, command, id) && id !in view ==> Agree(view, AfterCancel(before.rows, id), booked)
    ensures Step(LiveOf(view), Cancel(id), Removed(Remaining(view, id)), LiveOf(view) - WithId(LiveOf(view), id))
    ensures Remaining(view, id) == 0 ==> LiveOf(view) - WithId(LiveOf(view), id) == LiveOf(view)
  {
    hide LiveOf, Step, WithId;
    RemovalSteps(view, id);
    if id in before.rows { CancelRemovesLive(before.rows, id); }
    if id in view {
      CancelRemovesLive(view, id);
      assert AfterCancel(view, id)[id] == Record(view[id].ticket, 0, Cancelled);
    }
  }

  /** A cancel that another worker won closes the row and leaves this memory alone. */
  lemma LostCancel(view: View, before: Tables, booked: set<Id>, command: Id, id: Id, winner: Tables)
    requires Agree(view, before.rows, booked) && Indexed(view) && StatusesFit(view) && command !in before.processed
    requires CancelCommits(before, command, id, winner)
    ensures Agree(view, winner.rows, booked) <==> !(Closes(before, command, id) && id in booked)
    ensures command in winner.processed
    ensures id in winner.rows ==> winner.rows[id].remaining <= 0
    ensures id in winner.rows <==> id in before.rows
  {
    hide LiveOf, WithId, Step;
    CancelOutcomes(view, before, booked, command, id);
    if Closes(before, command, id) && id in view { assert winner.rows[id] != view[id]; }
  }

  /** What the statements of a cancel leave is the committed cancel. */
  lemma CancelIsCommit(before: Tables, command: Id, id: Id, after: Tables)
    requires command !in before.processed && (Closes(before, command, id) ==> before.rows[id].ticket.id == id)
    requires after == (if Closes(before, command, id) then
        var row := Record(before.rows[id].ticket, 0, Cancelled);
        before.(rows := UpdateRow(before.rows, row), outbox := before.outbox + [OrderCancelled(row)])
      else before).(processed := before.processed + {command})
    ensures CancelCommits(before, command, id, after)
    ensures after.rows == if Closes(before, command, id) then AfterCancel(before.rows, id) else before.rows
  {
  }

  /** The command is new and its order is open. */
  predicate Closes(tables: Tables, command: Id, id: Id) {
    && command !in tables.processed
    && id in tables.rows
    && tables.rows[id].remaining > 0
    && !tables.rows[id].status.Filled? && !tables.rows[id].status.Cancelled?
  }

  /** A persist fault can only strike when there is an order to persist. */
  function Striking(fault: Fault, tables: Tables, command: Id, id: Id): Fault {
    if fault.AtPersist? && !Closes(tables, command, id) then NoFault else fault
  }

  function OpenRows(rows: View): View {
    map id | id in rows && rows[id].remaining > 0 && (rows[id].status.New? || rows[id].status.PartiallyFilled?) ::
      rows[id]
  }

  lemma OpenNone(rows: View)
    ensures OpenRows(Done(rows, rows.Keys)) == ByIds([])
    ensures OpenRows(Done(rows, {})) == OpenRows(rows)
  {
    assert Done(rows, {}) == rows;
  }

  lemma OpenOneMore(rows: View, pending: set<Id>, id: Id, open: seq<Record>)
    requires id in rows && id !in pending && rows[id].ticket.id == id
    requires ByIds(open) == OpenRows(Done(rows, pending + {id}))
    ensures var r := rows[id];
      OpenRows(Done(rows, pending))
      == if r.remaining > 0 && (r.status.New? || r.status.PartiallyFilled?) then ByIds(open + [r]) else ByIds(open)
  {
    assert (open + [rows[id]])[..|open|] == open;
  }

  lemma OpenRowsAgreeIff(rows: View, booked: set<Id>)
    requires Indexed(rows) && StatusesFit(rows) && booked <= rows.Keys
    ensures Agree(OpenRows(rows), rows, booked) <==> AllBooked(rows, booked)
    ensures LiveOf(OpenRows(rows)) == LiveOf(rows)
  {
    forall x ensures x in LiveOf(OpenRows(rows)) <==> x in LiveOf(rows) {
      LiveRecord(rows, x);
      LiveRecord(OpenRows(rows), x);
    }
    if id :| id in rows && rows[id].remaining > 0 && id !in booked {
      assert id in OpenRows(rows).Keys;
    }
  }

  /** Agreement with no queued rows means equal live sets. */
  lemma AgreeingLive(view: View, rows: View, booked: set<Id>)
    requires Agree(view, rows, booked) && Indexed(view) && AllBooked(rows, booked)
    ensures LiveOf(view) == LiveOf(rows)
  {
    forall x ensures x in LiveOf(view) <==> x in LiveOf(rows) {
      LiveRecord(rows, x);
      LiveRecord(view, x);
    }
  }

  /**
    A crash is invisible: the engine rebuilt from the open rows answers every later sequence of
    commands exactly as the engine that never stopped, if no create command was in flight and no
    two orders tie.
  */
  lemma CrashInvisible(view: View, rows: View, booked: set<Id>,
                       a: seq<Live>, b: seq<Live>, commands: seq<Command>, ra: seq<Response>, rb: seq<Response>)
    requires Agree(view, rows, booked) && Indexed(view) && AllBooked(rows, booked)
    requires Run(a, commands, ra) && a[0] == LiveOf(view)
    requires Run(b, commands, rb) && b[0] == LiveOf(OpenRows(rows))
    requires UniqueKeys(TicketsOf(LiveOf(rows)) + Submitted(commands))
    ensures ra == rb && a == b
  {
    AgreeingLive(view, rows, booked);
    OpenRowsAgreeIff(rows, booked);
    LiveOfWellFormed(view);
    SameBookSameFuture(a, b, commands, ra, rb);
  }
}
