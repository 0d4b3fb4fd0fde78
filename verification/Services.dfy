/**
  The matching engine takes the exchange's steps: a committed create command is a match of the
  exchange and a committed cancel is a cancel of it, with the same rows.
*/
module Services {
  import opened Model
  import opened Matching
  import opened Book
  import opened Records
  import opened Exchange
  import opened Invariants
  import opened Payment
  import opened Guarantees
  import C = Consumer

  /** The exchange's rows and booked orders are those of the consumer. */
  ghost predicate Mirrors(s: State, rows: View, booked: set<Id>) {
    Exchange.RecordsOf(s.l.rows) == rows && s.booked == booked
  }

  lemma {:induction false} FreshTrades(s: State, n: nat) returns (tids: seq<Id>)
    ensures |tids| == n && FreshIds(s, tids)
  {
    var first := AnotherId(s.unsettled.Keys);
    tids := seq(n, i => first + i);
    forall i | 0 <= i < n ensures tids[i] !in s.unsettled {
      assert tids[i] == first + i;
    }
  }

  /** Memory that agrees with the rows has the exchange's live orders. */
  lemma SameBook(s: State, view: View, rows: View, booked: set<Id>)
    requires Mirrors(s, rows, booked) && C.Agree(view, rows, booked) && Indexed(view)
    ensures LiveOf(view) == LiveOf(BookView(s))
  {
    var book := BookView(s);
    assert forall id | id in book :: id in rows && book[id] == rows[id];
    assert Indexed(book);
    forall x ensures x in LiveOf(view) <==> x in LiveOf(book) {
      LiveRecord(view, x);
      LiveRecord(book, x);
    }
  }

  /** The match that the engine commits is one the exchange can make, with the same rows. */
  lemma MatchFollows(s: State, view: View, rows: View, booked: set<Id>, t: Ticket, listing: seq<Resting>)
    returns (s': State, tids: seq<Id>)
    requires Invariant(s) && Mirrors(s, rows, booked)
    requires C.Agree(view, rows, booked) && Indexed(view) && C.Queued(rows, booked, t)
    requires IsListing(listing, Opposing(LiveOf(view), t))
    ensures MatchStep(s, s', t.id, listing, tids)
    ensures Mirrors(s', AfterMatch(rows, t.id, Scan(t, t.quantity, listing).trades), booked + {t.id})
  {
    hide Invariant, IsListing, Scan, AfterMatch, LiveOf, C.Agree, FillAll, BookView;
    SameBook(s, view, rows, booked);
    assert t.id in Exchange.RecordsOf(s.l.rows) && s.l.rows[t.id].ticket == t;
    var trades := Scan(t, t.quantity, listing).trades;
    tids := FreshTrades(s, |trades|);
    s' := FillAll(s.(booked := s.booked + {t.id}), tids, trades);
    MatchWritesRows(s, s', t.id, listing, tids);
    FillBooks(s.(booked := s.booked + {t.id}), tids, trades);
  }

  lemma {:induction false} FillBooks(s: State, tids: seq<Id>, trades: seq<Trade>)
    requires |tids| == |trades|
    ensures FillAll(s, tids, trades).booked == s.booked
    decreases |trades|
  {
    if trades != [] { FillBooks(Fill(s, tids[0], trades[0]), tids[1..], trades[1..]); }
  }

  /** `processCreateCommand` is a match of the exchange, or no step. */
  method CreateIsMatch(consumer: C.MatchingConsumer, command: Id, t: Ticket, fault: C.Fault, winner: C.Tables,
                       ghost s: State)
    returns (processed: bool, ghost s': State, ghost listing: seq<Resting>, ghost tids: seq<Id>)
    requires consumer.Valid() && Invariant(s) && Mirrors(s, consumer.tables.rows, consumer.booked)
    requires command !in consumer.tables.processed ==> C.Queued(consumer.tables.rows, consumer.booked, t)
    requires fault.LostRace? && command !in consumer.tables.processed ==>
      C.CreateCommits(consumer.engine.View(), consumer.tables, command, t, winner)
    modifies consumer, consumer.engine, consumer.engine.orderBooks.Values, consumer.engine.orders.Values
    ensures Mirrors(s', consumer.tables.rows, consumer.booked)
    ensures command in consumer.tables.processed && command !in old(consumer.tables.processed) ==>
      MatchStep(s, s', t.id, listing, tids)
      && consumer.tables.trades == old(consumer.tables.trades) + Scan(t, t.quantity, listing).trades
    ensures command !in consumer.tables.processed || command in old(consumer.tables.processed) ==> s' == s
  {
    hide Invariant, Mirrors, IsListing, Scan, LiveOf, MatchStep, C.Agree, C.Queued, C.CreateCommits,
      C.MatchingConsumer.Valid;
    ghost var view, before, booked := consumer.engine.View(), consumer.tables, consumer.booked;
    ConsumerAgrees(consumer);
    var error;
    ghost var records;
    processed, error, listing, records := consumer.ProcessCreateCommand(command, t, fault, winner);
    s', tids := s, [];
    if processed {
      s', tids := MatchFollows(s, view, before.rows, booked, t, listing);
    } else if fault.LostRace? && command !in before.processed {
      listing := WinnersListing(view, before, command, t, winner);
      s', tids := MatchFollows(s, view, before.rows, booked, t, listing);
    }
  }

  lemma ConsumerAgrees(consumer: C.MatchingConsumer)
    requires consumer.Valid()
    ensures C.Agree(consumer.engine.View(), consumer.tables.rows, consumer.booked) && Indexed(consumer.engine.View())
  {
    consumer.ViewAgrees();
  }

  lemma WinnersListing(view: View, before: C.Tables, command: Id, t: Ticket, winner: C.Tables)
    returns (listing: seq<Resting>)
    requires C.CreateCommits(view, before, command, t, winner)
    ensures IsListing(listing, Opposing(LiveOf(view), t)) && C.CreateCommitsWith(before, command, t, listing, winner)
  {
    listing :| IsListing(listing, Opposing(LiveOf(view), t)) && C.CreateCommitsWith(before, command, t, listing, winner);
  }

  /** The cancel that the engine commits is one the exchange can make, with the same rows. */
  lemma CancelFollows(s: State, rows: View, booked: set<Id>, id: Id) returns (s': State, event: Id)
    requires Mirrors(s, rows, booked) && id in rows && id in booked && rows[id].remaining > 0
    ensures CancelStep(s, s', id, event) && Mirrors(s', AfterCancel(rows, id), booked)
  {
    event := AnotherId(s.cancels.Keys);
    assert id in Exchange.RecordsOf(s.l.rows);
    s' := s.(l := s.l.(rows := s.l.rows[id := s.l.rows[id].(remaining := 0, status := Cancelled)]),
             cancels := s.cancels[event := id]);
  }

  /** `processCancelCommand` of an order whose create was processed is a cancel of the exchange, or no step. */
  method CancelIsCancel(consumer: C.MatchingConsumer, command: Id, id: Id, fault: C.Fault, winner: C.Tables,
                        ghost s: State)
    returns (processed: bool, ghost s': State, ghost event: Id)
    requires consumer.Valid() && Invariant(s) && Mirrors(s, consumer.tables.rows, consumer.booked)
    requires id in consumer.tables.rows ==> id in consumer.booked
    requires fault.LostRace? && command !in consumer.tables.processed ==>
      C.CancelCommits(consumer.tables, command, id, winner)
    modifies consumer, consumer.engine, consumer.engine.orders.Values
    ensures Mirrors(s', consumer.tables.rows, consumer.booked)
    ensures command in consumer.tables.processed && C.Closes(old(consumer.tables), command, id) ==>
      CancelStep(s, s', id, event)
    ensures command !in consumer.tables.processed || !C.Closes(old(consumer.tables), command, id) ==> s' == s
  {
    hide Invariant, Mirrors, CancelStep, AfterCancel, C.MatchingConsumer.Valid;
    ghost var before := consumer.tables;
    var error;
    processed, error := consumer.ProcessCancelCommand(command, id, fault, winner);
    s', event := s, 0;
    if command in consumer.tables.processed && C.Closes(before, command, id) {
      s', event := CancelFollows(s, before.rows, consumer.booked, id);
    }
  }
}
