/**
  Creating an order crosses two services: the portfolio service reserves, the order service
  inserts the row with its create command, and a failed insert is compensated by a release.
*/
module OrderService {
  import opened Model
  import opened Money
  import opened Totals
  import opened Ledgers
  import opened Portfolio
  import opened Exchange
  import opened Invariants
  import opened Terms

  /** A call to the portfolio service: answered, done but the answer was lost, or never delivered. */
  datatype Call = Answered(fault: Fault) | AnswerLost(fault: Fault) | NotDelivered

  /** How the world treats one request to create an order. */
  datatype World = World(allowed: bool, reserve: Call, inserts: bool, release: Call)

  /** The portfolio service got the call and its commit succeeded. */
  predicate Lands(call: Call) {
    !call.NotDelivered? && !call.fault.AtCommit?
  }

  /**
    The one way to lose track of a reservation that was made: nobody will release it, because the
    answer was lost, or because neither the insert nor the release that should undo it went through.
  */
  predicate Orphans(w: World) {
    w.reserve.AnswerLost? || (!w.inserts && !Lands(w.release))
  }

  /** `callPortfolioReservation` for /reserve. */
  method Reserve(store: Store, r: Request, call: Call) returns (ok: bool)
    modifies store
    ensures store.rows == old(store.rows) && store.processed == old(store.processed)
    ensures ok <==> call.Answered? && Lands(call) && ReserveFunds(old(store.Db()), r).Applied?
    ensures store.Db() == if Lands(call) && ReserveFunds(old(store.Db()), r).Applied?
                          then ReserveFunds(old(store.Db()), r).ledger else old(store.Db())
  {
    if call.NotDelivered? { return false; }
    ok := store.ReserveHandler(r, call.fault);
    ok := ok && call.Answered?;
  }

  /** `rollbackReservation`: /release for an order that has no row. */
  method Release(store: Store, id: Id, r: Request, call: Call)
    requires id !in store.rows
    modifies store
    ensures store.rows == old(store.rows) && store.processed == old(store.processed)
    ensures store.Db() == if Lands(call) && ReleaseFunds(old(store.Db()), r).Applied?
                          then ReleaseFunds(old(store.Db()), r).ledger else old(store.Db())
  {
    if call.NotDelivered? { return; }
    var released := store.ReleaseHandler(id, r, call.fault);
  }

  /** A reservation and its compensation cancel out, account by account. */
  lemma CompensateUndoesReserve(s: State, s': State, t: Ticket)
    requires ReserveStep(s, s', t) && (forall k :: ReservedAt(s.l, k) >= 0)
    ensures CompensateStep(s', s, t.id)
  {
    var k := KeyOf(t);
    AmountPositive(t);
    assert ReservedAt(s.l, k) >= 0;
    assert s'.inflight - {t.id} == s.inflight;
    if t.side.Buy? {
      assert s'.l.users[t.user := At(s.l, k)] == s.l.users;
    } else {
      assert s'.l.positions[(t.user, t.symbol) := At(s.l, k)] == s.l.positions;
    }
  }

  /**
    `createOrderHandler`. It accepts exactly when the exchange can reserve for the order and the
    world lets it validate, answer and insert; an accepted order is that reservation and its row.
    A rejected one leaves everything as it was, except exactly when the reservation was made and
    `Orphans` says that nobody undoes it: then it stays without a row.
  */
  method CreateOrder(store: Store, t: Ticket, w: World, ghost s: State) returns (accepted: bool, ghost s': State)
    requires s.l == store.Db() && (forall k :: ReservedAt(s.l, k) >= 0)
    requires t.id !in s.l.rows && t.id !in s.inflight
    requires forall p | p in s.l.positions :: p.0 in s.l.users
    modifies store
    ensures s'.l == store.Db() && store.processed == old(store.processed)
    ensures accepted <==>
      && t.symbol != "" && CanReserve(s, t) && w.allowed
      && w.reserve.Answered? && !w.reserve.fault.AtCommit? && w.inserts
    ensures accepted ==> exists reserved :: ReserveStep(s, reserved, t) && InsertStep(reserved, s', t.id)
    ensures !accepted ==> s' == s || ReserveStep(s, s', t)
    ensures !accepted ==>
      (s' != s <==> t.symbol != "" && CanReserve(s, t) && w.allowed && Lands(w.reserve) && Orphans(w))
  {
    hide ReserveFunds, ReleaseFunds, CostFor, CanReserve;
    s' := s;
    ReservesIff(s, t);
    if t.symbol == "" || t.quantity <= 0 || t.price <= 0 { return false, s'; }
    var amount := ReserveFor(t, t.quantity);
    if amount.Err? || !w.allowed { return false, s'; }

    var request := RequestFor(t, amount.value);
    var ok := Reserve(store, request, w.reserve);
    if Lands(w.reserve) && ReserveFunds(s.l, request).Applied? { s' := AfterReserve(s, t); }
    if !ok { return false, s'; }

    ghost var reserved := s';
    if !w.inserts {
      CompensateUndoesReserve(s, reserved, t);
      Release(store, t.id, request, w.release);
      if Lands(w.release) { s' := s; }
      return false, s';
    }
    store.rows := store.rows[t.id := Row(t, t.quantity, New, amount.value)];
    s' := reserved.(l := store.Db(), inflight := reserved.inflight - {t.id});
    assert InsertStep(reserved, s', t.id);
    return true, s';
  }

  /** The handler's and the portfolio's checks together are the exchange's. */
  lemma ReservesIff(s: State, t: Ticket)
    requires t.id !in s.l.rows && t.id !in s.inflight
    requires forall p | p in s.l.positions :: p.0 in s.l.users
    ensures CanReserve(s, t) <==>
      && t.price > 0 && t.quantity > 0 && ReserveFor(t, t.quantity).Ok?
      && ReserveFunds(s.l, RequestFor(t, ReserveFor(t, t.quantity).value)).Applied?
  {
    hide CostFor;
    if t.price > 0 && t.quantity > 0 && ReserveFor(t, t.quantity).Ok?
       && ReserveFunds(s.l, RequestFor(t, ReserveFor(t, t.quantity).value)).Applied? {
      assert ReserveStep(s, AfterReserve(s, t), t);
    }
  }

  ghost function AfterReserve(s: State, t: Ticket): (s': State)
    requires t.price > 0 && t.quantity > 0 && ReserveFor(t, t.quantity).Ok?
    requires t.id !in s.l.rows && t.id !in s.inflight
    requires forall p | p in s.l.positions :: p.0 in s.l.users
    requires ReserveFunds(s.l, RequestFor(t, ReserveFor(t, t.quantity).value)).Applied?
    ensures ReserveStep(s, s', t) && s' != s
  {
    var amount := ReserveFor(t, t.quantity).value;
    var s' := s.(l := ReserveFunds(s.l, RequestFor(t, amount)).ledger, inflight := s.inflight[t.id := Pending(t, amount)]);
    assert t.id in s'.inflight;
    s'
  }
}
