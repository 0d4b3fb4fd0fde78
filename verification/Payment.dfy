/** When does a reservation keep every fill payable, and when does the ledger refuse a fill? */
module Payment {
  import opened Model
  import opened Matching
  import opened Records
  import opened Money
  import opened Totals
  import opened Ledgers
  import opened Exchange
  import opened Invariants
  import opened Solvency

  /** What the account has reserved covers everything it may have to pay. */
  ghost predicate Covered(s: State, k: Key) {
    SCALE * ReservedAt(s.l, k) >= Owed(s, k)
  }

  lemma ReservedNonNegative(s: State, k: Key)
    requires Invariant(s)
    ensures ReservedAt(s.l, k) >= 0
  {
    assert AgreesAt(s, k);
    TotalNonNegative(ReservedBy(s.l.rows, k));
    TotalNonNegative(InflightBy(s.inflight, k));
  }

  /** There is always another id. */
  lemma {:induction false} AnotherId(ids: set<Id>) returns (id: Id)
    ensures forall i | i in ids :: i < id
    decreases |ids|
  {
    if ids == {} {
      id := 0;
    } else {
      var one :| one in ids;
      var bound := AnotherId(ids - {one});
      id := if one < bound then bound else one + 1;
      assert forall i | i in ids :: i == one || i in ids - {one};
    }
  }

  /** An order that asks for exactly `amount` from account `k`. */
  function Asking(k: Key, id: Id, amount: int): Ticket {
    match k
    case Cash(u) => Ticket(id, u, "X", Buy, SCALE, amount, 0)
    case Units(u, symbol) => Ticket(id, u, symbol, Sell, 1, amount, 0)
  }

  /**
    The check of /reserve compares what is held with what is reserved. It keeps the account able
    to pay if and only if the account is covered, or nothing is left to ask for.
  */
  lemma ReserveSafeIff(s: State, k: Key)
    requires Invariant(s) && Has(s.l, k) && k.user in s.l.users && IsInt64(HeldAt(s.l, k))
    ensures (forall t, s' | ReserveStep(s, s', t) && KeyOf(t) == k :: Margin(s', k) >= 0)
            <==> Covered(s, k) || HeldAt(s.l, k) <= ReservedAt(s.l, k)
  {
    forall t, s' | ReserveStep(s, s', t) && KeyOf(t) == k
      ensures Covered(s, k) || HeldAt(s.l, k) <= ReservedAt(s.l, k) ==> Margin(s', k) >= 0
    {
      ReserveAdmits(s, s', t);
      ReserveMargin(s, s', t, k);
    }
    if !Covered(s, k) && HeldAt(s.l, k) > ReservedAt(s.l, k) {
      var t, s' := GreedyReserve(s, k);
      ReserveMargin(s, s', t, k);
    }
  }

  lemma ReserveAdmits(s: State, s': State, t: Ticket)
    requires ReserveStep(s, s', t)
    ensures var k := KeyOf(t);
      0 < ReserveFor(t, t.quantity).value <= HeldAt(s.l, k) - ReservedAt(s.l, k)
  {
    AmountPositive(t);
  }

  /** Someone may reserve everything that is available. */
  lemma GreedyReserve(s: State, k: Key) returns (t: Ticket, s': State)
    requires Invariant(s) && Has(s.l, k) && k.user in s.l.users
    requires IsInt64(HeldAt(s.l, k)) && HeldAt(s.l, k) > ReservedAt(s.l, k)
    ensures KeyOf(t) == k && ReserveStep(s, s', t)
    ensures ReserveFor(t, t.quantity) == Ok(HeldAt(s.l, k) - ReservedAt(s.l, k))
  {
    hide Invariant;
    ReservedNonNegative(s, k);
    var amount := HeldAt(s.l, k) - ReservedAt(s.l, k);
    var id := AnotherId(s.l.rows.Keys + s.inflight.Keys);
    t := Asking(k, id, amount);
    CostForIsExact(SCALE, amount, amount);
    assert ReserveFor(t, t.quantity) == Ok(amount);
    s' := s.(l := ReserveFunds(s.l, RequestFor(t, amount)).ledger, inflight := s.inflight[t.id := Pending(t, amount)]);
  }

  // ---------------------------------------------------------------- covering order by order

  /** What the fills of order `id` that wait for settlement will cost it. */
  function FillWorth(t: Trade, id: Id): int {
    if id == t.buyOrder then t.price * t.quantity else if id == t.sellOrder then SCALE * t.quantity else 0
  }

  function FillsBy(unsettled: map<Id, Trade>, id: Id): map<Id, int> {
    map tid | tid in unsettled :: FillWorth(unsettled[tid], id)
  }

  ghost predicate OrderCovered(s: State, id: Id)
    requires id in s.l.rows
  {
    var row := s.l.rows[id];
    SCALE * row.reserved >= Worth(row.ticket, row.remaining) + Total(FillsBy(s.unsettled, id))
  }

  ghost function Needs(rows: map<Id, Row>, unsettled: map<Id, Trade>, k: Key): map<Id, int> {
    map id | id in rows ::
      Share(rows[id].ticket, k, Worth(rows[id].ticket, rows[id].remaining) + Total(FillsBy(unsettled, id)))
  }

  function Single(rows: map<Id, Row>, t: Trade, k: Key): map<Id, int> {
    map id | id in rows :: Share(rows[id].ticket, k, FillWorth(t, id))
  }

  /** A trade takes from an account what it takes from that account's order. */
  lemma SingleIsPays(rows: map<Id, Row>, booked: set<Id>, t: Trade, k: Key)
    requires TradeFits(rows, booked, t)
    ensures Total(Single(rows, t, k)) == Pays(t, k)
  {
    var zero: map<Id, int> := map id | id in rows :: 0;
    var b := Share(rows[t.buyOrder].ticket, k, t.price * t.quantity);
    var o := Share(rows[t.sellOrder].ticket, k, SCALE * t.quantity);
    TotalZero(zero);
    TotalUpdate(zero, t.buyOrder, b);
    TotalUpdate(zero[t.buyOrder := b], t.sellOrder, o);
    assert Single(rows, t, k) == zero[t.buyOrder := b][t.sellOrder := o];
  }

  lemma NeedsNone(rows: map<Id, Row>, k: Key)
    ensures Total(Needs(rows, map[], k)) == Total(WorthBy(rows, k)) && Total(PaysBy(map[], k)) == 0
  {
    hide Worth;
    forall id | id in rows ensures Total(FillsBy(map[], id)) == 0 {
      assert FillsBy(map[], id) == map[];
    }
    assert Needs(rows, map[], k) == WorthBy(rows, k);
    assert PaysBy(map[], k) == map[];
  }

  lemma NeedsOneMore(rows: map<Id, Row>, unsettled: map<Id, Trade>, tid: Id, k: Key)
    requires tid in unsettled
    ensures Total(Needs(rows, unsettled, k))
            == Total(Needs(rows, unsettled - {tid}, k)) + Total(Single(rows, unsettled[tid], k))
  {
    hide FillsBy, Needs, Single, Total;
    var fewer := unsettled - {tid};
    var less, one, more := Needs(rows, fewer, k), Single(rows, unsettled[tid], k), Needs(rows, unsettled, k);
    NeedKeys(rows, unsettled, tid, k);
    forall id | id in rows ensures more[id] == less[id] + one[id] {
      NeedOneMore(rows, unsettled, tid, k, id);
    }
    TotalAdds(less, one, more);
  }

  lemma NeedKeys(rows: map<Id, Row>, unsettled: map<Id, Trade>, tid: Id, k: Key)
    requires tid in unsettled
    ensures Needs(rows, unsettled - {tid}, k).Keys == Single(rows, unsettled[tid], k).Keys
            == Needs(rows, unsettled, k).Keys == rows.Keys
  {
  }

  lemma NeedOneMore(rows: map<Id, Row>, unsettled: map<Id, Trade>, tid: Id, k: Key, id: Id)
    requires tid in unsettled && id in rows
    ensures Needs(rows, unsettled, k)[id] == Needs(rows, unsettled - {tid}, k)[id] + Single(rows, unsettled[tid], k)[id]
  {
    hide Worth, FillWorth, KeyOf, Total;
    TotalRemove(FillsBy(unsettled, id), tid);
    assert FillsBy(unsettled, id) - {tid} == FillsBy(unsettled - {tid}, id);
  }

  /** Summed by order or by account, the waiting fills are the same. */
  lemma {:induction false} NeedsSplit(rows: map<Id, Row>, booked: set<Id>, unsettled: map<Id, Trade>, k: Key)
    requires forall tid | tid in unsettled :: TradeFits(rows, booked, unsettled[tid])
    ensures Total(Needs(rows, unsettled, k)) == Total(WorthBy(rows, k)) + Total(PaysBy(unsettled, k))
    decreases |unsettled|
  {
    hide TradeFits, Worth, Needs, Single, Pays, PaysBy, WorthBy;
    if unsettled == map[] {
      NeedsNone(rows, k);
    } else {
      var tid :| tid in unsettled;
      NeedsSplit(rows, booked, unsettled - {tid}, k);
      NeedsOneMore(rows, unsettled, tid, k);
      SingleIsPays(rows, booked, unsettled[tid], k);
      PaysShare(unsettled, tid, unsettled[tid], k);
    }
  }

  lemma {:induction false} TotalScale(m: map<Id, int>, scaled: map<Id, int>)
    requires m.Keys == scaled.Keys && forall id | id in m :: scaled[id] == SCALE * m[id]
    ensures Total(scaled) == SCALE * Total(m)
    decreases |m|
  {
    if m == map[] {
      assert scaled == map[];
    } else {
      var id :| id in m;
      TakeOut(m, id);
      TakeOut(scaled, id);
      TotalScale(m - {id}, scaled - {id});
    }
  }

  /** If every order's reservation covers its own waiting fills, the account is covered. */
  lemma OrdersCoverAccount(s: State, k: Key)
    requires Invariant(s)
    requires forall id | id in s.l.rows && KeyOf(s.l.rows[id].ticket) == k :: OrderCovered(s, id)
    ensures Covered(s, k)
  {
    hide Worth, Shape, NotStranded, OrderCovered, Needs, ReservedBy, InflightBy, FillsBy;
    var rows := s.l.rows;
    var scaled := map id | id in rows :: SCALE * Share(rows[id].ticket, k, rows[id].reserved);
    ScaledReserved(rows, k, scaled);
    NeedsWithin(s, k, scaled);
    AllTradesFit(s);
    NeedsSplit(rows, s.booked, s.unsettled, k);
    assert AgreesAt(s, k);
  }

  lemma ScaledReserved(rows: map<Id, Row>, k: Key, scaled: map<Id, int>)
    requires scaled == map id | id in rows :: SCALE * Share(rows[id].ticket, k, rows[id].reserved)
    ensures Total(scaled) == SCALE * Total(ReservedBy(rows, k))
  {
    TotalScale(ReservedBy(rows, k), scaled);
  }

  lemma NeedsWithin(s: State, k: Key, scaled: map<Id, int>)
    requires forall id | id in s.l.rows && KeyOf(s.l.rows[id].ticket) == k :: OrderCovered(s, id)
    requires scaled == map id | id in s.l.rows :: SCALE * Share(s.l.rows[id].ticket, k, s.l.rows[id].reserved)
    ensures Total(Needs(s.l.rows, s.unsettled, k)) <= Total(scaled)
  {
    hide Worth, FillsBy;
    TotalMonotone(Needs(s.l.rows, s.unsettled, k), scaled);
  }

  lemma AllTradesFit(s: State)
    requires Shape(s)
    ensures forall tid | tid in s.unsettled :: TradeFits(s.l.rows, s.booked, s.unsettled[tid])
  {
  }

  /**
    Settling one fill re-reads what remains of the order, so it frees the reservation of every
    other waiting fill as well: an order that holds exactly what its remainder needs is covered
    if and only if none of its fills is waiting.
  */
  lemma ExactIsCoveredIff(s: State, id: Id)
    requires Invariant(s) && id in s.l.rows && Exact(s.l, id)
    ensures OrderCovered(s, id) <==> forall tid | tid in s.unsettled :: !Names(s.unsettled[tid], id)
  {
    hide Worth, RowFits;
    var fills := FillsBy(s.unsettled, id);
    forall tid | tid in s.unsettled ensures fills[tid] >= 0 && (Names(s.unsettled[tid], id) <==> fills[tid] > 0) {
      PositiveTrade(s, tid);
    }
    if tid :| tid in s.unsettled && Names(s.unsettled[tid], id) {
      TotalBounds(fills, tid);
    } else {
      TotalZero(fills);
    }
  }

  lemma PositiveTrade(s: State, tid: Id)
    requires Invariant(s) && tid in s.unsettled
    ensures var t := s.unsettled[tid]; t.quantity > 0 && t.price > 0 && t.price * t.quantity > 0
  {
    hide Invariant;
    TradeOrders(s, tid);
    TradePrice(s, tid);
    ProductPositive(s.unsettled[tid].price, s.unsettled[tid].quantity);
  }

  lemma TradePrice(s: State, tid: Id)
    requires Invariant(s) && tid in s.unsettled
    ensures s.unsettled[tid].price > 0 && s.unsettled[tid].quantity > 0
  {
    hide NotStranded, AgreesAt, StatusFits, Backed;
    TradeOrders(s, tid);
    ShapePrice(s, s.unsettled[tid].sellOrder);
  }

  lemma ProductPositive(a: int, b: int)
    requires a > 0 && b > 0
    ensures a * b > 0
  {
  }

  // ---------------------------------------------------------------- solvency over runs

  lemma InitialSolvent(s: State)
    requires Initial(s)
    ensures Solvent(s)
  {
    forall k ensures Margin(s, k) >= 0 {
      assert WorthBy(s.l.rows, k) == map[] && PaysBy(s.unsettled, k) == map[] && InflightBy(s.inflight, k) == map[];
    }
  }

  lemma NextSolvent(s: State, step: Step, s': State)
    requires Invariant(s) && Solvent(s) && Next(s, step, s')
    requires step.Reserve? ==> Covered(s, KeyOf(step.ticket))
    ensures Solvent(s')
  {
    hide Invariant;
    forall k ensures Margin(s', k) >= 0 {
      assert Margin(s, k) >= 0;
      NextMargin(s, step, s', k);
      if step.Reserve? {
        ReserveAdmits(s, s', step.ticket);
      }
    }
  }

  /** In every run whose reservations are taken on covered accounts, every account can pay what it owes. */
  lemma {:induction false} RunSolvent(states: seq<State>, steps: seq<Step>, n: nat)
    requires Trace(states, steps) && n < |states|
    requires forall i | 0 <= i < |steps| && steps[i].Reserve? :: Covered(states[i], KeyOf(steps[i].ticket))
    ensures Solvent(states[n])
  {
    if n == 0 {
      InitialSolvent(states[0]);
    } else {
      RunSolvent(states, steps, n - 1);
      ReachableHolds(states, steps, n - 1);
      NextSolvent(states[n - 1], steps[n - 1], states[n]);
    }
  }

  // ---------------------------------------------------------------- balances

  /** No balance and no position is below zero. */
  ghost predicate Sound(l: Ledger) {
    forall k :: HeldAt(l, k) >= 0
  }

  lemma SettleSound(l: Ledger, t: Trade)
    requires Sound(l) && SettleTrade(l, t).Applied? && t.quantity >= 0 && t.price * t.quantity >= 0
    ensures Sound(SettleTrade(l, t).ledger)
  {
    hide PayLeg;
    var total := CostFor(t.price, t.quantity).value;
    CostForIsExact(t.price, t.quantity, total);
    PayEffect(l, t.buyOrder, Buy, t.buyer, Cash(t.buyer), total);
    var l1 := PayLeg(l, t.buyOrder, Buy, t.buyer, Cash(t.buyer), total).ledger;
    var l2 := CreditUnits(l1, t.buyer, t.symbol, t.quantity);
    PayEffect(l2, t.sellOrder, Sell, t.seller, Units(t.seller, t.symbol), t.quantity);
    var l3 := PayLeg(l2, t.sellOrder, Sell, t.seller, Units(t.seller, t.symbol), t.quantity).ledger;
    var l4 := SettleTrade(l, t).ledger;
    forall k ensures HeldAt(l4, k) >= 0 {
      assert HeldAt(l, k) >= 0;
      assert HeldAt(l1, k) >= 0;
      assert HeldAt(l2, k) >= 0;
      assert HeldAt(l3, k) >= 0;
    }
  }

  lemma NextSound(s: State, step: Step, s': State)
    requires Invariant(s) && Sound(s.l) && Next(s, step, s')
    ensures Sound(s'.l)
  {
    hide Invariant, SettleTrade;
    match step
    case Settle(tid) =>
      PositiveTrade(s, tid);
      SettleSound(s.l, s.unsettled[tid]);
    case Match(id, listing, tids) =>
      var t := s.l.rows[id].ticket;
      AccountsUntouched(s.(booked := s.booked + {id}), tids, Scan(t, t.quantity, listing).trades);
    case _ =>
      forall k ensures HeldAt(s'.l, k) >= 0 { assert HeldAt(s.l, k) >= 0; }
  }

  lemma {:induction false} AccountsUntouched(s: State, tids: seq<Id>, trades: seq<Trade>)
    requires |tids| == |trades|
    ensures FillAll(s, tids, trades).l.users == s.l.users && FillAll(s, tids, trades).l.positions == s.l.positions
    ensures Sound(s.l) ==> Sound(FillAll(s, tids, trades).l)
    decreases |trades|
  {
    var s' := FillAll(s, tids, trades);
    if trades != [] {
      AccountsUntouched(Fill(s, tids[0], trades[0]), tids[1..], trades[1..]);
    }
    if Sound(s.l) {
      forall k ensures HeldAt(s'.l, k) >= 0 { assert HeldAt(s.l, k) >= 0; }
    }
  }

  /** Balances and positions stay non-negative in every run, covered or not. */
  lemma {:induction false} RunSound(states: seq<State>, steps: seq<Step>, n: nat)
    requires Trace(states, steps) && n < |states|
    ensures Sound(states[n].l)
  {
    if n > 0 {
      RunSound(states, steps, n - 1);
      ReachableHolds(states, steps, n - 1);
      NextSound(states[n - 1], steps[n - 1], states[n]);
    }
  }

  // ---------------------------------------------------------------- refusals

  /** Both costs a settlement computes exist. */
  predicate Computable(s: State, tid: Id)
    requires tid in s.unsettled && s.unsettled[tid].buyOrder in s.l.rows
  {
    var t := s.unsettled[tid];
    var buy := s.l.rows[t.buyOrder];
    CostFor(t.price, t.quantity).Ok? && CostFor(buy.ticket.price, buy.remaining).Ok?
  }

  /** Both sides hold what the trade takes; a seller who is the buyer delivers what just arrived. */
  predicate Funded(s: State, tid: Id)
    requires tid in s.unsettled
  {
    var t := s.unsettled[tid];
    && t.price * t.quantity <= SCALE * HeldAt(s.l, Cash(t.buyer))
    && (t.buyer == t.seller || t.quantity <= HeldAt(s.l, Units(t.seller, t.symbol)))
  }

  /**
    In every reachable state the ledger settles a waiting trade exactly when its costs are
    computable and both sides hold what it takes. No order is missing, none mismatches, no
    reservation is in a bad state, and no reserved amount is too small to release.
  */
  lemma SettlesIff(s: State, tid: Id)
    requires Invariant(s) && Sound(s.l) && tid in s.unsettled
    ensures s.unsettled[tid].buyOrder in s.l.rows
    ensures SettleTrade(s.l, s.unsettled[tid]).Applied? <==> Computable(s, tid) && Funded(s, tid)
    ensures SettleTrade(s.l, s.unsettled[tid]).Refused? ==>
      SettleTrade(s.l, s.unsettled[tid]).why == if Computable(s, tid) then Insufficient else NotExact
  {
    hide Invariant, TradeFits, Worth, RowFits;
    var t := s.unsettled[tid];
    TradeOrders(s, tid);
    assert TradeFits(s.l.rows, s.booked, t);
    TradePartners(s, tid);
    ReservationHolds(s, t.buyOrder);
    ReservationHolds(s, t.sellOrder);
    BuyerPays(s, tid);
    if BuyerLeg(s.l, t).Applied? {
      SellerDelivers(s, tid);
    }
  }

  lemma TradePartners(s: State, tid: Id)
    requires Invariant(s) && tid in s.unsettled
    ensures var t := s.unsettled[tid];
      && t.buyer in s.l.users && t.seller in s.l.users && Has(s.l, Units(t.seller, t.symbol))
      && t.buyOrder in s.l.rows && t.sellOrder in s.l.rows
      && s.l.rows[t.buyOrder].ticket.side == Buy && s.l.rows[t.buyOrder].ticket.user == t.buyer
      && s.l.rows[t.sellOrder].ticket.side == Sell && s.l.rows[t.sellOrder].ticket.user == t.seller
  {
    TradeOrders(s, tid);
  }

  /** An order's reservation is part of its account's, and covers its remainder. */
  lemma ReservationHolds(s: State, id: Id)
    requires Invariant(s) && id in s.l.rows
    ensures var row := s.l.rows[id];
      && 0 <= row.reserved <= ReservedAt(s.l, KeyOf(row.ticket))
      && 0 <= Worth(row.ticket, row.remaining) <= SCALE * row.reserved
  {
    var row := s.l.rows[id];
    var k := KeyOf(row.ticket);
    assert NotStranded(s, id) && AgreesAt(s, k);
    TotalBounds(ReservedBy(s.l.rows, k), id);
    TotalNonNegative(InflightBy(s.inflight, k));
    ShapePrice(s, id);
    LessIsWorthLess(row.ticket, 0, row.remaining);
  }

  lemma BuyerPays(s: State, tid: Id)
    requires Invariant(s) && tid in s.unsettled
    ensures s.unsettled[tid].buyOrder in s.l.rows
    ensures var t := s.unsettled[tid];
      && (BuyerLeg(s.l, t).Applied? <==>
            Computable(s, tid) && t.price * t.quantity <= SCALE * HeldAt(s.l, Cash(t.buyer)))
      && (BuyerLeg(s.l, t).Refused? ==> BuyerLeg(s.l, t).why == if Computable(s, tid) then Insufficient else NotExact)
  {
    hide Invariant, TradeFits;
    var t := s.unsettled[tid];
    TradePartners(s, tid);
    TradeOrders(s, tid);
    ReservationHolds(s, t.buyOrder);
    var buy := s.l.rows[t.buyOrder];
    if Computable(s, tid) {
      var total, next := CostFor(t.price, t.quantity).value, CostFor(buy.ticket.price, buy.remaining).value;
      CostForIsExact(t.price, t.quantity, total);
      ReserveIsWorth(buy.ticket, buy.remaining, next);
    }
  }

  lemma SellerDelivers(s: State, tid: Id)
    requires Invariant(s) && Sound(s.l) && tid in s.unsettled && BuyerLeg(s.l, s.unsettled[tid]).Applied?
    ensures var t := s.unsettled[tid]; var out := SellerLeg(BuyerLeg(s.l, t).ledger, t);
      && (out.Applied? <==> t.buyer == t.seller || t.quantity <= HeldAt(s.l, Units(t.seller, t.symbol)))
      && (out.Refused? ==> out.why == Insufficient)
  {
    hide Invariant, TradeFits;
    var t := s.unsettled[tid];
    TradePartners(s, tid);
    TradeOrders(s, tid);
    ReservationHolds(s, t.sellOrder);
    var total := CostFor(t.price, t.quantity).value;
    PayEffect(s.l, t.buyOrder, Buy, t.buyer, Cash(t.buyer), total);
    assert HeldAt(s.l, Units(t.seller, t.symbol)) >= 0;
  }

  /** A committed cancel can always release what its order still holds. */
  lemma EveryCancelReleases(s: State, event: Id)
    requires Invariant(s) && event in s.cancels
    ensures ReleaseOrder(s.l, s.cancels[event]).Applied?
  {
    var id := s.cancels[event];
    assert id in s.l.rows;
    ReservationHolds(s, id);
  }

  /** The compensation of a failed insert is never refused: what was reserved is still reserved. */
  lemma EveryReservationCompensates(s: State, id: Id)
    requires Invariant(s) && id in s.inflight
    ensures ReleaseFunds(s.l, RequestFor(s.inflight[id].ticket, s.inflight[id].amount)).Applied?
  {
    var p := s.inflight[id];
    var k := KeyOf(p.ticket);
    assert PendingFits(id, p) && Backed(s.l, p.ticket) && AgreesAt(s, k);
    TotalNonNegative(ReservedBy(s.l.rows, k));
    TotalBounds(InflightBy(s.inflight, k), id);
  }
}
