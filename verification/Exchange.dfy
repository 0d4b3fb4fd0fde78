/**
  The exchange as one state machine: reservations, order rows, the book, fills waiting to be
  settled and cancels waiting to be released. Every committed transaction of any service is one
  step; a transaction that is rolled back is no step.
*/
module Exchange {
  import opened Model
  import opened Matching
  import opened Book
  import opened Records
  import opened Money
  import opened Totals
  import opened Ledgers

  /** A reservation taken by `/reserve` whose order has no row yet. */
  datatype Pending = Pending(ticket: Ticket, amount: int)

  datatype State = State(
    l: Ledger,
    booked: set<Id>,              // orders whose create command was processed
    inflight: map<Id, Pending>,   // reserved, order row not inserted
    unsettled: map<Id, Trade>,    // committed trades the ledger has not applied
    cancels: map<Id, Id>)         // committed cancel events the ledger has not applied

  datatype Step =
    | Reserve(ticket: Ticket)
    | Insert(id: Id)
    | Compensate(id: Id)
    | Match(id: Id, listing: seq<Resting>, trades: seq<Id>)
    | Cancel(id: Id, event: Id)
    | Settle(trade: Id)
    | Release(event: Id)

  // ---------------------------------------------------------------- the steps

  function RecordOf(row: Row): Record {
    Record(row.ticket, row.remaining, row.status)
  }

  function RecordsOf(rows: map<Id, Row>): View {
    map id | id in rows :: RecordOf(rows[id])
  }

  /** The orders the matching engine has taken into its book. */
  function BookView(s: State): View {
    map id | id in s.l.rows && id in s.booked :: RecordOf(s.l.rows[id])
  }

  function FillRow(rows: map<Id, Row>, id: Id, quantity: int): map<Id, Row> {
    if id in rows then
      var left := rows[id].remaining - quantity;
      rows[id := rows[id].(remaining := left, status := StatusFor(left, rows[id].ticket.quantity))]
    else rows
  }

  /** One trade of a match: both rows shrink, the trade waits for settlement. */
  function Fill(s: State, tid: Id, t: Trade): State {
    s.(l := s.l.(rows := FillRow(FillRow(s.l.rows, t.buyOrder, t.quantity), t.sellOrder, t.quantity)),
       unsettled := s.unsettled[tid := t])
  }

  function FillAll(s: State, tids: seq<Id>, trades: seq<Trade>): State
    requires |tids| == |trades|
    decreases |trades|
  {
    if trades == [] then s else FillAll(Fill(s, tids[0], trades[0]), tids[1..], trades[1..])
  }

  ghost predicate FreshIds(s: State, tids: seq<Id>) {
    && (forall i | 0 <= i < |tids| :: tids[i] !in s.unsettled)
    && (forall i, j | 0 <= i < j < |tids| :: tids[i] != tids[j])
  }

  ghost predicate ReserveStep(s: State, s': State, t: Ticket) {
    var amount := ReserveFor(t, t.quantity);
    && t.price > 0 && t.quantity > 0 && t.user in s.l.users
    && t.id !in s.l.rows && t.id !in s.inflight
    && amount.Ok?
    && var outcome := ReserveFunds(s.l, RequestFor(t, amount.value));
      outcome.Applied? && s' == s.(l := outcome.ledger, inflight := s.inflight[t.id := Pending(t, amount.value)])
  }

  ghost predicate InsertStep(s: State, s': State, id: Id) {
    && id in s.inflight
    && var p := s.inflight[id];
      s' == s.(l := s.l.(rows := s.l.rows[id := Row(p.ticket, p.ticket.quantity, New, p.amount)]),
               inflight := s.inflight - {id})
  }

  ghost predicate CompensateStep(s: State, s': State, id: Id) {
    && id in s.inflight
    && var outcome := ReleaseFunds(s.l, RequestFor(s.inflight[id].ticket, s.inflight[id].amount));
      outcome.Applied? && s' == s.(l := outcome.ledger, inflight := s.inflight - {id})
  }

  ghost predicate MatchStep(s: State, s': State, id: Id, listing: seq<Resting>, tids: seq<Id>) {
    && id in s.l.rows && id !in s.booked
    && var t := s.l.rows[id].ticket;
      var trades := Scan(t, t.quantity, listing).trades;
      && IsListing(listing, Opposing(LiveOf(BookView(s)), t))
      && |tids| == |trades| && FreshIds(s, tids)
      && s' == FillAll(s.(booked := s.booked + {id}), tids, trades)
  }

  ghost predicate CancelStep(s: State, s': State, id: Id, event: Id) {
    && id in s.booked && id in s.l.rows && s.l.rows[id].remaining > 0 && event !in s.cancels
    && s' == s.(l := s.l.(rows := s.l.rows[id := s.l.rows[id].(remaining := 0, status := Cancelled)]),
                cancels := s.cancels[event := id])
  }

  ghost predicate SettleStep(s: State, s': State, tid: Id) {
    && tid in s.unsettled
    && var outcome := SettleTrade(s.l, s.unsettled[tid]);
      outcome.Applied? && s' == s.(l := outcome.ledger, unsettled := s.unsettled - {tid})
  }

  ghost predicate ReleaseStep(s: State, s': State, event: Id) {
    && event in s.cancels
    && var outcome := ReleaseOrder(s.l, s.cancels[event]);
      outcome.Applied? && s' == s.(l := outcome.ledger, cancels := s.cancels - {event})
  }

  ghost predicate Next(s: State, step: Step, s': State) {
    match step
    case Reserve(t) => ReserveStep(s, s', t)
    case Insert(id) => InsertStep(s, s', id)
    case Compensate(id) => CompensateStep(s, s', id)
    case Match(id, listing, tids) => MatchStep(s, s', id, listing, tids)
    case Cancel(id, event) => CancelStep(s, s', id, event)
    case Settle(tid) => SettleStep(s, s', tid)
    case Release(event) => ReleaseStep(s, s', event)
  }

  /** No order, reservation or event yet; any accounts with nothing reserved. */
  ghost predicate Initial(s: State) {
    && s.l.rows == map[] && s.booked == {} && s.inflight == map[] && s.unsettled == map[] && s.cancels == map[]
    && (forall u | u in s.l.users :: s.l.users[u].held >= 0 && s.l.users[u].reserved == 0)
    && (forall p | p in s.l.positions ::
          p.0 in s.l.users && s.l.positions[p].held >= 0 && s.l.positions[p].reserved == 0)
  }

  // ---------------------------------------------------------------- the shape of reachable states

  predicate RowFits(id: Id, row: Row) {
    && row.ticket.id == id && row.ticket.price > 0 && row.ticket.quantity > 0
    && 0 <= row.remaining <= row.ticket.quantity
    && row.reserved >= 0
    && StatusFits(RecordOf(row))
  }

  /** A trade pairs a BUY row with a SELL row, within both limits. */
  predicate TradeFits(rows: map<Id, Row>, booked: set<Id>, t: Trade) {
    && t.buyOrder in rows && t.sellOrder in rows && t.buyOrder in booked && t.sellOrder in booked
    && t.quantity > 0
    && var buy, sell := rows[t.buyOrder].ticket, rows[t.sellOrder].ticket;
      && buy.side.Buy? && sell.side.Sell?
      && buy.user == t.buyer && sell.user == t.seller
      && buy.symbol == t.symbol == sell.symbol
      && sell.price <= t.price <= buy.price
  }

  predicate Backed(l: Ledger, t: Ticket) {
    Has(l, KeyOf(t)) && t.user in l.users
  }

  predicate PendingFits(id: Id, p: Pending) {
    && p.ticket.id == id && p.ticket.price > 0 && p.ticket.quantity > 0 && p.amount > 0
    && ReserveFor(p.ticket, p.ticket.quantity) == Ok(p.amount)
  }

  ghost predicate Shape(s: State) {
    && (forall id | id in s.l.rows :: RowFits(id, s.l.rows[id]) && Backed(s.l, s.l.rows[id].ticket))
    && (forall id | id in s.inflight ::
          PendingFits(id, s.inflight[id]) && Backed(s.l, s.inflight[id].ticket) && id !in s.l.rows)
    && s.booked <= s.l.rows.Keys
    && (forall id | id in s.l.rows && id !in s.booked ::
          && s.l.rows[id].remaining == s.l.rows[id].ticket.quantity
          && ReserveFor(s.l.rows[id].ticket, s.l.rows[id].ticket.quantity) == Ok(s.l.rows[id].reserved))
    && (forall tid | tid in s.unsettled :: TradeFits(s.l.rows, s.booked, s.unsettled[tid]))
    && (forall e | e in s.cancels :: s.cancels[e] in s.booked && s.l.rows[s.cancels[e]].remaining == 0)
  }

  // ---------------------------------------------------------------- sums per account

  /** `amount` counts for account `k` if the order draws on it. */
  function Share(t: Ticket, k: Key, amount: int): int {
    if KeyOf(t) == k then amount else 0
  }

  function ReservedBy(rows: map<Id, Row>, k: Key): map<Id, int> {
    map id | id in rows :: Share(rows[id].ticket, k, rows[id].reserved)
  }

  function InflightBy(inflight: map<Id, Pending>, k: Key): map<Id, int> {
    map id | id in inflight :: Share(inflight[id].ticket, k, inflight[id].amount)
  }

  function ReservedAt(l: Ledger, k: Key): int {
    if Has(l, k) then At(l, k).reserved else 0
  }

  function HeldAt(l: Ledger, k: Key): int {
    if Has(l, k) then At(l, k).held else 0
  }

  /** What an account has reserved is what its orders and its in-flight reservations say. */
  ghost predicate AgreesAt(s: State, k: Key) {
    ReservedAt(s.l, k) == Total(ReservedBy(s.l.rows, k)) + Total(InflightBy(s.inflight, k))
  }

  /** Something still to be applied to this order. */
  ghost predicate Awaits(s: State, id: Id) {
    || (exists tid :: tid in s.unsettled && Names(s.unsettled[tid], id))
    || (exists e :: e in s.cancels && s.cancels[e] == id)
  }

  /** An order never has less reserved than its remainder needs, and more only while something is to be applied. */
  ghost predicate NotStranded(s: State, id: Id)
    requires id in s.l.rows
  {
    var row := s.l.rows[id];
    && SCALE * row.reserved >= Worth(row.ticket, row.remaining)
    && (SCALE * row.reserved == Worth(row.ticket, row.remaining) || Awaits(s, id))
  }

  ghost predicate Invariant(s: State) {
    && Shape(s)
    && (forall id | id in s.l.rows :: NotStranded(s, id))
    && (forall k :: AgreesAt(s, k))
  }
}
