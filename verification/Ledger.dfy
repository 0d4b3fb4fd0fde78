/**
  The portfolio database as a value: cash and position accounts, order rows with what each still
  reserves, and what every statement sequence of the portfolio service makes of them. Buying
  draws on a cash account and selling on a position account; the two are one shape here.
*/
module Ledgers {
  import opened Model
  import opened Money

  /** `balance`/`reserved_balance` of a user, or `quantity`/`reserved_quantity` of a position. */
  datatype Account = Account(held: int, reserved: int)

  datatype Key = Cash(user: Id) | Units(user: Id, symbol: Symbol)

  datatype Row = Row(ticket: Ticket, remaining: int, status: Status, reserved: int)

  datatype Ledger = Ledger(
    users: map<Id, Account>,
    positions: map<(Id, Symbol), Account>,
    rows: map<Id, Row>)

  datatype Refusal = NotExact | NoOrder | Mismatch | BadReservation | Insufficient | NoAccount

  /** What a transaction body does: a new ledger, or a refusal after which it is rolled back. */
  datatype Attempt = Applied(ledger: Ledger) | Refused(why: Refusal)

  predicate Has(l: Ledger, k: Key) {
    match k
    case Cash(u) => u in l.users
    case Units(u, s) => (u, s) in l.positions
  }

  function At(l: Ledger, k: Key): Account
    requires Has(l, k)
  {
    match k
    case Cash(u) => l.users[u]
    case Units(u, s) => l.positions[(u, s)]
  }

  function Put(l: Ledger, k: Key, a: Account): Ledger {
    match k
    case Cash(u) => l.(users := l.users[u := a])
    case Units(u, s) => l.(positions := l.positions[(u, s) := a])
  }

  function SetReserved(l: Ledger, id: Id, amount: int): Ledger
    requires id in l.rows
  {
    l.(rows := l.rows[id := l.rows[id].(reserved := amount)])
  }

  /** The account an order draws on. */
  function KeyOf(t: Ticket): Key {
    if t.side.Buy? then Cash(t.user) else Units(t.user, t.symbol)
  }

  /** What `quantity` units of the order need reserved; `calculateReservedAmount` for the whole order. */
  function ReserveFor(t: Ticket, quantity: int): Result<int> {
    if t.side.Buy? then CostFor(t.price, quantity) else Ok(quantity)
  }

  /** The same, times 10^8, which exists even when the cost is not exact. */
  function Worth(t: Ticket, quantity: int): int {
    if t.side.Buy? then t.price * quantity else SCALE * quantity
  }

  lemma ReserveIsWorth(t: Ticket, quantity: int, amount: int)
    requires ReserveFor(t, quantity) == Ok(amount)
    ensures SCALE * amount == Worth(t, quantity)
  {
    if t.side.Buy? { CostForIsExact(t.price, quantity, amount); }
  }

  // ---------------------------------------------------------------- settlement

  /** One side of a trade pays `amount` from `k` and keeps reserved only what its order still needs. */
  function PayLeg(l: Ledger, id: Id, side: Side, user: Id, k: Key, amount: int): Attempt {
    if id !in l.rows then Refused(NoOrder)
    else
      var row := l.rows[id];
      if row.ticket.user != user || row.ticket.side != side then Refused(Mismatch)
      else match ReserveFor(row.ticket, row.remaining)
        case Err(_) => Refused(NotExact)
        case Ok(next) =>
          var release := row.reserved - next;
          if next < 0 || release < 0 then Refused(BadReservation)
          else if !Has(l, k) || At(l, k).reserved < release || At(l, k).held < amount then Refused(Insufficient)
          else Applied(SetReserved(Put(l, k, Account(At(l, k).held - amount, At(l, k).reserved - release)), id, next))
  }

  /** The upsert of a position: an absent one starts from nothing. */
  function CreditUnits(l: Ledger, user: Id, symbol: Symbol, quantity: int): Ledger {
    var k := Units(user, symbol);
    var a := if Has(l, k) then At(l, k) else Account(0, 0);
    Put(l, k, a.(held := a.held + quantity))
  }

  function BuyerLeg(l: Ledger, t: Trade): Attempt {
    match CostFor(t.price, t.quantity)
    case Err(_) => Refused(NotExact)
    case Ok(total) =>
      match PayLeg(l, t.buyOrder, Buy, t.buyer, Cash(t.buyer), total)
      case Refused(why) => Refused(why)
      case Applied(paid) => Applied(CreditUnits(paid, t.buyer, t.symbol, t.quantity))
  }

  function SellerLeg(l: Ledger, t: Trade): Attempt {
    match CostFor(t.price, t.quantity)
    case Err(_) => Refused(NotExact)
    case Ok(total) =>
      match PayLeg(l, t.sellOrder, Sell, t.seller, Units(t.seller, t.symbol), t.quantity)
      case Refused(why) => Refused(why)
      case Applied(paid) =>
        if t.seller !in paid.users then Refused(NoAccount)
        else Applied(Put(paid, Cash(t.seller), paid.users[t.seller].(held := paid.users[t.seller].held + total)))
  }

  /** `ApplyTrade`: both accounts are locked, then the buyer's leg, then the seller's. */
  function SettleTrade(l: Ledger, t: Trade): Attempt {
    if t.buyer !in l.users || t.seller !in l.users then Refused(NoAccount)
    else match BuyerLeg(l, t)
      case Refused(why) => Refused(why)
      case Applied(half) => SellerLeg(half, t)
  }

  /** `ReleaseOrderReservation`, the effect of a cancel event. */
  function ReleaseOrder(l: Ledger, id: Id): Attempt {
    if id !in l.rows then Refused(NoOrder)
    else
      var row := l.rows[id];
      var k := KeyOf(row.ticket);
      if row.reserved == 0 then Applied(l)
      else if !Has(l, k) || At(l, k).reserved < row.reserved then Refused(Insufficient)
      else Applied(SetReserved(Put(l, k, At(l, k).(reserved := At(l, k).reserved - row.reserved)), id, 0))
  }

  // ---------------------------------------------------------------- reservation

  /** The body of `/reserve` and `/release`; the amount is optional for the caller. */
  datatype Request = Request(user: Id, symbol: Symbol, side: Side, price: int, quantity: int, amount: int)

  function RequestKey(r: Request): Key {
    if r.side.Buy? then Cash(r.user) else Units(r.user, r.symbol)
  }

  function RequestAmount(r: Request): Result<int> {
    if r.amount > 0 then Ok(r.amount)
    else if r.side.Buy? then CostFor(r.price, r.quantity)
    else Ok(r.quantity)
  }

  function ReserveFunds(l: Ledger, r: Request): Attempt {
    var k := RequestKey(r);
    if !Has(l, k) then Refused(NoAccount)
    else match RequestAmount(r)
      case Err(_) => Refused(NotExact)
      case Ok(amount) =>
        var a := At(l, k);
        if a.held - a.reserved < amount then Refused(Insufficient)
        else Applied(Put(l, k, a.(reserved := a.reserved + amount)))
  }

  /** `/release` for an order that never got a row: the compensation of the create saga. */
  function ReleaseFunds(l: Ledger, r: Request): Attempt {
    var k := RequestKey(r);
    if !Has(l, k) then Refused(NoAccount)
    else match RequestAmount(r)
      case Err(_) => Refused(NotExact)
      case Ok(amount) =>
        var a := At(l, k);
        if a.reserved < amount then Refused(Insufficient)
        else Applied(Put(l, k, a.(reserved := a.reserved - amount)))
  }

  /** `/release` naming an order: if it has a row, the row says how much, and is left with nothing. */
  function ReleaseRequest(l: Ledger, id: Id, r: Request): Attempt {
    if id !in l.rows then ReleaseFunds(l, r)
    else
      var k := RequestKey(r);
      if !Has(l, k) then Refused(NoAccount)
      else if r.side.Buy? && RequestAmount(r).Err? then Refused(NotExact)
      else
        var reserved := l.rows[id].reserved;
        var amount := if r.side.Sell? && reserved <= 0 then r.quantity else reserved;
        var a := At(l, k);
        if a.reserved < amount then Refused(Insufficient)
        else Applied(SetReserved(Put(l, k, a.(reserved := a.reserved - amount)), id, 0))
  }

  /**
    Releasing an order that has a row a second time changes nothing exactly for a BUY: a SELL with
    nothing reserved falls back to the requested quantity and gives back what others reserved.
  */
  lemma ReleaseRepeatsIff(l: Ledger, id: Id, r: Request)
    requires id in l.rows && ReleaseRequest(l, id, r).Applied?
    ensures var once := ReleaseRequest(l, id, r).ledger;
      ReleaseRequest(once, id, r) == Applied(once) <==> r.side.Buy? || r.quantity == 0
  {
    hide CostFor;
    var once := ReleaseRequest(l, id, r).ledger;
    var k := RequestKey(r);
    PutSame(once, k);
    assert once.rows[id := once.rows[id].(reserved := 0)] == once.rows;
    var twice := ReleaseRequest(once, id, r);
    if r.side.Sell? && twice.Applied? {
      assert At(twice.ledger, k).reserved == At(once, k).reserved - r.quantity;
    }
  }

  lemma PutSame(l: Ledger, k: Key)
    requires Has(l, k)
    ensures Put(l, k, At(l, k)) == l
  {
    match k
    case Cash(u) => assert l.users[u := l.users[u]] == l.users;
    case Units(u, s) => assert l.positions[(u, s) := l.positions[(u, s)]] == l.positions;
  }

  /** What the order service sends for an order. */
  function RequestFor(t: Ticket, amount: int): Request {
    Request(t.user, t.symbol, t.side, t.price, t.quantity, amount)
  }
}
