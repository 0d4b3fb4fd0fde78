/**
  What the operations of the ledger do, in plain numbers: which column of which row changes by how
  much, and that no other does.
*/
module Terms {
  import opened Model
  import opened Money
  import opened Ledgers
  import opened Exchange

  /** 10^8 times a cost is price times quantity; this is the division the other way, for exact products. */
  lemma CostInNumbers(price: int, quantity: int)
    requires price * quantity >= 0
    ensures CostFor(price, quantity).Ok? <==>
      price * quantity % 100_000_000 == 0 && price * quantity / 100_000_000 <= 0x7FFF_FFFF_FFFF_FFFF
    ensures CostFor(price, quantity).Ok? ==> CostFor(price, quantity).value == price * quantity / 100_000_000
  {
    CostForInexact(price, quantity);
  }

  // ---------------------------------------------------------------- reservations

  /** The exchange can reserve for this order. */
  ghost predicate CanReserve(s: State, t: Ticket) {
    exists s' :: ReserveStep(s, s', t)
  }

  /**
    An order can be reserved for exactly if price and quantity are positive and what is held and not
    reserved covers the exact cost of a BUY or the quantity of a SELL.
  */
  lemma ReserveIff(s: State, t: Ticket)
    requires t.id !in s.l.rows && t.id !in s.inflight
    requires forall p | p in s.l.positions :: p.0 in s.l.users
    ensures CanReserve(s, t) <==>
      && t.price > 0 && t.quantity > 0
      && if t.side.Buy? then
           && t.user in s.l.users
           && t.price * t.quantity % 100_000_000 == 0
           && t.price * t.quantity / 100_000_000 <= 0x7FFF_FFFF_FFFF_FFFF
           && s.l.users[t.user].reserved + t.price * t.quantity / 100_000_000 <= s.l.users[t.user].held
         else
           && (t.user, t.symbol) in s.l.positions
           && s.l.positions[(t.user, t.symbol)].reserved + t.quantity <= s.l.positions[(t.user, t.symbol)].held
  {
    if t.price > 0 && t.quantity > 0 {
      CostIsPositive(t.price, t.quantity);
      CostInNumbers(t.price, t.quantity);
      hide CostFor;
      if ReserveFor(t, t.quantity).Ok? && ReserveFunds(s.l, RequestFor(t, ReserveFor(t, t.quantity).value)).Applied? {
        var amount := ReserveFor(t, t.quantity).value;
        var s' := s.(l := ReserveFunds(s.l, RequestFor(t, amount)).ledger,
                     inflight := s.inflight[t.id := Pending(t, amount)]);
        if t.user in s.l.users { assert ReserveStep(s, s', t); }
      }
    }
  }

  lemma CostIsPositive(price: int, quantity: int)
    requires price > 0 && quantity > 0
    ensures price * quantity > 0
    ensures CostFor(price, quantity).Ok? ==> CostFor(price, quantity).value > 0
  {
    assert price * quantity > 0;
    if CostFor(price, quantity).Ok? { CostForIsExact(price, quantity, CostFor(price, quantity).value); }
  }

  /** A reservation raises one reserved amount, by the exact cost of a BUY or the quantity of a SELL. */
  lemma ReserveTerms(s: State, s': State, t: Ticket)
    requires ReserveStep(s, s', t)
    ensures s'.l.rows == s.l.rows && t.id in s'.inflight && s'.inflight[t.id].ticket == t
    ensures t.side.Buy? ==>
      var cost := t.price * t.quantity / 100_000_000;
      && t.user in s.l.users && s'.l.positions == s.l.positions && s'.inflight[t.id].amount == cost
      && s'.l.users == s.l.users[t.user := Account(s.l.users[t.user].held, s.l.users[t.user].reserved + cost)]
    ensures t.side.Sell? ==>
      var p := (t.user, t.symbol);
      && p in s.l.positions && s'.l.users == s.l.users && s'.inflight[t.id].amount == t.quantity
      && s'.l.positions
         == s.l.positions[p := Account(s.l.positions[p].held, s.l.positions[p].reserved + t.quantity)]
  {
    CostIsPositive(t.price, t.quantity);
    CostInNumbers(t.price, t.quantity);
    hide CostFor;
  }

  /** What a request asks for: the amount it names, or else the cost of a BUY or the quantity of a SELL. */
  function Asked(r: Request): int {
    if r.amount > 0 then r.amount
    else if r.side.Buy? then r.price * r.quantity / 100_000_000
    else r.quantity
  }

  /** A request that names no amount must have an exact cost. */
  predicate IsAsked(r: Request) {
    r.amount > 0 || r.side.Sell?
    || (r.price * r.quantity % 100_000_000 == 0 && r.price * r.quantity / 100_000_000 <= 0x7FFF_FFFF_FFFF_FFFF)
  }

  lemma AskedInNumbers(r: Request)
    requires r.price * r.quantity >= 0
    ensures RequestAmount(r).Ok? <==> IsAsked(r)
    ensures RequestAmount(r).Ok? ==> RequestAmount(r).value == Asked(r)
  {
    CostInNumbers(r.price, r.quantity);
    hide CostFor;
  }

  /** `reserved` of one account moves by `change`; nothing else changes. */
  predicate OnlyReserved(l: Ledger, l': Ledger, side: Side, user: Id, symbol: Symbol, change: int) {
    if side.Buy? then
      && user in l.users && l'.positions == l.positions
      && l'.users == l.users[user := Account(l.users[user].held, l.users[user].reserved + change)]
    else
      var p := (user, symbol);
      && p in l.positions && l'.users == l.users
      && l'.positions == l.positions[p := Account(l.positions[p].held, l.positions[p].reserved + change)]
  }

  /** `/reserve` succeeds exactly if what is asked is held and not yet reserved, and reserves exactly that. */
  lemma ReserveFundsTerms(l: Ledger, r: Request)
    requires r.price * r.quantity >= 0
    ensures ReserveFunds(l, r).Applied? <==>
      && IsAsked(r)
      && if r.side.Buy? then r.user in l.users && l.users[r.user].held - l.users[r.user].reserved >= Asked(r)
         else (r.user, r.symbol) in l.positions
              && l.positions[(r.user, r.symbol)].held - l.positions[(r.user, r.symbol)].reserved >= Asked(r)
    ensures ReserveFunds(l, r).Applied? ==>
      var l' := ReserveFunds(l, r).ledger;
      l'.rows == l.rows && OnlyReserved(l, l', r.side, r.user, r.symbol, Asked(r))
  {
    AskedInNumbers(r);
    hide RequestAmount, Asked, IsAsked;
  }

  /** `/release` without a row succeeds exactly if what is asked is reserved, and gives back exactly that. */
  lemma ReleaseFundsTerms(l: Ledger, r: Request)
    requires r.price * r.quantity >= 0
    ensures ReleaseFunds(l, r).Applied? <==>
      && IsAsked(r)
      && if r.side.Buy? then r.user in l.users && l.users[r.user].reserved >= Asked(r)
         else (r.user, r.symbol) in l.positions && l.positions[(r.user, r.symbol)].reserved >= Asked(r)
    ensures ReleaseFunds(l, r).Applied? ==>
      var l' := ReleaseFunds(l, r).ledger;
      l'.rows == l.rows && OnlyReserved(l, l', r.side, r.user, r.symbol, -Asked(r))
  {
    AskedInNumbers(r);
    hide RequestAmount, Asked, IsAsked;
  }

  /**
    `/release` for an order with a row gives the account back what the row reserves and empties the
    row; for a SELL whose row reserves nothing it gives back the requested quantity instead.
  */
  lemma ReleaseRequestTerms(l: Ledger, id: Id, r: Request)
    requires r.price * r.quantity >= 0 && id in l.rows && l.rows[id].reserved >= 0
    ensures var back := if r.side.Sell? && l.rows[id].reserved == 0 then r.quantity else l.rows[id].reserved;
      && (ReleaseRequest(l, id, r).Applied? <==>
            && IsAsked(r)
            && if r.side.Buy? then r.user in l.users && l.users[r.user].reserved >= back
               else (r.user, r.symbol) in l.positions && l.positions[(r.user, r.symbol)].reserved >= back)
      && (ReleaseRequest(l, id, r).Applied? ==>
            var l' := ReleaseRequest(l, id, r).ledger;
            && l'.rows == l.rows[id := l.rows[id].(reserved := 0)]
            && OnlyReserved(l, l', r.side, r.user, r.symbol, -back))
  {
    AskedInNumbers(r);
    hide RequestAmount, Asked;
  }

  /** A cancel event gives the order's account back what the row reserves, and empties the row. */
  lemma ReleaseOrderTerms(l: Ledger, id: Id)
    requires id in l.rows && l.rows[id].reserved > 0
    ensures var t := l.rows[id].ticket;
      ReleaseOrder(l, id).Applied? <==>
        if t.side.Buy? then t.user in l.users && l.users[t.user].reserved >= l.rows[id].reserved
        else (t.user, t.symbol) in l.positions && l.positions[(t.user, t.symbol)].reserved >= l.rows[id].reserved
    ensures ReleaseOrder(l, id).Applied? ==>
      var l', back, t := ReleaseOrder(l, id).ledger, l.rows[id].reserved, l.rows[id].ticket;
      && l'.rows == l.rows[id := l.rows[id].(reserved := 0)]
      && if t.side.Buy? then
           && l'.positions == l.positions
           && l'.users == l.users[t.user := Account(l.users[t.user].held, l.users[t.user].reserved - back)]
         else
           var p := (t.user, t.symbol);
           && l'.users == l.users
           && l'.positions == l.positions[p := Account(l.positions[p].held, l.positions[p].reserved - back)]
  {
  }

  // ---------------------------------------------------------------- settlement

  function HeldBy(accounts: map<(Id, Symbol), Account>, p: (Id, Symbol)): int {
    if p in accounts then accounts[p].held else 0
  }

  function ReservedBy(accounts: map<(Id, Symbol), Account>, p: (Id, Symbol)): int {
    if p in accounts then accounts[p].reserved else 0
  }

  /** The buyer's leg: cash out, the reservation down to the remainder's cost, shares in. */
  lemma BuyerTerms(l: Ledger, t: Trade)
    requires BuyerLeg(l, t).Applied? && t.price * t.quantity >= 0
    ensures t.buyOrder in l.rows && t.buyer in l.users
    ensures var order := l.rows[t.buyOrder];
      order.ticket.user == t.buyer && order.ticket.side == Buy && order.ticket.price * order.remaining >= 0
    ensures var order, l' := l.rows[t.buyOrder], BuyerLeg(l, t).ledger;
      var cost, next := t.price * t.quantity / 100_000_000, order.ticket.price * order.remaining / 100_000_000;
      var account, p := l.users[t.buyer], (t.buyer, t.symbol);
      && cost * 100_000_000 == t.price * t.quantity && next * 100_000_000 == order.ticket.price * order.remaining
      && cost <= account.held && order.reserved - next <= account.reserved && 0 <= next <= order.reserved
      && l'.users == l.users[t.buyer := Account(account.held - cost, account.reserved - (order.reserved - next))]
      && l'.positions
         == l.positions[p := Account(HeldBy(l.positions, p) + t.quantity, ReservedBy(l.positions, p))]
      && l'.rows == l.rows[t.buyOrder := order.(reserved := next)]
  {
    var order := l.rows[t.buyOrder];
    var next := CostFor(order.ticket.price, order.remaining).value;
    CostForIsExact(order.ticket.price, order.remaining, next);
    CostInNumbers(t.price, t.quantity);
    CostInNumbers(order.ticket.price, order.remaining);
    hide CostFor;
  }

  /** The seller's leg: shares out, the reservation down to the remainder, cash in. */
  lemma SellerTerms(l: Ledger, t: Trade)
    requires SellerLeg(l, t).Applied? && t.price * t.quantity >= 0
    ensures t.sellOrder in l.rows && t.seller in l.users && (t.seller, t.symbol) in l.positions
    ensures var order, l' := l.rows[t.sellOrder], SellerLeg(l, t).ledger;
      var cost, next := t.price * t.quantity / 100_000_000, order.remaining;
      var p := (t.seller, t.symbol);
      var account := l.positions[p];
      && order.ticket.user == t.seller && order.ticket.side == Sell
      && cost * 100_000_000 == t.price * t.quantity
      && t.quantity <= account.held && order.reserved - next <= account.reserved && 0 <= next <= order.reserved
      && l'.positions
         == l.positions[p := Account(account.held - t.quantity, account.reserved - (order.reserved - next))]
      && l'.users == l.users[t.seller := Account(l.users[t.seller].held + cost, l.users[t.seller].reserved)]
      && l'.rows == l.rows[t.sellOrder := order.(reserved := next)]
  {
    CostInNumbers(t.price, t.quantity);
    hide CostFor;
  }

  /**
    A settled trade, user by user, position by position and row by row: the buyer pays the cost, the
    seller gets it, the shares go the other way, each order keeps reserved what its remainder needs,
    the rest of the reservation is freed, and nothing else changes.
  */
  lemma SettleTerms(l: Ledger, t: Trade)
    requires SettleTrade(l, t).Applied? && t.price * t.quantity >= 0
    ensures t.buyOrder in l.rows && t.sellOrder in l.rows && t.buyOrder != t.sellOrder
    ensures t.buyer in l.users && t.seller in l.users
    ensures var buy, sell, l' := l.rows[t.buyOrder], l.rows[t.sellOrder], SettleTrade(l, t).ledger;
      var cost, next := t.price * t.quantity / 100_000_000, buy.ticket.price * buy.remaining / 100_000_000;
      && cost * 100_000_000 == t.price * t.quantity
      && l'.users.Keys == l.users.Keys && l'.positions.Keys == l.positions.Keys + {(t.buyer, t.symbol)}
      && (forall u | u in l.users ::
            && l'.users[u].held
               == l.users[u].held - (if u == t.buyer then cost else 0) + (if u == t.seller then cost else 0)
            && l'.users[u].reserved == l.users[u].reserved - if u == t.buyer then buy.reserved - next else 0)
      && (forall p | p in l'.positions ::
            && l'.positions[p].held
               == HeldBy(l.positions, p) + (if p == (t.buyer, t.symbol) then t.quantity else 0)
                  - (if p == (t.seller, t.symbol) then t.quantity else 0)
            && l'.positions[p].reserved
               == ReservedBy(l.positions, p) - if p == (t.seller, t.symbol) then sell.reserved - sell.remaining else 0)
      && l'.rows == l.rows[t.buyOrder := buy.(reserved := next)][t.sellOrder := sell.(reserved := sell.remaining)]
  {
    hide BuyerLeg, SellerLeg;
    BuyerTerms(l, t);
    SellerTerms(BuyerLeg(l, t).ledger, t);
  }
}
