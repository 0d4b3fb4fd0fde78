/**
  The portfolio service step by step: each method is the sequence of statements it runs inside
  one transaction, and its contract says which ledger the sequence leaves, or why it refuses.
*/
module Portfolio {
  import opened Model
  import opened Money
  import opened Ledgers

  /** The two consumer groups keep separate marks. */
  datatype Group = TradeGroup | OrderEventGroup

  type Mark = (Group, Id)

  /** What can go wrong around the statements themselves. */
  datatype Fault = NoFault | AtMark | AtCommit

  datatype Error = None | Because(why: Refusal)

  /** The accounts a settlement locks, in the order it locks them. */
  function AccountLocks(t: Trade): seq<Id> {
    if t.buyer == t.seller then [t.buyer]
    else if t.buyer < t.seller then [t.buyer, t.seller]
    else [t.seller, t.buyer]
  }

  class Store {
    var users: map<Id, Account>
    var positions: map<(Id, Symbol), Account>
    var rows: map<Id, Row>
    var processed: set<Mark>

    function Db(): Ledger
      reads this
    {
      Ledger(users, positions, rows)
    }

    constructor (l: Ledger, processed: set<Mark>)
      ensures Db() == l && this.processed == processed
    {
      users, positions, rows := l.users, l.positions, l.rows;
      this.processed := processed;
    }

    method LockAccount(user: Id) returns (error: Error)
      ensures error == if user in users then None else Because(NoAccount)
    {
      error := if user in users then None else Because(NoAccount);
    }

    /** Pays for the shares and shrinks the order's reservation to its present remainder. */
    method ApplyBuyerTrade(t: Trade) returns (error: Error)
      modifies this`users, this`positions, this`rows
      ensures match BuyerLeg(old(Db()), t)
        case Applied(l) => error == None && Db() == l
        case Refused(why) => error == Because(why)
    {
      var cost := CostFor(t.price, t.quantity);
      if cost.Err? { return Because(NotExact); }
      var total := cost.value;

      if t.buyOrder !in rows { return Because(NoOrder); }
      var order := rows[t.buyOrder];
      if order.ticket.user != t.buyer || order.ticket.side != Buy { return Because(Mismatch); }

      var needed := CostFor(order.ticket.price, order.remaining);
      if needed.Err? { return Because(NotExact); }
      var next := needed.value;
      if next < 0 || order.reserved < next { return Because(BadReservation); }
      var release := order.reserved - next;

      if t.buyer !in users || users[t.buyer].reserved < release || users[t.buyer].held < total {
        return Because(Insufficient);
      }
      users := users[t.buyer := Account(users[t.buyer].held - total, users[t.buyer].reserved - release)];
      rows := rows[t.buyOrder := rows[t.buyOrder].(reserved := next)];

      var position := (t.buyer, t.symbol);
      if position in positions {
        positions := positions[position := positions[position].(held := positions[position].held + t.quantity)];
      } else {
        positions := positions[position := Account(t.quantity, 0)];
      }
      return None;
    }

    /** Delivers the shares, shrinks the reservation, takes the money. */
    method ApplySellerTrade(t: Trade) returns (error: Error)
      modifies this`users, this`positions, this`rows
      ensures match SellerLeg(old(Db()), t)
        case Applied(l) => error == None && Db() == l
        case Refused(why) => error == Because(why)
    {
      var cost := CostFor(t.price, t.quantity);
      if cost.Err? { return Because(NotExact); }
      var total := cost.value;

      if t.sellOrder !in rows { return Because(NoOrder); }
      var order := rows[t.sellOrder];
      if order.ticket.user != t.seller || order.ticket.side != Sell { return Because(Mismatch); }

      var next := order.remaining;
      if next < 0 || order.reserved < next { return Because(BadReservation); }
      var release := order.reserved - next;

      var position := (t.seller, t.symbol);
      if position !in positions || positions[position].held < t.quantity || positions[position].reserved < release {
        return Because(Insufficient);
      }
      positions := positions[position :=
        Account(positions[position].held - t.quantity, positions[position].reserved - release)];
      rows := rows[t.sellOrder := rows[t.sellOrder].(reserved := next)];

      if t.seller !in users { return Because(NoAccount); }
      users := users[t.seller := users[t.seller].(held := users[t.seller].held + total)];
      return None;
    }

    /** Locks the accounts in id order, then settles both sides. */
    method ApplyTrade(t: Trade) returns (error: Error, locked: seq<Id>)
      modifies this`users, this`positions, this`rows
      ensures match SettleTrade(old(Db()), t)
        case Applied(l) => error == None && Db() == l && locked == AccountLocks(t)
        case Refused(why) => error == Because(why)
      ensures locked <= AccountLocks(t)
    {
      error, locked := None, [];
      if t.buyer == t.seller {
        error := LockAccount(t.buyer);
        if error != None { return; }
        locked := [t.buyer];
      } else if t.buyer < t.seller {
        error := LockAccount(t.buyer);
        if error != None { return; }
        locked := [t.buyer];
        error := LockAccount(t.seller);
        if error != None { return; }
        locked := [t.buyer, t.seller];
      } else {
        error := LockAccount(t.seller);
        if error != None { return; }
        locked := [t.seller];
        error := LockAccount(t.buyer);
        if error != None { return; }
        locked := [t.seller, t.buyer];
      }
      error := ApplyBuyerTrade(t);
      if error != None { return; }
      error := ApplySellerTrade(t);
    }

    method ReleaseOrderReservation(id: Id) returns (error: Error)
      modifies this`users, this`positions, this`rows
      ensures match ReleaseOrder(old(Db()), id)
        case Applied(l) => error == None && Db() == l
        case Refused(why) => error == Because(why)
    {
      if id !in rows { return Because(NoOrder); }
      var order := rows[id];
      if order.reserved == 0 { return None; }
      if order.ticket.side.Buy? {
        var user := order.ticket.user;
        if user !in users || users[user].reserved < order.reserved { return Because(Insufficient); }
        users := users[user := users[user].(reserved := users[user].reserved - order.reserved)];
      } else {
        var position := (order.ticket.user, order.ticket.symbol);
        if position !in positions || positions[position].reserved < order.reserved {
          return Because(Insufficient);
        }
        positions := positions[position :=
          positions[position].(reserved := positions[position].reserved - order.reserved)];
      }
      rows := rows[id := rows[id].(reserved := 0)];
      return None;
    }

    /** `ON CONFLICT DO NOTHING`: a second mark of the same event affects no row. */
    method MarkEventProcessed(mark: Mark) returns (inserted: bool)
      modifies this`processed
      ensures inserted <==> mark !in old(processed)
      ensures processed == old(processed) + {mark}
    {
      inserted := mark !in processed;
      processed := processed + {mark};
    }

    method Rollback(l: Ledger, marks: set<Mark>)
      modifies this
      ensures Db() == l && processed == marks
    {
      users, positions, rows := l.users, l.positions, l.rows;
      processed := marks;
    }

    method IsEventProcessed(mark: Mark) returns (seen: bool)
      ensures seen <==> mark in processed
    {
      seen := mark in processed;
    }

    /**
      `processTrade` after its check answered `seen`, which another transaction may have made
      stale. The trade is applied at most once: with the mark in place nothing changes, whatever
      the check said.
    */
    method ProcessTrade(id: Id, t: Trade, seen: bool, fault: Fault) returns (applied: bool, error: bool)
      requires seen ==> (TradeGroup, id) in processed
      modifies this
      ensures applied <==>
        (TradeGroup, id) !in old(processed) && SettleTrade(old(Db()), t).Applied? && fault.NoFault?
      ensures applied ==>
        Db() == SettleTrade(old(Db()), t).ledger && processed == old(processed) + {(TradeGroup, id)}
      ensures !applied ==> Db() == old(Db()) && processed == old(processed)
      ensures !error ==> (TradeGroup, id) in processed   // only a settled message is acknowledged
      ensures error <==>
        if seen then fault.AtCommit?
        else !SettleTrade(old(Db()), t).Applied? || fault.AtMark?
             || ((TradeGroup, id) !in old(processed) && fault.AtCommit?)
    {
      if seen { return false, fault.AtCommit?; }
      var saved, marks := Db(), processed;
      var refused, locked := ApplyTrade(t);
      if refused != None {
        Rollback(saved, marks);
        return false, true;
      }
      var inserted := MarkEventProcessed((TradeGroup, id));
      if fault.AtMark? || !inserted {
        Rollback(saved, marks);
        return false, fault.AtMark?;
      }
      if fault.AtCommit? {
        Rollback(saved, marks);
        return false, true;
      }
      return true, false;
    }

    /** `processOrderEvent`; only a cancellation has an effect besides its mark. */
    method ProcessOrderEvent(id: Id, cancelled: bool, user: Id, order: Id, seen: bool, fault: Fault)
      returns (applied: bool, error: bool)
      requires seen ==> (OrderEventGroup, id) in processed
      modifies this
      ensures applied <==>
        && (OrderEventGroup, id) !in old(processed) && fault.NoFault?
        && (cancelled ==> user in old(users) && ReleaseOrder(old(Db()), order).Applied?)
      ensures applied ==>
        && processed == old(processed) + {(OrderEventGroup, id)}
        && Db() == if cancelled then ReleaseOrder(old(Db()), order).ledger else old(Db())
      ensures !applied ==> Db() == old(Db()) && processed == old(processed)
      ensures !error ==> (OrderEventGroup, id) in processed
      ensures error <==>
        if seen then fault.AtCommit?
        else (cancelled && !(user in old(users) && ReleaseOrder(old(Db()), order).Applied?)) || fault.AtMark?
             || ((OrderEventGroup, id) !in old(processed) && fault.AtCommit?)
    {
      if seen { return false, fault.AtCommit?; }
      var saved, marks := Db(), processed;
      if cancelled {
        var refused := LockAccount(user);
        if refused != None { return false, true; }
        refused := ReleaseOrderReservation(order);
        if refused != None {
          Rollback(saved, marks);
          return false, true;
        }
      }
      var inserted := MarkEventProcessed((OrderEventGroup, id));
      if fault.AtMark? || !inserted {
        Rollback(saved, marks);
        return false, fault.AtMark?;
      }
      if fault.AtCommit? {
        Rollback(saved, marks);
        return false, true;
      }
      return true, false;
    }

    /** `reserveHandler`: checks what is available against what is asked, then reserves it. */
    method ReserveHandler(r: Request, fault: Fault) returns (ok: bool)
      modifies this`users, this`positions
      ensures ok <==> ReserveFunds(old(Db()), r).Applied? && !fault.AtCommit?
      ensures Db() == if ok then ReserveFunds(old(Db()), r).ledger else old(Db())
    {
      var saved := Db();
      if r.side.Buy? {
        if r.user !in users { return false; }
        var cost := r.amount;
        if cost <= 0 {
          var exact := CostFor(r.price, r.quantity);
          if exact.Err? { return false; }
          cost := exact.value;
        }
        var available := users[r.user].held - users[r.user].reserved;
        if available < cost { return false; }
        users := users[r.user := users[r.user].(reserved := users[r.user].reserved + cost)];
      } else {
        var position := (r.user, r.symbol);
        if position !in positions { return false; }
        var available := positions[position].held - positions[position].reserved;
        var quantity := r.amount;
        if quantity <= 0 { quantity := r.quantity; }
        if available < quantity { return false; }
        positions := positions[position := positions[position].(reserved := positions[position].reserved + quantity)];
      }
      if fault.AtCommit? {
        users, positions := saved.users, saved.positions;
        return false;
      }
      return true;
    }

    /** `releaseHandler`: what the order's row reserves, or without a row what is asked, goes back. */
    method ReleaseHandler(id: Id, r: Request, fault: Fault) returns (ok: bool)
      modifies this`users, this`positions, this`rows
      ensures ok <==> ReleaseRequest(old(Db()), id, r).Applied? && !fault.AtCommit?
      ensures Db() == if ok then ReleaseRequest(old(Db()), id, r).ledger else old(Db())
    {
      var saved := Db();
      if r.side.Buy? {
        if r.user !in users { return false; }
        var cost := r.amount;
        if cost <= 0 {
          var exact := CostFor(r.price, r.quantity);
          if exact.Err? { return false; }
          cost := exact.value;
        }
        if id in rows {
          cost := rows[id].reserved;
          rows := rows[id := rows[id].(reserved := 0)];
        }
        if users[r.user].reserved < cost {
          rows := saved.rows;
          return false;
        }
        users := users[r.user := users[r.user].(reserved := users[r.user].reserved - cost)];
      } else {
        var position := (r.user, r.symbol);
        if position !in positions { return false; }
        var quantity := r.amount;
        if id in rows {
          quantity := rows[id].reserved;
          rows := rows[id := rows[id].(reserved := 0)];
        }
        if quantity <= 0 { quantity := r.quantity; }
        if positions[position].reserved < quantity {
          rows := saved.rows;
          return false;
        }
        positions := positions[position := positions[position].(reserved := positions[position].reserved - quantity)];
      }
      if fault.AtCommit? {
        users, positions, rows := saved.users, saved.positions, saved.rows;
        return false;
      }
      return true;
    }
  }
}
