/**
  Row locks of concurrent portfolio transactions. A transaction asks for one row at a time and
  keeps what it has until it commits or rolls back; a row that another transaction holds makes
  it wait.
*/
module Locks {
  import opened Model
  import opened Ledgers
  import opened Portfolio
  import opened Terms

  datatype Resource =
    | AccountRow(user: Id)
    | OrderRow(order: Id, owner: Id)
    | PositionRow(owner: Id, symbol: Symbol)
    | MarkRow(mark: Mark)

  /** A script locks accounts first and rows under them, or it is a single lock. */
  datatype Kind = Guarded | Single

  datatype Tx = Tx(kind: Kind, todo: seq<Resource>, held: set<Resource>)

  type Txs = map<nat, Tx>

  // ---------------------------------------------------------------- what the code locks

  function Accounts(users: seq<Id>): seq<Resource> {
    seq(|users|, i requires 0 <= i < |users| => AccountRow(users[i]))
  }

  /** ApplyTrade, ApplyBuyerTrade, ApplySellerTrade, MarkEventProcessed. */
  function TradeScript(id: Id, t: Trade): Tx {
    Tx(Guarded,
       Accounts(AccountLocks(t))
       + [OrderRow(t.buyOrder, t.buyer), PositionRow(t.buyer, t.symbol),
          OrderRow(t.sellOrder, t.seller), PositionRow(t.seller, t.symbol), MarkRow((TradeGroup, id))],
       {})
  }

  /** ApplyOrderEvent for a cancellation, ReleaseOrderReservation, MarkEventProcessed. */
  function CancelScript(id: Id, t: Ticket): Tx {
    Tx(Guarded,
       [AccountRow(t.user), OrderRow(t.id, t.user)]
       + (if t.side.Buy? then [] else [PositionRow(t.user, t.symbol)])
       + [MarkRow((OrderEventGroup, id))],
       {})
  }

  /** reserveHandler: the user's row, or the position's. */
  function ReserveScript(t: Ticket): Tx {
    Tx(Single, [if t.side.Buy? then AccountRow(t.user) else PositionRow(t.user, t.symbol)], {})
  }

  // ---------------------------------------------------------------- ordered scripts

  predicate IsOwned(r: Resource) {
    r.OrderRow? || r.PositionRow?
  }

  /**
    Accounts are asked for in ascending order, above those held and before anything else; a row
    is asked for, and held, only together with its owner's account; the mark comes last.
  */
  ghost predicate Ordered(tx: Tx) {
    match tx.kind
    case Single => |tx.todo| <= 1 && (tx.held != {} ==> tx.todo == [])
    case Guarded =>
      && (forall i | 0 <= i < |tx.todo| && tx.todo[i].AccountRow? ::
            && (forall j | 0 <= j < i :: tx.todo[j].AccountRow? && tx.todo[j].user < tx.todo[i].user)
            && (forall r | r in tx.held :: r.AccountRow? && r.user < tx.todo[i].user))
      && (forall i | 0 <= i < |tx.todo| && IsOwned(tx.todo[i]) ::
            AccountRow(tx.todo[i].owner) in tx.held || AccountRow(tx.todo[i].owner) in tx.todo[..i])
      && (forall r | r in tx.held && IsOwned(r) :: AccountRow(r.owner) in tx.held)
      && (forall i | 0 <= i < |tx.todo| && tx.todo[i].MarkRow? :: i == |tx.todo| - 1)
      && (forall r | r in tx.held && r.MarkRow? :: tx.todo == [])
  }

  lemma ScriptItem(users: seq<Id>, rows: seq<Resource>, mark: Resource, i: nat)
    requires forall r | r in rows :: IsOwned(r) && r.owner in users
    requires mark.MarkRow?
    requires i < |users| + |rows| + 1
    ensures var todo := Accounts(users) + rows + [mark];
      && (i < |users| ==> todo[i] == AccountRow(users[i]))
      && (|users| <= i < |users| + |rows| ==> IsOwned(todo[i]) && AccountRow(todo[i].owner) in todo[..i])
      && (i == |users| + |rows| ==> todo[i] == mark)
  {
    var todo := Accounts(users) + rows + [mark];
    var n := |users|;
    if n <= i < n + |rows| {
      assert todo[i] == rows[i - n] && rows[i - n] in rows;
      var k :| 0 <= k < n && users[k] == todo[i].owner;
      assert todo[..i][k] == AccountRow(todo[i].owner);
    }
  }

  /** Ascending accounts, then rows of those accounts, then one mark. */
  lemma GuardedScript(users: seq<Id>, rows: seq<Resource>, mark: Resource)
    requires forall i, j | 0 <= j < i < |users| :: users[j] < users[i]
    requires forall r | r in rows :: IsOwned(r) && r.owner in users
    requires mark.MarkRow?
    ensures Ordered(Tx(Guarded, Accounts(users) + rows + [mark], {}))
  {
    var todo := Accounts(users) + rows + [mark];
    forall i | 0 <= i < |todo|
      ensures i < |users| ==> todo[i] == AccountRow(users[i])
      ensures |users| <= i < |users| + |rows| ==> IsOwned(todo[i]) && AccountRow(todo[i].owner) in todo[..i]
      ensures i == |users| + |rows| ==> todo[i] == mark
    {
      ScriptItem(users, rows, mark, i);
    }
    hide Accounts;
  }

  lemma TradeOrdered(id: Id, t: Trade)
    ensures Ordered(TradeScript(id, t))
  {
    hide Ordered, Accounts;
    var rows := [OrderRow(t.buyOrder, t.buyer), PositionRow(t.buyer, t.symbol),
                 OrderRow(t.sellOrder, t.seller), PositionRow(t.seller, t.symbol)];
    var mark := MarkRow((TradeGroup, id));
    GuardedScript(AccountLocks(t), rows, mark);
    assert TradeScript(id, t).todo == Accounts(AccountLocks(t)) + rows + [mark];
  }

  lemma CancelOrdered(id: Id, t: Ticket)
    ensures Ordered(CancelScript(id, t))
  {
    hide Ordered;
    var rows := [OrderRow(t.id, t.user)] + (if t.side.Buy? then [] else [PositionRow(t.user, t.symbol)]);
    var mark := MarkRow((OrderEventGroup, id));
    GuardedScript([t.user], rows, mark);
    assert CancelScript(id, t).todo == Accounts([t.user]) + rows + [mark];
  }

  lemma ReserveOrdered(t: Ticket)
    ensures Ordered(ReserveScript(t))
  {
  }

  // ---------------------------------------------------------------- the scripts lock what is written

  /** A settlement holds every row it changes, and both orders and its mark. */
  lemma TradeScriptCovers(l: Ledger, id: Id, t: Trade)
    requires SettleTrade(l, t).Applied? && t.price * t.quantity >= 0
    ensures t.buyOrder in l.rows && t.sellOrder in l.rows
    ensures var l', todo := SettleTrade(l, t).ledger, TradeScript(id, t).todo;
      && (forall u | u in l.users && (u !in l'.users || l'.users[u] != l.users[u]) :: AccountRow(u) in todo)
      && (forall p | p in l'.positions && (p !in l.positions || l'.positions[p] != l.positions[p]) ::
            PositionRow(p.0, p.1) in todo)
      && (forall o | o in l.rows && (o !in l'.rows || l'.rows[o] != l.rows[o]) ::
            OrderRow(o, l.rows[o].ticket.user) in todo)
      && OrderRow(t.buyOrder, l.rows[t.buyOrder].ticket.user) in todo
      && OrderRow(t.sellOrder, l.rows[t.sellOrder].ticket.user) in todo
      && MarkRow((TradeGroup, id)) in todo
  {
    TradeScriptHolds(id, t);
    SettleOwners(l, t);
    SettleWrites(l, t);
    hide SettleTrade, TradeScript;
  }

  /** Only accounts, positions and orders of the two sides change. */
  lemma SettleWrites(l: Ledger, t: Trade)
    requires SettleTrade(l, t).Applied? && t.price * t.quantity >= 0
    ensures var l' := SettleTrade(l, t).ledger;
      && (forall u | u in l.users && (u !in l'.users || l'.users[u] != l.users[u]) :: u == t.buyer || u == t.seller)
      && (forall p | p in l'.positions && (p !in l.positions || l'.positions[p] != l.positions[p]) ::
            p == (t.buyer, t.symbol) || p == (t.seller, t.symbol))
      && (forall o | o in l.rows && (o !in l'.rows || l'.rows[o] != l.rows[o]) :: o == t.buyOrder || o == t.sellOrder)
  {
    hide SettleTrade;
    SettleTerms(l, t);
  }

  lemma TradeScriptHolds(id: Id, t: Trade)
    ensures var todo := TradeScript(id, t).todo;
      && AccountRow(t.buyer) in todo && AccountRow(t.seller) in todo
      && OrderRow(t.buyOrder, t.buyer) in todo && OrderRow(t.sellOrder, t.seller) in todo
      && PositionRow(t.buyer, t.symbol) in todo && PositionRow(t.seller, t.symbol) in todo
      && MarkRow((TradeGroup, id)) in todo
  {
    var todo := TradeScript(id, t).todo;
    var n := |AccountLocks(t)|;
    assert todo[0] == AccountRow(AccountLocks(t)[0]);
    assert n == 2 ==> todo[1] == AccountRow(AccountLocks(t)[1]);
    assert todo[n..] == [OrderRow(t.buyOrder, t.buyer), PositionRow(t.buyer, t.symbol),
                         OrderRow(t.sellOrder, t.seller), PositionRow(t.seller, t.symbol), MarkRow((TradeGroup, id))];
    assert forall r | r in todo[n..] :: r in todo;
  }

  lemma SettleOwners(l: Ledger, t: Trade)
    requires SettleTrade(l, t).Applied? && t.price * t.quantity >= 0
    ensures t.buyOrder in l.rows && l.rows[t.buyOrder].ticket.user == t.buyer
    ensures t.sellOrder in l.rows && l.rows[t.sellOrder].ticket.user == t.seller
  {
    hide BuyerLeg, SellerLeg;
    BuyerTerms(l, t);
    SellerTerms(BuyerLeg(l, t).ledger, t);
  }

  /** The release of a cancelled order holds every row it changes, the order and its mark. */
  lemma CancelScriptCovers(l: Ledger, id: Id, order: Id)
    requires order in l.rows && l.rows[order].ticket.id == order
    requires l.rows[order].reserved > 0 && ReleaseOrder(l, order).Applied?
    ensures var l', todo := ReleaseOrder(l, order).ledger, CancelScript(id, l.rows[order].ticket).todo;
      && (forall u | u in l.users && (u !in l'.users || l'.users[u] != l.users[u]) :: AccountRow(u) in todo)
      && (forall p | p in l'.positions && (p !in l.positions || l'.positions[p] != l.positions[p]) ::
            PositionRow(p.0, p.1) in todo)
      && (forall o | o in l.rows && (o !in l'.rows || l'.rows[o] != l.rows[o]) ::
            OrderRow(o, l.rows[o].ticket.user) in todo)
      && MarkRow((OrderEventGroup, id)) in todo
  {
    hide ReleaseOrder;
    ReleaseOrderTerms(l, order);
    var t := l.rows[order].ticket;
    var todo := CancelScript(id, t).todo;
    assert todo[0] == AccountRow(t.user) && todo[1] == OrderRow(t.id, t.user);
    assert t.side.Sell? ==> todo[2] == PositionRow(t.user, t.symbol);
    assert todo[|todo| - 1] == MarkRow((OrderEventGroup, id));
  }

  /** A reservation holds the one row it changes. */
  lemma ReserveScriptCovers(l: Ledger, t: Ticket, amount: int)
    requires amount > 0 && ReserveFunds(l, RequestFor(t, amount)).Applied?
    ensures var l', todo := ReserveFunds(l, RequestFor(t, amount)).ledger, ReserveScript(t).todo;
      && (forall u | u in l.users && (u !in l'.users || l'.users[u] != l.users[u]) :: AccountRow(u) in todo)
      && (forall p | p in l'.positions && (p !in l.positions || l'.positions[p] != l.positions[p]) ::
            PositionRow(p.0, p.1) in todo)
      && l'.rows == l.rows
  {
    assert ReserveScript(t).todo[0] == if t.side.Buy? then AccountRow(t.user) else PositionRow(t.user, t.symbol);
  }

  // ---------------------------------------------------------------- the lock manager

  ghost predicate Exclusive(txs: Txs) {
    forall a, b, r | a in txs && b in txs && a != b && r in txs[a].held :: r !in txs[b].held
  }

  ghost predicate Free(txs: Txs, n: nat, r: Resource) {
    forall m | m in txs && m != n :: r !in txs[m].held
  }

  /** The transaction can take its next lock, or has none left to take and can finish. */
  ghost predicate CanStep(txs: Txs, n: nat)
    requires n in txs
  {
    txs[n].todo == [] || Free(txs, n, txs[n].todo[0])
  }

  datatype Move = Begin(n: nat, tx: Tx) | Take(n: nat) | Finish(n: nat)

  ghost predicate Moves(txs: Txs, move: Move, txs': Txs) {
    match move
    case Begin(n, tx) => n !in txs && tx.held == {} && txs' == txs[n := tx]
    case Take(n) =>
      && n in txs && txs[n].todo != [] && Free(txs, n, txs[n].todo[0])
      && txs' == txs[n := txs[n].(todo := txs[n].todo[1..], held := txs[n].held + {txs[n].todo[0]})]
    case Finish(n) => n in txs && txs' == txs - {n}   // commit, or rollback at any point
  }

  ghost predicate Disciplined(txs: Txs) {
    Exclusive(txs) && forall n | n in txs :: Ordered(txs[n])
  }

  lemma TakeKeepsOrdered(tx: Tx)
    requires Ordered(tx) && tx.todo != []
    ensures Ordered(tx.(todo := tx.todo[1..], held := tx.held + {tx.todo[0]}))
  {
    var todo, held := tx.todo[1..], tx.held + {tx.todo[0]};
    if tx.kind.Guarded? {
      forall i | 0 <= i < |todo| && IsOwned(todo[i])
        ensures AccountRow(todo[i].owner) in held || AccountRow(todo[i].owner) in todo[..i]
      {
        assert todo[i] == tx.todo[i + 1];
        if AccountRow(todo[i].owner) in tx.todo[..i + 1] {
          var k :| 0 <= k < i + 1 && tx.todo[k] == AccountRow(todo[i].owner);
          if k > 0 { assert todo[..i][k - 1] == tx.todo[k]; }
        }
      }
      forall i | 0 <= i < |todo| ensures todo[i] == tx.todo[i + 1] {
      }
    }
  }

  lemma MovesKeepDiscipline(txs: Txs, move: Move, txs': Txs)
    requires Disciplined(txs) && Moves(txs, move, txs') && (move.Begin? ==> Ordered(move.tx))
    ensures Disciplined(txs')
  {
    if move.Take? { TakeKeepsOrdered(txs[move.n]); }
  }

  // ---------------------------------------------------------------- progress

  ghost predicate Stuck(txs: Txs) {
    Disciplined(txs) && forall n | n in txs :: !CanStep(txs, n)
  }

  /** Whoever is stuck waits for something another stuck transaction holds. */
  lemma Blocker(txs: Txs, n: nat) returns (m: nat)
    requires Stuck(txs) && n in txs
    ensures txs[n].todo != [] && m in txs && m != n && txs[n].todo[0] in txs[m].held
    ensures txs[m].todo != [] && txs[m].kind.Guarded?
    ensures Ordered(txs[m]) && Ordered(txs[n])
  {
    hide Ordered;
    assert !CanStep(txs, n);
    m :| m in txs && m != n && txs[n].todo[0] in txs[m].held;
    assert !CanStep(txs, m);
    SingleIsDone(txs[m]);
  }

  lemma SingleIsDone(tx: Tx)
    requires Ordered(tx) && tx.held != {} && tx.todo != []
    ensures tx.kind.Guarded?
  {
  }

  /** A guarded transaction holds the account of the row it asks for, and of every row it holds; marks end it. */
  lemma GuardedHolds(tx: Tx, r: Resource)
    requires Ordered(tx) && tx.kind.Guarded? && tx.todo != []
    ensures IsOwned(tx.todo[0]) ==> AccountRow(tx.todo[0].owner) in tx.held
    ensures IsOwned(r) && r in tx.held ==> AccountRow(r.owner) in tx.held
    ensures r in tx.held ==> !r.MarkRow?
    ensures tx.todo[0].AccountRow? && r in tx.held ==> r.AccountRow? && r.user < tx.todo[0].user
  {
    assert tx.todo[..0] == [];
  }

  /** So a stuck guarded transaction waits for an account, not for a row or a mark. */
  lemma StuckOnAccount(txs: Txs, n: nat)
    requires Stuck(txs) && n in txs && txs[n].kind.Guarded?
    ensures txs[n].todo != [] && txs[n].todo[0].AccountRow?
  {
    hide Ordered, CanStep;
    var m := Blocker(txs, n);
    var r := txs[n].todo[0];
    GuardedHolds(txs[n], r);
    GuardedHolds(txs[m], r);
  }

  /** The account it waits for is held by one that waits for a higher account. */
  lemma WaitsClimb(txs: Txs, n: nat) returns (m: nat)
    requires Stuck(txs) && n in txs && txs[n].kind.Guarded?
    ensures txs[n].todo != [] && txs[n].todo[0].AccountRow?
    ensures m in txs && txs[m].kind.Guarded? && txs[m].todo != [] && txs[m].todo[0].AccountRow?
    ensures txs[m].todo[0].user > txs[n].todo[0].user
  {
    hide Ordered, CanStep, Exclusive;
    m := Blocker(txs, n);
    StuckOnAccount(txs, n);
    StuckOnAccount(txs, m);
    GuardedHolds(txs[m], txs[n].todo[0]);
  }

  /** The account a guarded transaction waits for. */
  ghost function Wanted(txs: Txs, n: nat): int
    requires n in txs
  {
    if txs[n].kind.Guarded? && txs[n].todo != [] && txs[n].todo[0].AccountRow? then txs[n].todo[0].user else -1
  }

  /** Climbing from account to account would need infinitely many transactions. */
  lemma {:induction false} NoEndlessClimb(txs: Txs, n: nat, above: set<nat>)
    requires Stuck(txs) && n in txs && txs[n].kind.Guarded?
    requires forall m | m in txs && Wanted(txs, m) > Wanted(txs, n) :: m in above
    ensures false
    decreases |above|
  {
    hide Stuck;
    var m := WaitsClimb(txs, n);
    NoEndlessClimb(txs, m, above - {m});
  }

  /** No deadlock: among any number of transactions in flight, some one can take its next lock or finish. */
  lemma SomeoneCanStep(txs: Txs)
    requires Disciplined(txs) && txs != map[]
    ensures exists n :: n in txs && CanStep(txs, n)
  {
    if forall n | n in txs :: !CanStep(txs, n) {
      var n :| n in txs;
      var m := Blocker(txs, n);
      NoEndlessClimb(txs, m, txs.Keys);
    }
  }

  ghost predicate LockRun(runs: seq<Txs>, moves: seq<Move>) {
    && |runs| == |moves| + 1
    && runs[0] == map[]
    && forall i | 0 <= i < |moves| :: Moves(runs[i], moves[i], runs[i + 1])
  }

  lemma {:induction false} NeverDeadlocked(runs: seq<Txs>, moves: seq<Move>, n: nat)
    requires LockRun(runs, moves) && n < |runs|
    requires forall i | 0 <= i < |moves| && moves[i].Begin? :: Ordered(moves[i].tx)
    ensures Disciplined(runs[n])
    ensures runs[n] != map[] ==> exists k :: k in runs[n] && CanStep(runs[n], k)
  {
    if n > 0 {
      NeverDeadlocked(runs, moves, n - 1);
      MovesKeepDiscipline(runs[n - 1], moves[n - 1], runs[n]);
    }
    if runs[n] != map[] { SomeoneCanStep(runs[n]); }
  }

  /** A settlement that locks the buyer's account first and the seller's second, whatever their ids. */
  function NaiveScript(id: Id, t: Trade): Tx {
    Tx(Guarded,
       [AccountRow(t.buyer), AccountRow(t.seller),
        OrderRow(t.buyOrder, t.buyer), PositionRow(t.buyer, t.symbol),
        OrderRow(t.sellOrder, t.seller), PositionRow(t.seller, t.symbol), MarkRow((TradeGroup, id))],
       {})
  }

  function Took(tx: Tx): Tx
    requires tx.todo != []
  {
    tx.(todo := tx.todo[1..], held := tx.held + {tx.todo[0]})
  }

  /**
    The order matters. Without it, settling any two trades in which two users buy from each other
    can run into a state in which neither settlement can ever move.
  */
  lemma UnorderedDeadlocks(id1: Id, t1: Trade, id2: Id, t2: Trade) returns (runs: seq<Txs>, moves: seq<Move>)
    requires t1.buyer == t2.seller && t1.seller == t2.buyer && t1.buyer != t2.buyer
    ensures LockRun(runs, moves) && |moves| == 4
    ensures moves[0] == Begin(0, NaiveScript(id1, t1)) && moves[1] == Begin(1, NaiveScript(id2, t2))
    ensures runs[4].Keys == {0, 1} && forall n | n in runs[4] :: !CanStep(runs[4], n)
  {
    var a, b := NaiveScript(id1, t1), NaiveScript(id2, t2);
    var none: Txs := map[];
    var one, two: Txs := map[0 := a], map[0 := a, 1 := b];
    var three, stuck: Txs := map[0 := Took(a), 1 := b], map[0 := Took(a), 1 := Took(b)];
    assert one == none[0 := a] && two == one[1 := b];
    assert three == two[0 := Took(a)] && stuck == three[1 := Took(b)];
    runs, moves := [none, one, two, three, stuck], [Begin(0, a), Begin(1, b), Take(0), Take(1)];
    assert stuck[0].todo[0] == AccountRow(t1.seller) && AccountRow(t1.seller) in stuck[1].held;
    assert stuck[1].todo[0] == AccountRow(t2.seller) && AccountRow(t2.seller) in stuck[0].held;
  }
}
