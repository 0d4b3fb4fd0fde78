/** Laws of whole runs of the book: accounting, the uncrossed book and determinism. */
module Runs {
  import opened Model
  import opened Matching
  import opened Book

  /** `lives[i]` is the book before command i; `responses[i]` is what command i answered. */
  ghost predicate Run(lives: seq<Live>, commands: seq<Command>, responses: seq<Response>) {
    && |lives| == |commands| + 1
    && |responses| == |commands|
    && forall i | 0 <= i < |commands| :: Step(lives[i], commands[i], responses[i], lives[i + 1])
  }

  lemma {:induction false} RunKeepsUncrossed(lives: seq<Live>, commands: seq<Command>, responses: seq<Response>, n: nat)
    requires Run(lives, commands, responses) && n < |lives|
    requires WellFormed(lives[0]) && Uncrossed(lives[0])
    ensures WellFormed(lives[n]) && Uncrossed(lives[n])
  {
    if n > 0 {
      RunKeepsUncrossed(lives, commands, responses, n - 1);
      StepKeepsUncrossed(lives[n - 1], commands[n - 1], responses[n - 1], lives[n]);
    }
  }

  // ---------------------------------------------------------------- fill accounting

  function LeftIn(book: seq<Resting>, id: Id): int {
    if book == [] then 0
    else (if book[0].ticket.id == id then book[0].remaining else 0) + LeftIn(book[1..], id)
  }

  /** What is left of order `id` in the live set; nothing if it is not live. */
  ghost function Left(live: Live, id: Id): int
    requires WellFormed(live)
  {
    if exists x :: x in WithId(live, id) then
      var x :| x in WithId(live, id);
      x.remaining
    else 0
  }

  lemma LeftOf(live: Live, x: Resting)
    requires WellFormed(live) && x in live
    ensures Left(live, x.ticket.id) == x.remaining > 0
  {
    assert x in WithId(live, x.ticket.id);
  }

  lemma {:induction false} LeftInQueue(book: seq<Resting>, id: Id)
    requires Queue(book)
    ensures (forall x | x in book :: x.ticket.id != id) ==> LeftIn(book, id) == 0
    ensures forall x | x in book && x.ticket.id == id :: LeftIn(book, id) == x.remaining
    decreases |book|
  {
    if book != [] {
      LeftInQueue(book[1..], id);
      assert book == [book[0]] + book[1..];
      assert forall x | x in book :: x == book[0] || x in book[1..];
    }
  }

  /** A scan takes from each resting order exactly what its trades say, and from the incoming order all of it. */
  lemma {:induction false} ScanAccounts(t: Ticket, quantity: int, book: seq<Resting>, id: Id)
    requires forall x | x in book :: x.ticket.side != t.side && x.ticket.id != t.id
    ensures var o := Scan(t, quantity, book);
      if id == t.id then FilledIn(o.trades, id) == quantity - o.remaining
      else FilledIn(o.trades, id) == LeftIn(book, id) - LeftIn(o.book, id)
    decreases |book|
  {
    if quantity <= 0 || book == [] || !Crosses(t, book[0].ticket) {
    } else {
      assert book[0] in book;
      var o := Scan(t, quantity, book);
      if book[0].remaining <= quantity {
        var rest := Scan(t, quantity - book[0].remaining, book[1..]);
        ScanAccounts(t, quantity - book[0].remaining, book[1..], id);
        assert o.trades[1..] == rest.trades;
      } else {
        assert o.trades[1..] == [] && o.book[1..] == book[1..];
      }
    }
  }

  function CreatedBy(command: Command, id: Id): int {
    if command.Create? && command.ticket.id == id then command.ticket.quantity else 0
  }

  function FilledByStep(response: Response, id: Id): int {
    if response.Matched? then FilledIn(response.trades, id) else 0
  }

  function RemovedBy(command: Command, response: Response, id: Id): int {
    if command.Cancel? && command.id == id && response.Removed? then response.quantity else 0
  }

  lemma LeftAfterScan(live: Live, t: Ticket, quantity: int, book: seq<Resting>, id: Id)
    requires WellFormed(live) && Fresh(live, t.id) && quantity >= 0
    requires IsListing(book, Opposing(live, t))
    ensures WellFormed(AfterScan(live, t, quantity, book))
    ensures Left(live, id) + (if t.id == id then quantity else 0)
            == Left(AfterScan(live, t, quantity, book), id) + FilledIn(Scan(t, quantity, book).trades, id)
  {
    hide Scan, Queue, FilledIn, LeftIn;
    var o := Scan(t, quantity, book);
    var live' := AfterScan(live, t, quantity, book);
    CreateKeepsWellFormed(live, t, quantity, book);
    ListingIsQueue(live, t, book);
    ScanKeepsQueue(t, quantity, book);
    ScanConserves(t, quantity, book);
    ScanAccounts(t, quantity, book, id);
    LeftInQueue(book, id);
    LeftInQueue(o.book, id);
    if id == t.id {
      assert WithId(live, id) == {};
      if o.remaining > 0 {
        LeftOf(live', Resting(t, o.remaining));
      } else {
        assert forall x | x in o.book :: x.ticket.id != id;
        assert WithId(live', id) == {};
      }
    } else {
      var outside := live - Opposing(live, t);
      assert outside !! Elems(o.book);
      LeftSplits(live, outside, book, id);
      LeftSplits(live', outside, o.book, id);
    }
  }

  /** Splitting the live set into a set and a queue splits what is left of an order. */
  lemma LeftSplits(live: Live, outside: Live, book: seq<Resting>, id: Id)
    requires WellFormed(live) && WellFormed(outside) && Queue(book)
    requires WithId(live, id) == WithId(outside, id) + WithId(Elems(book), id)
    requires outside !! Elems(book)
    ensures Left(live, id) == Left(outside, id) + LeftIn(book, id)
  {
    LeftInQueue(book, id);
    if x :| x in WithId(outside, id) {
      assert x in WithId(live, id);
      forall y | y in book ensures y.ticket.id != id {
        assert y in Elems(book);
        assert y.ticket.id == id ==> y in WithId(live, id);
      }
      LeftOf(outside, x);
      LeftOf(live, x);
    } else if x :| x in book && x.ticket.id == id {
      assert x in Elems(book);
      assert x in WithId(live, id);
      LeftOf(live, x);
    } else {
      assert WithId(Elems(book), id) == {};
    }
  }

  /** One command moves quantity of an order only through its trades and its own cancel. */
  lemma StepAccounts(live: Live, command: Command, response: Response, live': Live, id: Id)
    requires WellFormed(live) && Step(live, command, response, live')
    ensures WellFormed(live')
    ensures Left(live, id) + CreatedBy(command, id)
            == Left(live', id) + FilledByStep(response, id) + RemovedBy(command, response, id)
    ensures response.Matched? ==> forall trade | trade in response.trades :: trade.quantity > 0
  {
    match command
    case Create(t) =>
      var book :| CreatesWith(live, t, book, response, live');
      LeftAfterScan(live, t, t.quantity, book, id);
      ListingIsQueue(live, t, book);
      ScanFillsInOrder(t, t.quantity, book);
    case Cancel(gone) =>
      if gone == id {
        assert WithId(live', id) == {};
        if x :| x in WithId(live, id) { LeftOf(live, x); }
      } else {
        assert WithId(live', id) == WithId(live, id);
      }
  }

  function CreatedIn(commands: seq<Command>, id: Id): int {
    if commands == [] then 0 else CreatedBy(commands[0], id) + CreatedIn(commands[1..], id)
  }

  function FilledInRun(responses: seq<Response>, id: Id): int {
    if responses == [] then 0 else FilledByStep(responses[0], id) + FilledInRun(responses[1..], id)
  }

  function RemovedIn(commands: seq<Command>, responses: seq<Response>, id: Id): int
    requires |commands| == |responses|
  {
    if commands == [] then 0
    else RemovedBy(commands[0], responses[0], id) + RemovedIn(commands[1..], responses[1..], id)
  }

  /** Over every run: quantity brought in = quantity left + quantity filled + quantity cancelled, per order. */
  lemma {:induction false} RunAccounts(lives: seq<Live>, commands: seq<Command>, responses: seq<Response>, id: Id)
    requires Run(lives, commands, responses) && WellFormed(lives[0])
    ensures WellFormed(lives[|commands|])
    ensures Left(lives[0], id) + CreatedIn(commands, id)
            == Left(lives[|commands|], id) + FilledInRun(responses, id) + RemovedIn(commands, responses, id)
    decreases |commands|
  {
    if commands != [] {
      StepAccounts(lives[0], commands[0], responses[0], lives[1], id);
      assert Run(lives[1..], commands[1..], responses[1..]);
      RunAccounts(lives[1..], commands[1..], responses[1..], id);
    }
  }

  /** An order that is filled, cancelled or unknown, and is not created again, never trades again. */
  lemma {:induction false} GoneNeverTrades(lives: seq<Live>, commands: seq<Command>, responses: seq<Response>, id: Id, n: nat)
    requires Run(lives, commands, responses) && WellFormed(lives[0]) && Left(lives[0], id) == 0
    requires forall i | 0 <= i < |commands| :: CreatedBy(commands[i], id) == 0
    requires n < |commands| && responses[n].Matched?
    ensures WellFormed(lives[n + 1]) && Left(lives[n + 1], id) == 0
    ensures forall trade | trade in responses[n].trades :: trade.buyOrder != id && trade.sellOrder != id
  {
    if n > 0 {
      StayGone(lives, commands, responses, id, n);
    }
    StepAccounts(lives[n], commands[n], responses[n], lives[n + 1], id);
    LeftNonNegative(lives[n + 1], id);
    NoFillNoTrade(responses[n].trades, id);
  }

  lemma LeftNonNegative(live: Live, id: Id)
    requires WellFormed(live)
    ensures Left(live, id) >= 0
  {
  }

  lemma {:induction false} NoFillNoTrade(trades: seq<Trade>, id: Id)
    requires forall trade | trade in trades :: trade.quantity > 0
    ensures FilledIn(trades, id) >= 0
    ensures FilledIn(trades, id) == 0 ==> forall trade | trade in trades :: trade.buyOrder != id && trade.sellOrder != id
  {
    if trades != [] {
      assert trades[0] in trades;
      NoFillNoTrade(trades[1..], id);
      assert forall trade | trade in trades :: trade == trades[0] || trade in trades[1..];
    }
  }

  lemma {:induction false} StayGone(lives: seq<Live>, commands: seq<Command>, responses: seq<Response>, id: Id, n: nat)
    requires Run(lives, commands, responses) && WellFormed(lives[0]) && Left(lives[0], id) == 0
    requires forall i | 0 <= i < |commands| :: CreatedBy(commands[i], id) == 0
    requires n <= |commands|
    ensures WellFormed(lives[n]) && Left(lives[n], id) == 0
  {
    if n > 0 {
      StayGone(lives, commands, responses, id, n - 1);
      StepAccounts(lives[n - 1], commands[n - 1], responses[n - 1], lives[n], id);
      LeftNonNegative(lives[n], id);
      if responses[n - 1].Matched? { NoFillNoTrade(responses[n - 1].trades, id); }
      if commands[n - 1].Cancel? && commands[n - 1].id == id {
        assert WithId(lives[n], id) == {};
      }
    }
  }

  // ---------------------------------------------------------------- determinism

  function TicketsOf(live: Live): set<Ticket> {
    set x | x in live :: x.ticket
  }

  function Submitted(commands: seq<Command>): set<Ticket> {
    set i | 0 <= i < |commands| && commands[i].Create? :: commands[i].ticket
  }

  /** Two different orders of one side of one symbol never share both price and time. */
  ghost predicate UniqueKeys(tickets: set<Ticket>) {
    forall a, b | a in tickets && b in tickets && a != b && a.symbol == b.symbol && a.side == b.side ::
      a.price != b.price || a.created != b.created
  }

  lemma UniqueKeysDistinct(live: Live, t: Ticket)
    requires WellFormed(live) && UniqueKeys(TicketsOf(live))
    ensures DistinctKeys(Opposing(live, t))
  {
    forall x, y | x in Opposing(live, t) && y in Opposing(live, t) && x != y
      ensures x.ticket.price != y.ticket.price || x.ticket.created != y.ticket.created
    {
      assert x.ticket in TicketsOf(live) && y.ticket in TicketsOf(live);
    }
  }

  /** With unique keys a command has one possible outcome. */
  lemma StepDeterministic(live: Live, command: Command, r1: Response, r2: Response, l1: Live, l2: Live)
    requires WellFormed(live) && UniqueKeys(TicketsOf(live))
    requires Step(live, command, r1, l1) && Step(live, command, r2, l2)
    ensures r1 == r2 && l1 == l2
  {
    match command
    case Create(t) =>
      var b1 :| CreatesWith(live, t, b1, r1, l1);
      var b2 :| CreatesWith(live, t, b2, r2, l2);
      UniqueKeysDistinct(live, t);
      ListingUnique(b1, b2, Opposing(live, t), Opposite(t.side));
    case Cancel(id) =>
      if x :| x in WithId(live, id) {
        assert r1.quantity == x.remaining == r2.quantity;
      }
  }

  lemma StepTickets(live: Live, command: Command, response: Response, live': Live)
    requires WellFormed(live) && Step(live, command, response, live')
    ensures WellFormed(live')
    ensures TicketsOf(live') <= TicketsOf(live) + Submitted([command])
  {
    match command
    case Create(t) =>
      var book :| CreatesWith(live, t, book, response, live');
      CreateKeepsWellFormed(live, t, t.quantity, book);
      Origins(live, t, t.quantity, book);
      assert [command][0] == command;
    case Cancel(id) =>
  }

  /**
    The live set decides the future: two runs from the same live set, given the same commands,
    answer the same trades in the same order and stay equal, as long as no two orders tie.
  */
  lemma {:induction false} SameBookSameFuture(
    a: seq<Live>, b: seq<Live>, commands: seq<Command>, ra: seq<Response>, rb: seq<Response>)
    requires Run(a, commands, ra) && Run(b, commands, rb) && a[0] == b[0] && WellFormed(a[0])
    requires UniqueKeys(TicketsOf(a[0]) + Submitted(commands))
    ensures a == b && ra == rb
    decreases |commands|
  {
    if commands != [] {
      StepDeterministic(a[0], commands[0], ra[0], rb[0], a[1], b[1]);
      StepTickets(a[0], commands[0], ra[0], a[1]);
      assert Submitted([commands[0]]) <= Submitted(commands) by {
        assert [commands[0]][0] == commands[0];
      }
      assert Submitted(commands[1..]) <= Submitted(commands) by {
        assert forall i | 0 <= i < |commands| - 1 :: commands[1..][i] == commands[i + 1];
      }
      SameBookSameFuture(a[1..], b[1..], commands[1..], ra[1..], rb[1..]);
      assert a == [a[0]] + a[1..] && b == [b[0]] + b[1..];
      assert ra == [ra[0]] + ra[1..] && rb == [rb[0]] + rb[1..];
    } else {
      assert ra == [] && rb == [];
    }
  }
}
