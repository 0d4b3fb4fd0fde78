/**
  Orders by id, as the engine's order map and the order table both hold them, and what a match
  makes of them.
*/
module Records {
  import opened Model
  import opened Matching
  import opened Book
  import opened Runs

  type View = map<Id, Record>

  ghost predicate Indexed(v: View) {
    forall id | id in v :: v[id].ticket.id == id && v[id].remaining >= 0
  }

  function LiveOf(v: View): Live {
    set id | id in v && v[id].remaining > 0 :: Resting(v[id].ticket, v[id].remaining)
  }

  /** A cancelled order has nothing left; any other status follows from the quantities. */
  predicate StatusFits(r: Record) {
    if r.status.Cancelled? then r.remaining == 0
    else r.status == StatusFor(r.remaining, r.ticket.quantity)
  }

  ghost predicate StatusesFit(v: View) {
    forall id | id in v :: StatusFits(v[id])
  }

  /** What a status tells about the quantities. */
  predicate StatusTells(r: Record) {
    match r.status
    case New => 0 < r.remaining && r.ticket.quantity <= r.remaining
    case PartiallyFilled => 0 < r.remaining < r.ticket.quantity
    case Filled => r.remaining == 0
    case Cancelled => r.remaining == 0
  }

  /** A status that fits tells the quantities, and for an order that is not cancelled they tell the status. */
  lemma FitIsTelling(v: View)
    requires Indexed(v)
    ensures StatusesFit(v) <==> forall id | id in v :: StatusTells(v[id])
  {
    forall id | id in v ensures StatusFits(v[id]) <==> StatusTells(v[id]) {
    }
  }

  /** `updateOrderStatus` on an order whose remaining quantity is now `remaining`. */
  function Updated(r: Record, remaining: int): Record {
    if r.status.Cancelled? then r.(remaining := remaining)
    else Record(r.ticket, if remaining <= 0 then 0 else remaining, StatusFor(remaining, r.ticket.quantity))
  }

  predicate Names(trade: Trade, id: Id) {
    trade.buyOrder == id || trade.sellOrder == id
  }

  predicate Mentioned(trades: seq<Trade>, id: Id) {
    exists trade | trade in trades :: Names(trade, id)
  }

  /** The orders after a match of order `id`: every order named by a trade loses what it traded. */
  function AfterMatch(v: View, id: Id, trades: seq<Trade>): View {
    map k | k in v ::
      if k == id || Mentioned(trades, k) then Updated(v[k], v[k].remaining - FilledIn(trades, k)) else v[k]
  }

  lemma LiveOfWellFormed(v: View)
    requires Indexed(v)
    ensures WellFormed(LiveOf(v))
    ensures forall id | id !in v :: Fresh(LiveOf(v), id)
  {
  }

  lemma LiveRecord(v: View, x: Resting)
    requires Indexed(v)
    ensures x in LiveOf(v)
            <==> x.ticket.id in v && v[x.ticket.id].ticket == x.ticket && v[x.ticket.id].remaining == x.remaining > 0
  {
  }

  lemma RemainingIsLeft(v: View, id: Id)
    requires Indexed(v) && id in v
    ensures WellFormed(LiveOf(v)) && v[id].remaining == Left(LiveOf(v), id)
  {
    LiveOfWellFormed(v);
    var live := LiveOf(v);
    if v[id].remaining > 0 {
      LeftOf(live, Resting(v[id].ticket, v[id].remaining));
    } else {
      assert WithId(live, id) == {};
    }
  }

  lemma {:induction false} UnmentionedUnfilled(trades: seq<Trade>, id: Id)
    requires !Mentioned(trades, id)
    ensures FilledIn(trades, id) == 0
  {
    if trades != [] {
      assert trades[0] in trades && !Names(trades[0], id);
      forall trade | trade in trades[1..] ensures !Names(trade, id) {
        assert trade in trades;
      }
      UnmentionedUnfilled(trades[1..], id);
    }
  }

  /** A record set whose live part is the scanned live set lost exactly the traded quantities. */
  lemma LostWhatTraded(v: View, v': View, t: Ticket, quantity: int, listing: seq<Resting>)
    requires Indexed(v) && Indexed(v') && t.id !in v && v'.Keys == v.Keys + {t.id} && quantity >= 0
    requires IsListing(listing, Opposing(LiveOf(v), t))
    requires LiveOf(v') == AfterScan(LiveOf(v), t, quantity, listing)
    ensures var trades := Scan(t, quantity, listing).trades;
      && (forall id | id in v :: v'[id].remaining == v[id].remaining - FilledIn(trades, id))
      && v'[t.id].remaining == quantity - FilledIn(trades, t.id)
  {
    hide AfterScan, FilledIn, LiveOf, Scan, IsListing, Left;
    var trades := Scan(t, quantity, listing).trades;
    LiveOfWellFormed(v);
    forall id | id in v' ensures v'[id].remaining
      == (if id == t.id then quantity else v[id].remaining) - FilledIn(trades, id)
    {
      LeftAfterScan(LiveOf(v), t, quantity, listing, id);
      RemainingIsLeft(v', id);
      if id in v {
        RemainingIsLeft(v, id);
      } else {
        NotLive(v, id);
      }
    }
  }

  lemma NotLive(v: View, id: Id)
    requires Indexed(v) && id !in v
    ensures WellFormed(LiveOf(v)) && Left(LiveOf(v), id) == 0
  {
    LiveOfWellFormed(v);
    assert WithId(LiveOf(v), id) == {};
  }

  /** Records whose remainders are those of a live set, ticket for ticket, have that live set. */
  lemma SameLive(v: View, live: Live)
    requires Indexed(v) && WellFormed(live)
    requires forall id | id in v :: v[id].remaining == Left(live, id)
    requires forall x | x in live :: x.ticket.id in v && v[x.ticket.id].ticket == x.ticket
    ensures LiveOf(v) == live
  {
    forall x ensures x in LiveOf(v) <==> x in live {
      if x in live {
        LeftOf(live, x);
      }
      if x in LiveOf(v) {
        assert Left(live, x.ticket.id) > 0;
        var y :| y in WithId(live, x.ticket.id);
        LeftOf(live, y);
      }
    }
  }

  lemma RecordAfterMatch(v: View, t: Ticket, listing: seq<Resting>, id: Id)
    requires Indexed(v) && StatusesFit(v) && t.id !in v && t.quantity > 0
    requires IsListing(listing, Opposing(LiveOf(v), t))
    requires id in v || id == t.id
    ensures WellFormed(AfterScan(LiveOf(v), t, t.quantity, listing))
    ensures var trades := Scan(t, t.quantity, listing).trades;
      var r := if id == t.id then Record(t, t.quantity, New) else v[id];
      var r' := AfterMatch(v[t.id := Record(t, t.quantity, New)], t.id, trades)[id];
      && r'.ticket == r.ticket && StatusFits(r')
      && r'.remaining == Left(AfterScan(LiveOf(v), t, t.quantity, listing), id) >= 0
  {
    hide AfterScan, Scan, IsListing, LiveOf, Left, FilledIn, Mentioned;
    var trades := Scan(t, t.quantity, listing).trades;
    LiveOfWellFormed(v);
    LeftAfterScan(LiveOf(v), t, t.quantity, listing, id);
    if id == t.id { NotLive(v, id); } else { RemainingIsLeft(v, id); }
    LeftNonNegative(AfterScan(LiveOf(v), t, t.quantity, listing), id);
    if !Mentioned(trades, id) { UnmentionedUnfilled(trades, id); }
    FillsPositive(LiveOf(v), t, t.quantity, listing, id);
  }

  lemma FillsPositive(live: Live, t: Ticket, quantity: int, listing: seq<Resting>, id: Id)
    requires WellFormed(live) && IsListing(listing, Opposing(live, t))
    ensures FilledIn(Scan(t, quantity, listing).trades, id) >= 0
  {
    ListingIsQueue(live, t, listing);
    ScanFillsInOrder(t, quantity, listing);
    NoFillNoTrade(Scan(t, quantity, listing).trades, id);
  }

  /** Conversely, subtracting the traded quantities gives the scanned live set. */
  lemma MatchScansLive(v: View, t: Ticket, listing: seq<Resting>)
    requires Indexed(v) && StatusesFit(v) && t.id !in v && t.quantity > 0
    requires IsListing(listing, Opposing(LiveOf(v), t))
    ensures var trades := Scan(t, t.quantity, listing).trades;
      var v' := AfterMatch(v[t.id := Record(t, t.quantity, New)], t.id, trades);
      && Indexed(v') && StatusesFit(v')
      && LiveOf(v') == AfterScan(LiveOf(v), t, t.quantity, listing)
  {
    hide Scan, IsListing, Left, FilledIn, Mentioned;
    var v' := AfterMatch(v[t.id := Record(t, t.quantity, New)], t.id, Scan(t, t.quantity, listing).trades);
    var live' := AfterScan(LiveOf(v), t, t.quantity, listing);
    LiveOfWellFormed(v);
    CreateKeepsWellFormed(LiveOf(v), t, t.quantity, listing);
    forall id | id in v'
      ensures v'[id].ticket.id == id && StatusFits(v'[id]) && v'[id].remaining == Left(live', id) >= 0
    {
      RecordAfterMatch(v, t, listing, id);
    }
    forall x | x in live' ensures x.ticket.id in v' && v'[x.ticket.id].ticket == x.ticket {
      Origins(LiveOf(v), t, t.quantity, listing);
      RecordAfterMatch(v, t, listing, x.ticket.id);
    }
    SameLive(v', live');
  }

  /** The records whose status was recomputed from their current quantities. */
  function Recomputed(v: View, ids: set<Id>): View {
    map id | id in v :: if id in ids then Updated(v[id], v[id].remaining) else v[id]
  }

  lemma RecomputeNone(v: View)
    ensures Recomputed(v, {}) == v
  {
  }

  lemma RecomputeOneMore(v: View, done: set<Id>, id: Id)
    requires id !in done
    ensures Recomputed(Recomputed(v, done), {id}) == Recomputed(v, done + {id})
  {
  }

  /** The ids whose records a match of order `id` rewrites. */
  function Touched(v: View, id: Id, trades: seq<Trade>): set<Id> {
    set k | k in v && (k == id || Mentioned(trades, k))
  }

  /** `t` joined as a new order and no status or ticket changed. */
  ghost predicate OnlyQuantitiesMoved(v: View, v': View, t: Ticket) {
    && v'.Keys == v.Keys + {t.id}
    && (forall id | id in v && id != t.id :: v'[id].ticket == v[id].ticket && v'[id].status == v[id].status)
    && v'[t.id].ticket == t && v'[t.id].status == New
  }

  /** Matching in place and then recomputing statuses is exactly `AfterMatch`. */
  lemma RecomputedIsAfterMatch(v: View, v': View, t: Ticket, listing: seq<Resting>)
    requires Indexed(v) && Indexed(v') && t.id !in v && t.quantity > 0 && OnlyQuantitiesMoved(v, v', t)
    requires IsListing(listing, Opposing(LiveOf(v), t))
    requires LiveOf(v') == AfterScan(LiveOf(v), t, t.quantity, listing)
    ensures var trades := Scan(t, t.quantity, listing).trades;
      Recomputed(v', Touched(v', t.id, trades)) == AfterMatch(v[t.id := Record(t, t.quantity, New)], t.id, trades)
  {
    hide Scan, IsListing, AfterScan, LiveOf, FilledIn, Mentioned;
    var trades := Scan(t, t.quantity, listing).trades;
    var v1 := v[t.id := Record(t, t.quantity, New)];
    LostWhatTraded(v, v', t, t.quantity, listing);
    forall id | id in v1
      ensures Recomputed(v', Touched(v', t.id, trades))[id] == AfterMatch(v1, t.id, trades)[id]
    {
      if !Mentioned(trades, id) { UnmentionedUnfilled(trades, id); }
    }
  }

  /** The records after order `id` was cancelled in place. */
  function AfterCancel(v: View, id: Id): View
    requires id in v
  {
    v[id := Record(v[id].ticket, 0, Cancelled)]
  }

  lemma CancelRemovesLive(v: View, id: Id)
    requires Indexed(v) && StatusesFit(v) && id in v
    ensures Indexed(AfterCancel(v, id)) && StatusesFit(AfterCancel(v, id))
    ensures LiveOf(AfterCancel(v, id)) == LiveOf(v) - WithId(LiveOf(v), id)
  {
    var v' := AfterCancel(v, id);
    assert Indexed(v');
    forall x ensures x in LiveOf(v') <==> x in LiveOf(v) - WithId(LiveOf(v), id) {
      LiveRecord(v, x);
      LiveRecord(v', x);
    }
  }

  /** The live records of a list of rows, by id. */
  function ByIds(rows: seq<Record>): View {
    if rows == [] then map[]
    else if rows[|rows| - 1].remaining <= 0 then ByIds(rows[..|rows| - 1])
    else ByIds(rows[..|rows| - 1])[rows[|rows| - 1].ticket.id := rows[|rows| - 1]]
  }

  function OfSymbol(v: View, symbol: Symbol): View {
    map id | id in v && v[id].ticket.symbol == symbol :: v[id]
  }

  function NotOfSymbol(v: View, symbol: Symbol): View {
    map id | id in v && v[id].ticket.symbol != symbol :: v[id]
  }

  /** `v` without the records still to be copied. */
  function Done(v: View, pending: set<Id>): View {
    map id | id in v && id !in pending :: v[id]
  }

  lemma CopyOneMore(rest: View, v: View, pending: set<Id>, id: Id)
    requires id in v && id in pending && rest.Keys !! v.Keys
    ensures (rest + Done(v, pending))[id := v[id]] == rest + Done(v, pending - {id})
    ensures id !in rest + Done(v, pending)
  {
  }

  lemma CopyNone(rest: View, v: View)
    ensures rest + Done(v, v.Keys) == rest && rest + Done(v, {}) == rest + v
  {
  }

  lemma NextRow(rows: seq<Record>, i: nat)
    requires i < |rows|
    requires forall j, k | 0 <= j < k < |rows| :: rows[j].ticket.id != rows[k].ticket.id
    ensures ByIds(rows[..i + 1])
            == if rows[i].remaining <= 0 then ByIds(rows[..i]) else ByIds(rows[..i])[rows[i].ticket.id := rows[i]]
    ensures rows[i].ticket.id !in ByIds(rows[..i])
    ensures |ByIds(rows[..i + 1])| == |ByIds(rows[..i])| + if rows[i].remaining <= 0 then 0 else 1
  {
    assert rows[..i + 1][..i] == rows[..i];
    ByIdsKeys(rows[..i]);
  }

  lemma {:induction false} ByIdsHasAll(rows: seq<Record>)
    requires forall j, k | 0 <= j < k < |rows| :: rows[j].ticket.id != rows[k].ticket.id
    ensures forall j | 0 <= j < |rows| && rows[j].remaining > 0 ::
      rows[j].ticket.id in ByIds(rows) && ByIds(rows)[rows[j].ticket.id] == rows[j]
  {
    if rows != [] {
      var fewer := rows[..|rows| - 1];
      ByIdsHasAll(fewer);
      assert forall j | 0 <= j < |fewer| :: fewer[j] == rows[j];
    }
  }

  lemma {:induction false} ByIdsKeys(rows: seq<Record>)
    ensures forall id | id in ByIds(rows) ::
      exists j :: 0 <= j < |rows| && rows[j].ticket.id == id && rows[j].remaining > 0 && ByIds(rows)[id] == rows[j]
    ensures Indexed(ByIds(rows))
    ensures (forall j | 0 <= j < |rows| :: StatusFits(rows[j])) ==> StatusesFit(ByIds(rows))
  {
    if rows != [] {
      ByIdsKeys(rows[..|rows| - 1]);
    }
  }
}
