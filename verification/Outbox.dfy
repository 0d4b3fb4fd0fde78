/**
  The outbox table and the relay that moves its rows to the broker. One relay's pass is here;
  any number of relays, commits and crashes, interleaved, are in `Relays`.
*/
module Outbox {
  import opened Model

  const MAX_DLQ_ATTEMPTS := 10
  const CLAIM_SECONDS := 30

  datatype Claim = Unclaimed | ClaimedAt(time: int)

  datatype OutboxRow = OutboxRow(
    topic: string,
    created: int,
    published: bool,
    attempts: nat,
    nextAttempt: int,
    claim: Claim)

  type Rows = map<Id, OutboxRow>

  /** What the relay read when it claimed a row; it may be out of date when the relay comes to use it. */
  datatype Claimed = Claimed(id: Id, topic: string, attempts: nat)

  /** One message on the broker: the topic and the event it carries. */
  type Message = (string, Id)

  /** A write to the broker: acknowledged, refused, or arrived although the relay was told that it failed. */
  datatype Written = Acked | Refused | Unheard

  /** How the world treats the relay while it handles one event. */
  datatype Weather = Weather(write: Written, records: bool, crash: CrashPoint)

  datatype CrashPoint = NoCrash | BeforeWrite | AfterWrite

  function DlqTopic(topic: string): string {
    topic + "-dlq"
  }

  /** `writerForTopic` knows four topics. */
  predicate HasWriter(topic: string) {
    topic in {"trades", "trades-dlq", "order-events", "order-events-dlq"}
  }

  /** The topics that events are enqueued for. */
  predicate Routed(topic: string) {
    topic in {"trades", "order-events"}
  }

  lemma RoutedHasWriters(topic: string)
    requires Routed(topic)
    ensures HasWriter(topic) && HasWriter(DlqTopic(topic))
  {
    assert DlqTopic("trades") == "trades-dlq";
    assert DlqTopic("order-events") == "order-events-dlq";
  }

  // ---------------------------------------------------------------- backoff

  function Shift(n: nat): nat {
    if n == 0 then 1 else 2 * Shift(n - 1)
  }

  /** Seconds to wait after the given number of failures. */
  function Backoff(attempt: int): int {
    var n := if attempt < 0 then 0 else if attempt > 5 then 5 else attempt;
    Shift(n)
  }

  lemma {:induction false} ShiftMonotone(a: nat, b: nat)
    requires a <= b
    ensures 1 <= Shift(a) <= Shift(b)
    ensures a < b ==> 2 * Shift(a) <= Shift(b)
  {
    if a < b {
      ShiftMonotone(a, b - 1);
    } else if a > 0 {
      ShiftMonotone(a - 1, a - 1);
    }
  }

  /** The wait never shrinks, stays within 1 and 32 seconds, and stops growing exactly after five failures. */
  lemma BackoffLaws(a: int, b: int)
    requires a <= b
    ensures 1 <= Backoff(a) <= Backoff(b) <= 32
    ensures Backoff(a) == 32 <==> a >= 5
    ensures 0 <= a < b <= 5 ==> 2 * Backoff(a) <= Backoff(b)
  {
    var x := if a < 0 then 0 else if a > 5 then 5 else a;
    var y := if b < 0 then 0 else if b > 5 then 5 else b;
    ShiftMonotone(x, y);
    ShiftMonotone(y, 5);
    ShiftMonotone(x, 5);
    assert Shift(5) == 32 by { assert Shift(3) == 8; }
  }

  // ---------------------------------------------------------------- the statements

  /** MarkOutboxEventPublished: a row already published is left alone. */
  function MarkPublished(rows: Rows, id: Id): Rows {
    if id in rows && !rows[id].published then
      rows[id := rows[id].(published := true, claim := Unclaimed)]
    else rows
  }

  /** RecordOutboxPublishFailure. */
  function RecordFailure(rows: Rows, id: Id, nextAttempt: int): Rows {
    if id in rows && !rows[id].published then
      rows[id := rows[id].(attempts := rows[id].attempts + 1, nextAttempt := nextAttempt, claim := Unclaimed)]
    else rows
  }

  predicate Claimable(row: OutboxRow, now: int) {
    && !row.published
    && row.nextAttempt <= now
    && (row.claim.ClaimedAt? ==> row.claim.time < now - CLAIM_SECONDS)
  }

  function NewRow(topic: string, now: int): OutboxRow {
    OutboxRow(topic, now, false, 0, now, Unclaimed)
  }

  /** The topic an event is written to: its own, or from ten failures on the dead-letter topic. */
  function Target(event: Claimed): string {
    if event.attempts >= MAX_DLQ_ATTEMPTS then DlqTopic(event.topic) else event.topic
  }

  function Sent(sent: set<Message>, event: Claimed, write: Written): set<Message> {
    if write.Refused? then sent else sent + {(Target(event), event.id)}
  }

  /** What the relay does to the row after the write; `done` means that the statement succeeded. */
  function Recorded(rows: Rows, event: Claimed, acked: bool, done: bool, now: int): Rows {
    if !done then rows
    else if acked then MarkPublished(rows, event.id)
    else if event.attempts >= MAX_DLQ_ATTEMPTS then rows
    else RecordFailure(rows, event.id, now + Backoff(event.attempts))
  }

  /** The loop continues: always behind a dead letter, otherwise only after a success. */
  predicate GoesOn(event: Claimed, acked: bool, done: bool) {
    event.attempts >= MAX_DLQ_ATTEMPTS || (acked && done)
  }

  // ---------------------------------------------------------------- what every step keeps

  predicate Delivered(sent: set<Message>, topic: string, id: Id) {
    (topic, id) in sent || (DlqTopic(topic), id) in sent
  }

  /** A published row was written first. */
  ghost predicate Safe(rows: Rows, sent: set<Message>) {
    forall id | id in rows && rows[id].published :: Delivered(sent, rows[id].topic, id)
  }

  /** Rows are never removed, unpublished or renamed, attempts never drop, messages are never taken back. */
  ghost predicate Forward(rows: Rows, sent: set<Message>, rows': Rows, sent': set<Message>) {
    && rows.Keys <= rows'.Keys && sent <= sent'
    && forall id | id in rows ::
         && rows'[id].topic == rows[id].topic
         && (rows[id].published ==> rows'[id].published)
         && rows[id].attempts <= rows'[id].attempts
  }

  lemma ForwardChain(a: Rows, m: set<Message>, b: Rows, n: set<Message>, c: Rows, o: set<Message>)
    requires Forward(a, m, b, n) && Forward(b, n, c, o)
    ensures Forward(a, m, c, o)
  {
  }

  /** Claimed events are rows of the table, each once, with their topic; their attempts may have grown since. */
  ghost predicate Held(rows: Rows, events: seq<Claimed>) {
    && (forall i | 0 <= i < |events| ::
          && events[i].id in rows && rows[events[i].id].topic == events[i].topic
          && events[i].attempts <= rows[events[i].id].attempts)
    && (forall i, j | 0 <= i < j < |events| :: events[i].id != events[j].id)
  }

  lemma HeldForward(rows: Rows, sent: set<Message>, rows': Rows, sent': set<Message>, events: seq<Claimed>)
    requires Held(rows, events) && Forward(rows, sent, rows', sent')
    ensures Held(rows', events)
  {
  }

  lemma HeldOne(rows: Rows, event: Claimed)
    requires Held(rows, [event])
    ensures event.id in rows && rows[event.id].topic == event.topic
  {
    assert event == [event][0];
  }

  lemma HeldTail(rows: Rows, events: seq<Claimed>)
    requires Held(rows, events) && events != []
    ensures Held(rows, events[1..]) && Held(rows, [events[0]])
  {
  }

  /** Writing and then recording one held event is safe and moves forward, however old the claim is. */
  lemma OneEventSafe(rows: Rows, sent: set<Message>, event: Claimed, write: Written, done: bool, now: int)
    requires Safe(rows, sent) && Held(rows, [event])
    ensures Safe(rows, Sent(sent, event, write)) && Forward(rows, sent, rows, Sent(sent, event, write))
    ensures var rows' := Recorded(rows, event, write.Acked?, done, now);
      Safe(rows', Sent(sent, event, write)) && Forward(rows, Sent(sent, event, write), rows', Sent(sent, event, write))
  {
    assert event == [event][0];
    RecordedSafe(rows, Sent(sent, event, write), event, write.Acked?, done, now);
  }

  /** Recording is safe once an acknowledged message is on the broker. */
  lemma RecordedSafe(rows: Rows, sent: set<Message>, event: Claimed, acked: bool, done: bool, now: int)
    requires Safe(rows, sent) && event.id in rows && rows[event.id].topic == event.topic
    requires acked ==> (Target(event), event.id) in sent
    ensures var rows' := Recorded(rows, event, acked, done, now);
      Safe(rows', sent) && Forward(rows, sent, rows', sent) && rows'.Keys == rows.Keys
  {
  }

  // ---------------------------------------------------------------- claiming

  /** Not published, due, and not claimed within the last thirty seconds. */
  predicate IsFree(row: OutboxRow, now: int) {
    !row.published && row.nextAttempt <= now && (row.claim.Unclaimed? || row.claim.time + 30 < now)
  }

  predicate Claims(events: seq<Claimed>, id: Id) {
    exists i :: 0 <= i < |events| && events[i].id == id
  }

  lemma ClaimsGrow(events: seq<Claimed>, event: Claimed)
    ensures forall id :: Claims(events + [event], id) <==> Claims(events, id) || id == event.id
  {
    var longer := events + [event];
    assert longer[|events|] == event;
    assert forall i | 0 <= i < |events| :: longer[i] == events[i];
  }

  /** `events` were due and are now claimed, as the rows are; nothing else changed. */
  ghost predicate Takes(rows: Rows, rows': Rows, events: seq<Claimed>, now: int) {
    && Held(rows, events)
    && rows'.Keys == rows.Keys
    && (forall i | 0 <= i < |events| :: events[i].attempts == rows[events[i].id].attempts)
    && (forall id | id in rows ::
          rows'[id] == if Claims(events, id) then rows[id].(claim := ClaimedAt(now)) else rows[id])
    && (forall id | id in rows && Claims(events, id) :: Claimable(rows[id], now))
  }

  /** What is due and not claimed is no older than anything claimed. */
  ghost predicate OldestFirst(rows: Rows, events: seq<Claimed>, now: int) {
    forall i, id | 0 <= i < |events| && id in rows && Claimable(rows[id], now) && !Claims(events, id) ::
      events[i].id in rows && rows[events[i].id].created <= rows[id].created
  }

  ghost predicate ClaimsAllDue(rows: Rows, events: seq<Claimed>, now: int) {
    forall id | id in rows && Claimable(rows[id], now) :: Claims(events, id)
  }

  /** What is due is claimed or still `due`, and what is still due is no older than anything claimed. */
  ghost predicate Splits(rows: Rows, events: seq<Claimed>, due: set<Id>, now: int) {
    && due <= rows.Keys
    && (forall id | id in rows && Claimable(rows[id], now) :: id in due || Claims(events, id))
    && (forall id | id in due :: Claimable(rows[id], now) && !Claims(events, id))
    && (forall i, id | 0 <= i < |events| && id in due ::
          events[i].id in rows && rows[events[i].id].created <= rows[id].created)
  }

  lemma SplitsMore(rows: Rows, events: seq<Claimed>, due: set<Id>, id: Id, now: int)
    requires Splits(rows, events, due, now) && id in due
    requires forall other | other in due :: rows[id].created <= rows[other].created
    ensures Splits(rows, events + [Claimed(id, rows[id].topic, rows[id].attempts)], due - {id}, now)
  {
    hide Claims, Claimable;
    var event := Claimed(id, rows[id].topic, rows[id].attempts);
    ClaimsGrow(events, event);
  }

  lemma SplitsEnd(rows: Rows, events: seq<Claimed>, due: set<Id>, now: int)
    requires Splits(rows, events, due, now)
    ensures OldestFirst(rows, events, now) && (due == {} ==> ClaimsAllDue(rows, events, now))
  {
    hide Claims, Claimable;
  }

  lemma TakesNothing(rows: Rows, now: int)
    ensures Takes(rows, rows, [], now) && forall id :: !Claims([], id)
  {
  }

  lemma TakesMore(rows: Rows, rows': Rows, events: seq<Claimed>, id: Id, now: int)
    requires Takes(rows, rows', events, now) && id in rows && !Claims(events, id) && Claimable(rows[id], now)
    ensures id in rows' && rows'[id] == rows[id]
    ensures Takes(rows, rows'[id := rows[id].(claim := ClaimedAt(now))],
                  events + [Claimed(id, rows[id].topic, rows[id].attempts)], now)
  {
    var event := Claimed(id, rows[id].topic, rows[id].attempts);
    ClaimsGrow(events, event);
    var longer := events + [event];
    forall i | 0 <= i < |events| ensures longer[i] == events[i] && events[i].id != id && Claims(events, events[i].id) {
    }
    hide Claims;
  }

  /** Claiming touches nothing that safety is about. */
  lemma ClaimsAreSafe(rows: Rows, rows': Rows, sent: set<Message>, events: seq<Claimed>, now: int)
    requires Takes(rows, rows', events, now)
    ensures Forward(rows, sent, rows', sent) && (Safe(rows, sent) ==> Safe(rows', sent))
  {
    hide Held, Claims, Claimable;
  }

  /** The oldest of some rows. */
  method OldestOf(rows: Rows, ids: set<Id>) returns (oldest: Id)
    requires ids != {} && ids <= rows.Keys
    ensures oldest in ids && forall id | id in ids :: rows[oldest].created <= rows[id].created
  {
    oldest :| oldest in ids;
    var rest := ids - {oldest};
    while rest != {}
      invariant rest <= ids && oldest in ids
      invariant forall id | id in ids - rest :: rows[oldest].created <= rows[id].created
      decreases rest
    {
      var id :| id in rest;
      rest := rest - {id};
      if rows[id].created < rows[oldest].created { oldest := id; }
    }
  }

  // ---------------------------------------------------------------- one pass of a relay

  predicate Calm(weather: Weather) {
    weather.write.Acked? && weather.records && weather.crash.NoCrash?
  }

  predicate AllRouted(rows: Rows) {
    forall id | id in rows :: Routed(rows[id].topic)
  }

  ghost predicate Published(rows: Rows, events: seq<Claimed>) {
    forall i | 0 <= i < |events| :: events[i].id in rows && rows[events[i].id].published
  }

  lemma PublishedForward(rows: Rows, sent: set<Message>, rows': Rows, sent': set<Message>, events: seq<Claimed>)
    requires Published(rows, events) && Forward(rows, sent, rows', sent')
    ensures Published(rows', events)
  {
  }

  lemma PublishedNext(rows: Rows, events: seq<Claimed>, i: nat)
    requires i < |events| && Published(rows, events[..i]) && events[i].id in rows && rows[events[i].id].published
    ensures Published(rows, events[..i + 1])
  {
    forall k | 0 <= k < i ensures events[..i][k] == events[k] {
    }
  }

  /** A claimed event has the topic of its row. */
  lemma TakenEvents(rows: Rows, rows': Rows, events: seq<Claimed>, now: int)
    requires Takes(rows, rows', events, now)
    ensures Held(rows', events) && Published(rows', [])
    ensures AllRouted(rows) ==> forall i | 0 <= i < |events| :: Routed(events[i].topic)
  {
    hide Routed, Claims, Claimable;
  }

  /** What commits and other relays do between two steps of this one: anything safe that moves forward. */
  type Others = (nat, Rows, set<Message>) -> (Rows, set<Message>)

  ghost predicate Tolerable(others: Others) {
    forall i, rows, sent | Safe(rows, sent) ::
      var next := others(i, rows, sent);
      Safe(next.0, next.1) && Forward(rows, sent, next.0, next.1)
  }

  class Relay {
    var rows: Rows
    var sent: set<Message>

    ghost predicate Valid()
      reads this
    {
      Safe(rows, sent)
    }

    constructor ()
      ensures Valid() && rows == map[] && sent == {}
    {
      rows, sent := map[], {};
    }

    /** enqueueOutboxEvent, inside the transaction that makes the event. */
    method Enqueue(id: Id, topic: string, now: int)
      requires Valid() && id !in rows
      modifies this
      ensures Valid() && Forward(old(rows), old(sent), rows, sent)
      ensures rows == old(rows)[id := NewRow(topic, now)] && sent == old(sent)
    {
      rows := rows[id := NewRow(topic, now)];
    }

    /** ClaimPendingOutboxEvents: the oldest due rows, at most `limit`, and all of them if they are fewer. */
    method ClaimPending(now: int, limit: nat) returns (events: seq<Claimed>)
      requires Valid()
      modifies this`rows
      ensures Valid() && Forward(old(rows), sent, rows, sent)
      ensures |events| <= limit && Takes(old(rows), rows, events, now)
      ensures OldestFirst(old(rows), events, now)
      ensures |events| == limit || ClaimsAllDue(old(rows), events, now)
      ensures forall i | 0 <= i < |events| :: events[i].id in old(rows) && IsFree(old(rows)[events[i].id], now)
      ensures |events| == limit || forall id | id in old(rows) && IsFree(old(rows)[id], now) :: Claims(events, id)
    {
      hide Takes, Splits, OldestFirst, ClaimsAllDue, Safe, Forward;
      events := [];
      ghost var before := rows;
      var due := set id | id in rows && Claimable(rows[id], now);
      TakesNothing(rows, now);
      assert Splits(before, events, due, now) by { SplitsStart(before, due, now); }
      while due != {} && |events| < limit
        invariant |events| <= limit && due <= before.Keys && rows.Keys == before.Keys
        invariant forall id | id in due :: !Claims(events, id) && Claimable(before[id], now)
        invariant Takes(before, rows, events, now)
        invariant Splits(before, events, due, now)
        decreases due
      {
        UntakenAsBefore(before, rows, events, due, now);
        var id := OldestOf(rows, due);
        ClaimsGrow(events, Claimed(id, rows[id].topic, rows[id].attempts));
        TakesMore(before, rows, events, id, now);
        SplitsMore(before, events, due, id, now);
        events := events + [Claimed(id, rows[id].topic, rows[id].attempts)];
        rows := rows[id := rows[id].(claim := ClaimedAt(now))];
        due := due - {id};
      }
      SplitsEnd(before, events, due, now);
      ClaimsAreSafe(before, rows, sent, events, now);
      TakesFree(before, rows, events, now);
    }

    /**
      One event of the batch, whatever happened to its row since it was claimed. `stop` is the
      early return of the loop; a crash is a return that the process does not live to see.
    */
    method PublishOne(event: Claimed, now: int, weather: Weather) returns (stop: bool)
      requires Valid() && Held(rows, [event])
      modifies this
      ensures Valid() && Forward(old(rows), old(sent), rows, sent)
      ensures if weather.crash.BeforeWrite? || !HasWriter(Target(event)) then sent == old(sent) && rows == old(rows)
        else && sent == Sent(old(sent), event, weather.write)
             && rows == if weather.crash.AfterWrite? then old(rows)
                        else Recorded(old(rows), event, weather.write.Acked?, weather.records, now)
      ensures stop <==>
        if weather.crash.BeforeWrite? then true
        else if !HasWriter(Target(event)) then event.attempts < MAX_DLQ_ATTEMPTS
        else weather.crash.AfterWrite? || !GoesOn(event, weather.write.Acked?, weather.records)
      ensures Calm(weather) && event.topic in {"trades", "order-events"} ==>
        && !stop && event.id in rows && rows[event.id].published
        && (event.topic + (if event.attempts < 10 then "" else "-dlq"), event.id) in sent
      ensures weather.crash.NoCrash? && event.attempts >= 10 ==> !stop
      ensures (weather.crash.NoCrash? && weather.write.Acked? && !weather.records && event.attempts < 10) ==>
        stop && rows == old(rows)
      ensures event.id in old(rows)
      ensures (weather.crash.NoCrash? && weather.records && !weather.write.Acked? && event.attempts < 10
               && event.topic in {"trades", "order-events"} && !old(rows)[event.id].published) ==>
        && stop && event.id in rows
        && rows[event.id] == old(rows)[event.id].(attempts := old(rows)[event.id].attempts + 1,
                                                 nextAttempt := now + Backoff(event.attempts), claim := Unclaimed)
    {
      OneEventSafe(rows, sent, event, weather.write, weather.records, now);
      HeldOne(rows, event);
      if Routed(event.topic) { RoutedHasWriters(event.topic); }
      assert event.topic + "" == event.topic;
      if weather.crash.BeforeWrite? { return true; }
      if event.attempts >= MAX_DLQ_ATTEMPTS {
        var dlq := DlqTopic(event.topic);
        if HasWriter(dlq) {
          if !weather.write.Refused? { sent := sent + {(dlq, event.id)}; }
          if weather.crash.AfterWrite? { return true; }
          if weather.write.Acked? && weather.records { rows := MarkPublished(rows, event.id); }
        }
        return false;
      }
      if !HasWriter(event.topic) { return true; }
      if !weather.write.Refused? { sent := sent + {(event.topic, event.id)}; }
      if weather.crash.AfterWrite? { return true; }
      if !weather.write.Acked? {
        if weather.records { rows := RecordFailure(rows, event.id, now + Backoff(event.attempts)); }
        return true;
      }
      if !weather.records { return true; }
      rows := MarkPublished(rows, event.id);
      return false;
    }

    /**
      publishPendingTradeEvents, with failures and a crash wherever the weather puts them, and
      with commits and other relays at work between its steps. A calm pass publishes everything
      it claimed.
    */
    method PublishPending(now: int, limit: nat, weather: nat -> Weather, others: Others)
      returns (ghost events: seq<Claimed>)
      requires Valid() && Tolerable(others)
      modifies this
      ensures Valid() && Forward(old(rows), old(sent), rows, sent)
      ensures OldestFirst(old(rows), events, now)
      ensures |events| == limit || ClaimsAllDue(old(rows), events, now)
      ensures AllRouted(old(rows)) && (forall i :: Calm(weather(i))) ==> Published(rows, events)
    {
      hide Safe, Calm, Routed, Published, OldestFirst, ClaimsAllDue, Takes, AllRouted, Held, Forward, Recorded, Sent,
        HasWriter, Tolerable;
      var claimed := ClaimPending(now, limit);
      events := claimed;
      ghost var calm := AllRouted(old(rows)) && forall k :: Calm(weather(k));
      TakenEvents(old(rows), rows, claimed, now);
      assert claimed[..0] == [] && claimed[0..] == claimed;
      var i := 0;
      while i < |claimed|
        invariant 0 <= i <= |claimed| && Valid()
        invariant Forward(old(rows), old(sent), rows, sent)
        invariant Held(rows, claimed[i..])
        invariant calm ==> Published(rows, claimed[..i])
      {
        ghost var before, sentBefore := rows, sent;
        rows, sent := others(i, rows, sent).0, others(i, rows, sent).1;
        OthersMove(others, i, before, sentBefore);
        HeldForward(before, sentBefore, rows, sent, claimed[i..]);
        ForwardChain(old(rows), old(sent), before, sentBefore, rows, sent);
        if calm { PublishedForward(before, sentBefore, rows, sent, claimed[..i]); }

        before, sentBefore := rows, sent;
        assert claimed[i..][0] == claimed[i] && claimed[i..][1..] == claimed[i + 1..];
        HeldTail(rows, claimed[i..]);
        var stop := PublishOne(claimed[i], now, weather(i));
        ForwardChain(old(rows), old(sent), before, sentBefore, rows, sent);
        if calm {
          CalmPublishes(before, claimed[i], weather(i), now);
          PublishedForward(before, sentBefore, rows, sent, claimed[..i]);
          PublishedNext(rows, claimed, i);
        }
        if stop { return; }
        HeldForward(before, sentBefore, rows, sent, claimed[i + 1..]);
        i := i + 1;
      }
      assert claimed[..i] == claimed;
    }
  }

  lemma TakesFree(rows: Rows, rows': Rows, events: seq<Claimed>, now: int)
    requires Takes(rows, rows', events, now)
    ensures forall i | 0 <= i < |events| :: events[i].id in rows && IsFree(rows[events[i].id], now)
    ensures ClaimsAllDue(rows, events, now) <==> forall id | id in rows && IsFree(rows[id], now) :: Claims(events, id)
  {
    forall i | 0 <= i < |events| ensures Claims(events, events[i].id) {
    }
    hide Claims;
  }

  lemma SplitsStart(rows: Rows, due: set<Id>, now: int)
    requires due == set id | id in rows && Claimable(rows[id], now)
    ensures Splits(rows, [], due, now)
  {
  }

  lemma UntakenAsBefore(rows: Rows, rows': Rows, events: seq<Claimed>, due: set<Id>, now: int)
    requires Takes(rows, rows', events, now) && due <= rows.Keys && forall id | id in due :: !Claims(events, id)
    ensures forall id | id in due :: id in rows' && rows'[id] == rows[id]
  {
    hide Claims;
  }

  lemma OthersMove(others: Others, i: nat, rows: Rows, sent: set<Message>)
    requires Tolerable(others) && Safe(rows, sent)
    ensures var next := others(i, rows, sent);
      Safe(next.0, next.1) && Forward(rows, sent, next.0, next.1)
  {
    hide Safe, Forward;
  }

  /** In calm weather an event of a known topic ends up published and the pass goes on. */
  lemma CalmPublishes(rows: Rows, event: Claimed, weather: Weather, now: int)
    requires Calm(weather) && Routed(event.topic) && Held(rows, [event])
    ensures HasWriter(Target(event)) && weather.crash.NoCrash?
    ensures GoesOn(event, weather.write.Acked?, weather.records)
    ensures var rows' := Recorded(rows, event, weather.write.Acked?, weather.records, now);
      event.id in rows' && rows'[event.id].published
  {
    assert event == [event][0];
    RoutedHasWriters(event.topic);
  }
}
