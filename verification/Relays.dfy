/**
  The outbox in motion: transactions that commit events, and any number of relays that claim,
  write, record and crash, in any interleaving. Every statement of a relay is a step of its own,
  so a claim may be long out of date when the relay acts on it.
*/
module Relays {
  import opened Model
  import opened Outbox
  import Matching
  import Records
  import C = Consumer

  /** Where a relay is with the first event of its batch. */
  datatype Phase = Idle | Wrote(acked: bool)

  datatype Worker = Worker(batch: seq<Claimed>, phase: Phase)

  /** `log` is every event ever committed; an event's place in it stands for its id. */
  datatype World = World(log: seq<C.Event>, rows: Rows, sent: set<Message>, workers: seq<Worker>)

  datatype Action =
    | Commit(events: seq<C.Event>, now: int)
    | Claim(worker: nat, claims: seq<Claimed>, now: int)
    | Write(worker: nat, write: Written)
    | Note(worker: nat, done: bool, now: int)
    | Crash(worker: nat)

  function TopicOf(event: C.Event): string {
    if event.TradeMade? then "trades" else "order-events"
  }

  /** The rows of the events behind the first `base` of `log`. */
  function NewRows(log: seq<C.Event>, base: nat, now: int): Rows {
    map id: nat | base <= id < |log| :: NewRow(TopicOf(log[id]), now)
  }

  function Committed(w: World, events: seq<C.Event>, now: int): World {
    w.(log := w.log + events, rows := w.rows + NewRows(w.log + events, |w.log|, now))
  }

  function With(w: World, r: nat, batch: seq<Claimed>, phase: Phase): World
    requires r < |w.workers|
  {
    w.(workers := w.workers[r := Worker(batch, phase)])
  }

  /** `SKIP LOCKED` and the limit leave it open which due rows a claim takes. */
  ghost predicate ClaimStep(w: World, w': World, r: nat, events: seq<Claimed>, now: int) {
    && r < |w.workers| && w.workers[r] == Worker([], Idle)
    && Takes(w.rows, w'.rows, events, now)
    && w' == With(w, r, events, Idle).(rows := w'.rows)
  }

  ghost predicate WriteStep(w: World, w': World, r: nat, write: Written) {
    && r < |w.workers| && w.workers[r].batch != [] && w.workers[r].phase.Idle?
    && var batch := w.workers[r].batch;
      w' == if HasWriter(Target(batch[0])) then
              With(w, r, batch, Wrote(write.Acked?)).(sent := Sent(w.sent, batch[0], write))
            else With(w, r, if batch[0].attempts >= MAX_DLQ_ATTEMPTS then batch[1..] else [], Idle)
  }

  ghost predicate NoteStep(w: World, w': World, r: nat, done: bool, now: int) {
    && r < |w.workers| && w.workers[r].batch != [] && w.workers[r].phase.Wrote?
    && var batch, acked := w.workers[r].batch, w.workers[r].phase.acked;
      w' == With(w, r, if GoesOn(batch[0], acked, done) then batch[1..] else [], Idle)
            .(rows := Recorded(w.rows, batch[0], acked, done, now))
  }

  ghost predicate Acts(w: World, action: Action, w': World) {
    match action
    case Commit(events, now) => w' == Committed(w, events, now)
    case Claim(r, events, now) => ClaimStep(w, w', r, events, now)
    case Write(r, write) => WriteStep(w, w', r, write)
    case Note(r, done, now) => NoteStep(w, w', r, done, now)
    case Crash(r) => r < |w.workers| && w' == With(w, r, [], Idle)
  }

  function Start(k: nat): World {
    World([], map[], {}, seq(k, _ => Worker([], Idle)))
  }

  /** A run of `k` relays from an empty table. */
  ghost predicate Run(k: nat, worlds: seq<World>, actions: seq<Action>) {
    && |worlds| == |actions| + 1
    && worlds[0] == Start(k)
    && forall i | 0 <= i < |actions| :: Acts(worlds[i], actions[i], worlds[i + 1])
  }

  // ---------------------------------------------------------------- what every step keeps

  /** Every committed event has its row, and there is no other. */
  ghost predicate Logged(log: seq<C.Event>, rows: Rows) {
    && (forall id: Id :: id in rows <==> id < |log|)
    && (forall id | id in rows :: rows[id].topic == TopicOf(log[id]))
  }

  ghost predicate WorkerFits(rows: Rows, sent: set<Message>, worker: Worker) {
    && Held(rows, worker.batch)
    && (worker.phase.Wrote? ==> worker.batch != [])
    && (worker.phase == Wrote(true) ==> (Target(worker.batch[0]), worker.batch[0].id) in sent)
  }

  /** A message is an event on its topic, or on the dead-letter topic after ten failures. */
  predicate IsGenuine(rows: Rows, m: Message) {
    && m.1 in rows
    && (m.0 == rows[m.1].topic || (m.0 == DlqTopic(rows[m.1].topic) && rows[m.1].attempts >= MAX_DLQ_ATTEMPTS))
  }

  ghost predicate Genuine(rows: Rows, sent: set<Message>) {
    forall m | m in sent :: IsGenuine(rows, m)
  }

  ghost predicate Sure(w: World) {
    && Logged(w.log, w.rows) && Safe(w.rows, w.sent) && Genuine(w.rows, w.sent)
    && forall r | 0 <= r < |w.workers| :: WorkerFits(w.rows, w.sent, w.workers[r])
  }

  lemma WorkersForward(w: World, rows: Rows, sent: set<Message>)
    requires Sure(w) && Forward(w.rows, w.sent, rows, sent)
    ensures forall r | 0 <= r < |w.workers| :: WorkerFits(rows, sent, w.workers[r])
  {
    hide Held, Forward, Logged, Safe, Genuine;
    forall r | 0 <= r < |w.workers| ensures WorkerFits(rows, sent, w.workers[r]) {
      assert WorkerFits(w.rows, w.sent, w.workers[r]);
      HeldForward(w.rows, w.sent, rows, sent, w.workers[r].batch);
      assert w.sent <= sent by { SentForward(w.rows, w.sent, rows, sent); }
    }
  }

  lemma SentForward(rows: Rows, sent: set<Message>, rows': Rows, sent': set<Message>)
    requires Forward(rows, sent, rows', sent')
    ensures sent <= sent'
  {
  }

  lemma GenuineForward(rows: Rows, sent: set<Message>, rows': Rows)
    requires Genuine(rows, sent) && Forward(rows, sent, rows', sent)
    ensures Genuine(rows', sent)
  {
  }

  lemma CommitKeeps(w: World, events: seq<C.Event>, now: int)
    requires Sure(w)
    ensures Sure(Committed(w, events, now))
    ensures Forward(w.rows, w.sent, Committed(w, events, now).rows, w.sent)
  {
    hide WorkerFits, Genuine;
    var w' := Committed(w, events, now);
    CommittedRows(w, events, now);
    WorkersForward(w, w'.rows, w.sent);
    GenuineForward(w.rows, w.sent, w'.rows);
  }

  lemma CommittedRows(w: World, events: seq<C.Event>, now: int)
    requires Logged(w.log, w.rows)
    ensures var w' := Committed(w, events, now);
      && Logged(w'.log, w'.rows)
      && Forward(w.rows, w.sent, w'.rows, w.sent)
      && (Safe(w.rows, w.sent) ==> Safe(w'.rows, w.sent))
      && (forall id | id in w'.rows :: if id in w.rows then w'.rows[id] == w.rows[id] else w'.rows[id].attempts == 0)
  {
  }

  lemma ClaimKeeps(w: World, w': World, r: nat, events: seq<Claimed>, now: int)
    requires Sure(w) && ClaimStep(w, w', r, events, now)
    ensures Sure(w') && w'.sent == w.sent && Forward(w.rows, w.sent, w'.rows, w.sent)
  {
    hide Takes, Safe, Forward, Held, Genuine, Logged;
    ClaimsAreSafe(w.rows, w'.rows, w.sent, events, now);
    WorkersForward(w, w'.rows, w.sent);
    TakenEvents(w.rows, w'.rows, events, now);
    GenuineForward(w.rows, w.sent, w'.rows);
    LoggedTaken(w.log, w.rows, w'.rows, events, now);
  }

  lemma LoggedTaken(log: seq<C.Event>, rows: Rows, rows': Rows, events: seq<Claimed>, now: int)
    requires Logged(log, rows) && Takes(rows, rows', events, now)
    ensures Logged(log, rows')
  {
    hide Held, Claims, Claimable;
  }

  lemma WriteKeeps(w: World, w': World, r: nat, write: Written)
    requires Sure(w) && WriteStep(w, w', r, write)
    ensures Sure(w') && w'.rows == w.rows && Forward(w.rows, w.sent, w'.rows, w'.sent)
  {
    hide Held, Safe, Forward, Genuine, Logged, HasWriter, Sent;
    var batch := w.workers[r].batch;
    assert WorkerFits(w.rows, w.sent, w.workers[r]);
    HeldTail(w.rows, batch);
    HeldNothing(w.rows);
    ForwardSame(w.rows, w.sent);
    WriteSends(w.rows, w.sent, batch[0], write);
    WorkersForward(w, w'.rows, w'.sent);
  }

  lemma WriteSends(rows: Rows, sent: set<Message>, event: Claimed, write: Written)
    requires Held(rows, [event]) && Genuine(rows, sent) && Safe(rows, sent)
    ensures var sent' := Sent(sent, event, write);
      && Genuine(rows, sent') && Safe(rows, sent') && Forward(rows, sent, rows, sent')
      && (write.Acked? ==> (Target(event), event.id) in sent')
  {
    assert event == [event][0];
  }

  lemma HeldNothing(rows: Rows)
    ensures Held(rows, [])
  {
  }

  lemma HeldHead(rows: Rows, batch: seq<Claimed>)
    requires Held(rows, batch) && batch != []
    ensures batch[0].id in rows && rows[batch[0].id].topic == batch[0].topic
  {
  }

  lemma NoteKeeps(w: World, w': World, r: nat, done: bool, now: int)
    requires Sure(w) && NoteStep(w, w', r, done, now)
    ensures Sure(w') && w'.sent == w.sent && Forward(w.rows, w.sent, w'.rows, w.sent)
  {
    hide Held, Safe, Forward, Genuine, Logged, Recorded, GoesOn;
    var batch, acked := w.workers[r].batch, w.workers[r].phase.acked;
    assert WorkerFits(w.rows, w.sent, w.workers[r]);
    HeldHead(w.rows, batch);
    RecordedSafe(w.rows, w.sent, batch[0], acked, done, now);
    WorkersForward(w, w'.rows, w.sent);
    HeldForward(w.rows, w.sent, w'.rows, w.sent, batch);
    HeldTail(w'.rows, batch);
    HeldNothing(w'.rows);
    GenuineForward(w.rows, w.sent, w'.rows);
    LoggedRecorded(w.log, w.rows, batch[0], acked, done, now);
  }

  lemma LoggedRecorded(log: seq<C.Event>, rows: Rows, event: Claimed, acked: bool, done: bool, now: int)
    requires Logged(log, rows)
    ensures Logged(log, Recorded(rows, event, acked, done, now))
  {
  }

  lemma CrashKeeps(w: World, r: nat)
    requires Sure(w) && r < |w.workers|
    ensures Sure(With(w, r, [], Idle)) && Forward(w.rows, w.sent, w.rows, w.sent)
  {
    hide Held, Safe, Genuine, Logged;
    HeldNothing(w.rows);
  }

  lemma ForwardSame(rows: Rows, sent: set<Message>)
    ensures Forward(rows, sent, rows, sent)
  {
  }

  lemma NothingYet()
    ensures Logged([], map[]) && Safe(map[], {}) && Genuine(map[], {})
  {
  }

  lemma StartSure(k: nat)
    ensures Sure(Start(k)) && Bounded(Start(k)) && |Start(k).workers| == k
  {
    var w := Start(k);
    assert w.rows == map[] && w.sent == {} && w.log == [];
    NothingYet();
    HeldNothing(w.rows);
    hide Held, Logged, Safe, Genuine;
    assert forall r | 0 <= r < k :: w.workers[r] == Worker([], Idle);
  }

  lemma ActsKeep(w: World, action: Action, w': World)
    requires Sure(w) && Acts(w, action, w')
    ensures Sure(w') && Forward(w.rows, w.sent, w'.rows, w'.sent)
  {
    hide Sure, Forward, ClaimStep, WriteStep, NoteStep;
    match action
    case Commit(events, now) => CommitKeeps(w, events, now);
    case Claim(r, events, now) => ClaimKeeps(w, w', r, events, now);
    case Write(r, write) => WriteKeeps(w, w', r, write);
    case Note(r, done, now) => NoteKeeps(w, w', r, done, now);
    case Crash(r) => CrashKeeps(w, r);
  }

  lemma LogGrows(w: World, action: Action, w': World)
    requires Acts(w, action, w')
    ensures w.log <= w'.log && |w'.workers| == |w.workers|
  {
    hide Takes, HasWriter, Recorded;
  }

  lemma {:induction false} RunHolds(k: nat, worlds: seq<World>, actions: seq<Action>, n: nat)
    requires Run(k, worlds, actions) && n < |worlds|
    ensures Sure(worlds[n]) && |worlds[n].workers| == k
  {
    hide Acts, Sure, Start;
    if n == 0 {
      StartSure(k);
    } else {
      RunHolds(k, worlds, actions, n - 1);
      ActsKeep(worlds[n - 1], actions[n - 1], worlds[n]);
      LogGrows(worlds[n - 1], actions[n - 1], worlds[n]);
    }
  }

  lemma {:induction false} RunForward(k: nat, worlds: seq<World>, actions: seq<Action>, i: nat, j: nat)
    requires Run(k, worlds, actions) && i <= j < |worlds|
    ensures worlds[i].log <= worlds[j].log
    ensures Forward(worlds[i].rows, worlds[i].sent, worlds[j].rows, worlds[j].sent)
    decreases j - i
  {
    hide Acts, Sure, Forward;
    if i < j {
      RunForward(k, worlds, actions, i, j - 1);
      RunHolds(k, worlds, actions, j - 1);
      ActsKeep(worlds[j - 1], actions[j - 1], worlds[j]);
      LogGrows(worlds[j - 1], actions[j - 1], worlds[j]);
      ForwardChain(worlds[i].rows, worlds[i].sent, worlds[j - 1].rows, worlds[j - 1].sent, worlds[j].rows, worlds[j].sent);
    } else {
      ForwardSame(worlds[i].rows, worlds[i].sent);
    }
  }

  // ---------------------------------------------------------------- nothing lost, nothing invented

  /**
    The j-th event that action i committed, in any later state of any run: its row is there with
    its topic, and it is unpublished or the event is on its topic or its dead-letter topic.
  */
  lemma NothingLost(k: nat, worlds: seq<World>, actions: seq<Action>, i: nat, j: nat, n: nat)
    requires Run(k, worlds, actions) && i < n < |worlds|
    requires actions[i].Commit? && j < |actions[i].events|
    ensures var w, id := worlds[n], |worlds[i].log| + j;
      && id in w.rows
      && if actions[i].events[j].TradeMade? then
           && w.rows[id].topic == "trades"
           && (!w.rows[id].published || ("trades", id) in w.sent || ("trades-dlq", id) in w.sent)
         else
           && w.rows[id].topic == "order-events"
           && (!w.rows[id].published || ("order-events", id) in w.sent || ("order-events-dlq", id) in w.sent)
  {
    hide Forward, WorkerFits, Genuine, DlqTopic;
    DeadLetterTopics();
    RunForward(k, worlds, actions, i + 1, n);
    RunHolds(k, worlds, actions, n);
    assert Acts(worlds[i], actions[i], worlds[i + 1]);
    var id := |worlds[i].log| + j;
    assert worlds[n].log[id] == worlds[i + 1].log[id] == actions[i].events[j];
  }

  /** Everything on the broker was committed, and is on its own topic or, after ten failures, on its dead-letter topic. */
  lemma NothingInvented(k: nat, worlds: seq<World>, actions: seq<Action>, n: nat, m: Message)
    requires Run(k, worlds, actions) && n < |worlds| && m in worlds[n].sent
    ensures var w := worlds[n];
      && m.1 < |w.log| && m.1 in w.rows
      && if w.log[m.1].TradeMade? then m.0 == "trades" || (m.0 == "trades-dlq" && w.rows[m.1].attempts >= 10)
         else m.0 == "order-events" || (m.0 == "order-events-dlq" && w.rows[m.1].attempts >= 10)
  {
    hide WorkerFits, Safe, DlqTopic;
    DeadLetterTopics();
    RunHolds(k, worlds, actions, n);
  }

  lemma DeadLetterTopics()
    ensures DlqTopic("trades") == "trades-dlq" && DlqTopic("order-events") == "order-events-dlq"
  {
    assert DlqTopic("trades") == "trades-dlq";
    assert DlqTopic("order-events") == "order-events-dlq";
  }

  /** A relay that had its write acknowledged made that write earlier, for the same batch. */
  lemma {:induction false} AckedEarlier(k: nat, worlds: seq<World>, actions: seq<Action>, n: nat, r: nat) returns (i: nat)
    requires Run(k, worlds, actions) && n < |worlds|
    requires r < |worlds[n].workers| && worlds[n].workers[r].phase == Wrote(true)
    ensures i < n && actions[i] == Write(r, Acked)
    ensures r < |worlds[i].workers| && worlds[i].workers[r].batch == worlds[n].workers[r].batch
  {
    hide Takes, Recorded, Sent, Committed;
    assert n > 0;
    assert Acts(worlds[n - 1], actions[n - 1], worlds[n]);
    if actions[n - 1] == Write(r, Acked) {
      i := n - 1;
    } else {
      WorkersFollow(worlds[n - 1], actions[n - 1], worlds[n], r);
      i := AckedEarlier(k, worlds, actions, n - 1, r);
    }
  }

  lemma WorkersFollow(w: World, action: Action, w': World, r: nat)
    requires Acts(w, action, w') && r < |w'.workers| && w'.workers[r].phase == Wrote(true)
    requires action != Write(r, Acked)
    ensures |w.workers| == |w'.workers| && w'.workers[r] == w.workers[r]
  {
    hide Takes, Recorded, Sent, HasWriter;
  }

  /** A row is published only after a write of its event to its target was acknowledged. */
  lemma {:induction false} PublishedAfterWrite(k: nat, worlds: seq<World>, actions: seq<Action>, n: nat, id: Id)
    returns (i: nat)
    requires Run(k, worlds, actions) && n < |worlds| && id in worlds[n].rows && worlds[n].rows[id].published
    ensures i < n && actions[i].Write? && actions[i].write.Acked?
    ensures actions[i].worker < |worlds[i].workers|
    ensures var batch := worlds[i].workers[actions[i].worker].batch;
      && batch != [] && batch[0].id == id
      && (Target(batch[0]), id) in worlds[n].sent
  {
    hide Takes, Forward, WorkerFits;
    RunHolds(k, worlds, actions, n - 1);
    var w, action, w' := worlds[n - 1], actions[n - 1], worlds[n];
    assert Acts(w, action, w');
    RunForward(k, worlds, actions, n - 1, n);
    SentForward(w.rows, w.sent, w'.rows, w'.sent);
    if id in w.rows && w.rows[id].published {
      i := PublishedAfterWrite(k, worlds, actions, n - 1, id);
    } else {
      PublishedByNote(w, action, w', id);
      i := AckedEarlier(k, worlds, actions, n - 1, action.worker);
      assert WorkerFits(w.rows, w.sent, w.workers[action.worker]);
      WroteIsSent(w.rows, w.sent, w.workers[action.worker]);
    }
  }

  lemma WroteIsSent(rows: Rows, sent: set<Message>, worker: Worker)
    requires WorkerFits(rows, sent, worker) && worker.phase == Wrote(true)
    ensures worker.batch != [] && (Target(worker.batch[0]), worker.batch[0].id) in sent
  {
  }

  lemma PublishedByNote(w: World, action: Action, w': World, id: Id)
    requires Sure(w) && Acts(w, action, w') && id in w'.rows && w'.rows[id].published
    requires !(id in w.rows && w.rows[id].published)
    ensures action.Note? && action.worker < |w.workers|
    ensures w.workers[action.worker].phase == Wrote(true) && w.workers[action.worker].batch != []
    ensures w.workers[action.worker].batch[0].id == id
  {
    hide WorkerFits, Safe, Genuine, Claims, Claimable, Held, HasWriter;
    match action
    case Commit(events, now) =>
    case Claim(r, claims, now) =>
    case Write(r, write) =>
    case Note(r, done, now) =>
    case Crash(r) =>
  }

  // ---------------------------------------------------------------- the bound on attempts

  /** The batch holds a claim on this row that was read before its tenth failure. */
  predicate ReadsEarly(batch: seq<Claimed>, id: Id) {
    exists i :: 0 <= i < |batch| && batch[i].id == id && batch[i].attempts < MAX_DLQ_ATTEMPTS
  }

  function Early(workers: seq<Worker>, id: Id): set<nat> {
    set r: nat | r < |workers| && ReadsEarly(workers[r].batch, id)
  }

  /** Each relay that still holds an early claim may count one more failure. */
  ghost predicate Bounded(w: World) {
    forall id | id in w.rows && w.rows[id].attempts >= MAX_DLQ_ATTEMPTS ::
      w.rows[id].attempts + |Early(w.workers, id)| < MAX_DLQ_ATTEMPTS + |w.workers|
  }

  lemma {:induction false} FewIndices(s: set<nat>, k: nat)
    requires forall r | r in s :: r < k
    ensures |s| <= k
  {
    if k > 0 {
      FewIndices(s - {k - 1}, k - 1);
    } else {
      assert s == {};
    }
  }

  lemma FewerIndices(s: set<nat>, t: set<nat>)
    requires s <= t
    ensures |s| <= |t|
  {
    assert t == s + (t - s);
  }

  /** Shrinking one batch lets no relay read earlier. */
  lemma EarlyShrinks(workers: seq<Worker>, r: nat, worker: Worker, id: Id)
    requires r < |workers| && (ReadsEarly(worker.batch, id) ==> ReadsEarly(workers[r].batch, id))
    ensures |Early(workers[r := worker], id)| <= |Early(workers, id)|
    ensures !ReadsEarly(worker.batch, id) ==>
      && Early(workers[r := worker], id) == Early(workers, id) - {r}
      && |Early(workers[r := worker], id)| < |workers|
  {
    hide ReadsEarly;
    var after := workers[r := worker];
    FewerIndices(Early(after, id), Early(workers, id));
    if !ReadsEarly(worker.batch, id) {
      FewIndices(Early(after, id) + {r}, |workers|);
    }
  }

  lemma TailReads(batch: seq<Claimed>, id: Id)
    requires batch != []
    ensures ReadsEarly(batch[1..], id) ==> ReadsEarly(batch, id)
    ensures batch[0].attempts < MAX_DLQ_ATTEMPTS ==> ReadsEarly(batch, batch[0].id)
    ensures !ReadsEarly([], id)
  {
    if i :| 0 <= i < |batch[1..]| && batch[1..][i].id == id && batch[1..][i].attempts < MAX_DLQ_ATTEMPTS {
      assert batch[i + 1].id == id;
    }
  }

  /** A step that changes one batch to a shorter one and no attempts keeps the bound. */
  lemma ShrinkKeepsBound(w: World, w': World, r: nat, worker: Worker)
    requires Bounded(w) && r < |w.workers| && w'.workers == w.workers[r := worker]
    requires forall id | id in w.rows :: ReadsEarly(worker.batch, id) ==> ReadsEarly(w.workers[r].batch, id)
    requires w'.rows.Keys == w.rows.Keys
    requires forall id | id in w.rows :: w'.rows[id].attempts == w.rows[id].attempts
    ensures Bounded(w')
  {
    hide ReadsEarly, Early;
    forall id | id in w.rows ensures |Early(w'.workers, id)| <= |Early(w.workers, id)| {
      EarlyShrinks(w.workers, r, worker, id);
    }
  }

  lemma ClaimKeepsBound(w: World, w': World, r: nat, events: seq<Claimed>, now: int)
    requires Bounded(w) && ClaimStep(w, w', r, events, now)
    ensures Bounded(w')
  {
    hide Claims, Claimable, Early;
    forall id | id in w.rows && w.rows[id].attempts >= MAX_DLQ_ATTEMPTS
      ensures |Early(w'.workers, id)| <= |Early(w.workers, id)|
    {
      EarlyShrinks(w.workers, r, Worker(events, Idle), id);
    }
  }

  /** The failure that counts: its relay gives its claim up. */
  lemma FailureKeepsBound(w: World, w': World, r: nat, now: int)
    requires Bounded(w) && r < |w.workers| && w.workers[r].batch != []
    requires w.workers[r].batch[0].attempts < MAX_DLQ_ATTEMPTS
    requires w' == With(w, r, [], Idle).(rows := RecordFailure(w.rows, w.workers[r].batch[0].id, now))
    ensures Bounded(w')
  {
    hide ReadsEarly;
    var batch := w.workers[r].batch;
    forall id | id in w.rows
      ensures |Early(w'.workers, id)| <= |Early(w.workers, id)| && |Early(w'.workers, id)| < |w.workers|
      ensures id == batch[0].id ==> |Early(w'.workers, id)| == |Early(w.workers, id)| - 1
    {
      TailReads(batch, id);
      EarlyShrinks(w.workers, r, Worker([], Idle), id);
      if id == batch[0].id { assert r in Early(w.workers, id); }
    }
  }

  lemma NoteKeepsBound(w: World, w': World, r: nat, done: bool, now: int)
    requires Bounded(w) && NoteStep(w, w', r, done, now)
    ensures Bounded(w')
  {
    hide Bounded, ReadsEarly, Early;
    var batch, acked := w.workers[r].batch, w.workers[r].phase.acked;
    if done && !acked && batch[0].attempts < MAX_DLQ_ATTEMPTS {
      FailureKeepsBound(w, w', r, now + Backoff(batch[0].attempts));
    } else {
      var rest := if GoesOn(batch[0], acked, done) then batch[1..] else [];
      forall id ensures ReadsEarly(rest, id) ==> ReadsEarly(batch, id) {
        TailReads(batch, id);
      }
      ShrinkKeepsBound(w, w', r, Worker(rest, Idle));
    }
  }

  lemma WriteKeepsBound(w: World, w': World, r: nat, write: Written)
    requires Bounded(w) && WriteStep(w, w', r, write)
    ensures Bounded(w')
  {
    hide Bounded, ReadsEarly, Early, HasWriter;
    var batch := w.workers[r].batch;
    forall id ensures ReadsEarly(w'.workers[r].batch, id) ==> ReadsEarly(batch, id) {
      TailReads(batch, id);
    }
    ShrinkKeepsBound(w, w', r, w'.workers[r]);
  }

  lemma ActsKeepBound(w: World, action: Action, w': World)
    requires Sure(w) && Bounded(w) && Acts(w, action, w')
    ensures Bounded(w')
  {
    hide WorkerFits, Safe, Genuine, Forward, ClaimStep, WriteStep, NoteStep, Early;
    match action
    case Commit(events, now) => CommittedRows(w, events, now);
    case Claim(r, events, now) => ClaimKeepsBound(w, w', r, events, now);
    case Write(r, write) => WriteKeepsBound(w, w', r, write);
    case Note(r, done, now) => NoteKeepsBound(w, w', r, done, now);
    case Crash(r) => CrashKeepsBound(w, r);
  }

  lemma CrashKeepsBound(w: World, r: nat)
    requires Bounded(w) && r < |w.workers|
    ensures Bounded(With(w, r, [], Idle))
  {
    hide Bounded, Early;
    forall id ensures !ReadsEarly([], id) {
    }
    ShrinkKeepsBound(w, With(w, r, [], Idle), r, Worker([], Idle));
  }

  lemma {:induction false} RunBounded(k: nat, worlds: seq<World>, actions: seq<Action>, n: nat)
    requires Run(k, worlds, actions) && n < |worlds|
    ensures Bounded(worlds[n])
  {
    hide Acts, Sure, Bounded, Start;
    if n == 0 {
      StartSure(k);
    } else {
      RunBounded(k, worlds, actions, n - 1);
      RunHolds(k, worlds, actions, n - 1);
      ActsKeepBound(worlds[n - 1], actions[n - 1], worlds[n]);
    }
  }

  /** With k relays no row ever counts more than 9 + k failures: with one relay at most ten, as intended. */
  lemma AttemptsBounded(k: nat, worlds: seq<World>, actions: seq<Action>, n: nat, id: Id)
    requires Run(k, worlds, actions) && n < |worlds| && id in worlds[n].rows
    ensures worlds[n].rows[id].attempts <= 9 + k
  {
    RunBounded(k, worlds, actions, n);
    RunHolds(k, worlds, actions, n);
  }

  /** One failure keeps a row within ten attempts exactly if it had fewer, or was published in the meantime. */
  lemma FailureWithinTenIff(rows: Rows, id: Id, nextAttempt: int)
    requires id in rows && rows[id].attempts <= MAX_DLQ_ATTEMPTS
    ensures RecordFailure(rows, id, nextAttempt)[id].attempts <= MAX_DLQ_ATTEMPTS
            <==> rows[id].attempts < MAX_DLQ_ATTEMPTS || rows[id].published
  {
  }

  // ---------------------------------------------------------------- the bound is reached

  const EVENT := C.TradeMade(Trade("X", 0, 0, 0, 0, 1, 1))

  /** One event, not published, that nobody could write so far. */
  function Failing(row: OutboxRow, workers: seq<Worker>): World {
    World([EVENT], map[0 := row], {}, workers)
  }

  predicate Unsent(row: OutboxRow, attempts: nat) {
    row.topic == "trades" && !row.published && row.attempts == attempts
  }

  /** Relays `lo` to `hi` hold a claim that was read after nine failures. */
  function Holding(k: nat, lo: nat, hi: nat): seq<Worker> {
    seq(k, r => if lo <= r < hi then Worker([Claimed(0, "trades", 9)], Idle) else Worker([], Idle))
  }

  /** A time at which the row is due and its last claim has run out. */
  function Later(row: OutboxRow): int {
    var free := if row.claim.ClaimedAt? then row.claim.time + CLAIM_SECONDS + 1 else row.nextAttempt;
    if free < row.nextAttempt then row.nextAttempt else free
  }

  lemma Extend(k: nat, worlds: seq<World>, actions: seq<Action>, action: Action, w': World)
    requires Run(k, worlds, actions) && Acts(worlds[|actions|], action, w')
    ensures Run(k, worlds + [w'], actions + [action]) && (worlds + [w'])[|actions + [action]|] == w'
  {
    hide Acts;
  }

  /** An idle relay can claim any unpublished row, once it is late enough. */
  lemma ClaimsOne(w: World, r: nat, id: Id)
    requires id in w.rows && !w.rows[id].published && r < |w.workers| && w.workers[r] == Worker([], Idle)
    ensures var row, now := w.rows[id], Later(w.rows[id]);
      var claims := [Claimed(id, row.topic, row.attempts)];
      Acts(w, Claim(r, claims, now), With(w, r, claims, Idle).(rows := w.rows[id := row.(claim := ClaimedAt(now))]))
  {
    var claims := [Claimed(id, w.rows[id].topic, w.rows[id].attempts)];
    assert claims[0].id == id;
    assert Claims(claims, id);
  }

  /**
    No event is ever stuck: after any run, a relay that restarts can claim, write and mark any
    unpublished row, on its topic or, if it failed ten times, on its dead-letter topic.
  */
  lemma CanStillBeDelivered(k: nat, worlds: seq<World>, actions: seq<Action>, id: Id)
    returns (worlds': seq<World>, actions': seq<Action>)
    requires k > 0 && Run(k, worlds, actions)
    requires id in worlds[|actions|].rows && !worlds[|actions|].rows[id].published
    ensures Run(k, worlds', actions') && worlds <= worlds' && actions <= actions' && |actions'| == |actions| + 4
    ensures var w, w' := worlds[|actions|], worlds'[|actions'|];
      && id in w'.rows && w'.rows[id].published
      && (if w.rows[id].attempts < 10 then w.rows[id].topic else w.rows[id].topic + "-dlq", id) in w'.sent
  {
    assert |worlds| == |actions| + 1;
    hide Run, Sure, Acts, Later;
    RunHolds(k, worlds, actions, |actions|);
    var w := worlds[|actions|];
    var w1, w2, w3, w4 := Delivery(w, id);
    var event, now := Claimed(id, w.rows[id].topic, w.rows[id].attempts), Later(w.rows[id]);
    worlds', actions' := ExtendTwice(k, worlds, actions, Crash(0), w1, Claim(0, [event], now), w2);
    worlds', actions' := ExtendTwice(k, worlds', actions', Write(0, Acked), w3, Note(0, true, now), w4);
  }

  lemma ExtendTwice(k: nat, worlds: seq<World>, actions: seq<Action>, a: Action, w1: World, b: Action, w2: World)
    returns (worlds': seq<World>, actions': seq<Action>)
    requires Run(k, worlds, actions) && Acts(worlds[|actions|], a, w1) && Acts(w1, b, w2)
    ensures Run(k, worlds', actions') && worlds <= worlds' && actions <= actions' && |actions'| == |actions| + 2
    ensures worlds'[|actions'|] == w2
  {
    assert |worlds| == |actions| + 1;
    hide Acts, Run;
    Extend(k, worlds, actions, a, w1);
    Extend(k, worlds + [w1], actions + [a], b, w2);
    worlds', actions' := worlds + [w1] + [w2], actions + [a] + [b];
  }

  /** A restarted relay claims, writes and marks one unpublished row. */
  lemma Delivery(w: World, id: Id) returns (w1: World, w2: World, w3: World, w4: World)
    requires Sure(w) && |w.workers| > 0 && id in w.rows && !w.rows[id].published
    ensures var event, now := Claimed(id, w.rows[id].topic, w.rows[id].attempts), Later(w.rows[id]);
      && Acts(w, Crash(0), w1) && Acts(w1, Claim(0, [event], now), w2)
      && Acts(w2, Write(0, Acked), w3) && Acts(w3, Note(0, true, now), w4)
    ensures id in w4.rows && w4.rows[id].published
    ensures (if w.rows[id].attempts < 10 then w.rows[id].topic else w.rows[id].topic + "-dlq", id) in w4.sent
  {
    var row, now := w.rows[id], Later(w.rows[id]);
    var event := Claimed(id, row.topic, row.attempts);
    HasItsWriter(w, id);
    hide Sure, Takes, HasWriter;
    w1 := With(w, 0, [], Idle);
    ClaimsOne(w1, 0, id);
    w2 := With(w1, 0, [event], Idle).(rows := w.rows[id := row.(claim := ClaimedAt(now))]);
    w3 := With(w2, 0, [event], Wrote(true)).(sent := Sent(w.sent, event, Acked));
    w4 := With(w3, 0, [], Idle).(rows := MarkPublished(w2.rows, id));
    assert [event][1..] == [];
  }

  /** Every committed event has a writer for its topic and for its dead-letter topic. */
  lemma HasItsWriter(w: World, id: Id)
    requires Sure(w) && id in w.rows
    ensures HasWriter(w.rows[id].topic) && HasWriter(DlqTopic(w.rows[id].topic))
  {
    hide WorkerFits, Safe, Genuine;
    RoutedHasWriters(w.rows[id].topic);
  }

  /** Relay r claims the row. */
  lemma ClaimsRow(row: OutboxRow, workers: seq<Worker>, r: nat)
    requires Unsent(row, row.attempts) && r < |workers| && workers[r] == Worker([], Idle)
    ensures var now := Later(row);
      Acts(Failing(row, workers), Claim(r, [Claimed(0, "trades", row.attempts)], now),
           Failing(row.(claim := ClaimedAt(now)), workers[r := Worker([Claimed(0, "trades", row.attempts)], Idle)]))
  {
    var claims := [Claimed(0, "trades", row.attempts)];
    assert claims[0].id == 0;
    assert Claims(claims, 0);
  }

  function AfterFailure(row: OutboxRow, read: nat): OutboxRow {
    row.(attempts := row.attempts + 1, nextAttempt := Backoff(read), claim := Unclaimed)
  }

  /** Relay r fails to write the event and counts the failure. */
  lemma FailsRow(k: nat, worlds: seq<World>, actions: seq<Action>, row: OutboxRow, workers: seq<Worker>, r: nat, read: nat)
    returns (worlds': seq<World>, actions': seq<Action>)
    requires Run(k, worlds, actions) && worlds[|actions|] == Failing(row, workers)
    requires Unsent(row, row.attempts) && read < MAX_DLQ_ATTEMPTS
    requires r < |workers| && workers[r] == Worker([Claimed(0, "trades", read)], Idle)
    ensures Run(k, worlds', actions')
    ensures worlds'[|actions'|] == Failing(AfterFailure(row, read), workers[r := Worker([], Idle)])
  {
    hide Backoff, Run;
    var w0 := Failing(row, workers);
    var w1 := With(w0, r, workers[r].batch, Wrote(false));
    var w2 := Failing(AfterFailure(row, read), workers[r := Worker([], Idle)]);
    assert Acts(w0, Write(r, Refused), w1);
    assert w2.workers == w1.workers[r := Worker([], Idle)];
    assert Acts(w1, Note(r, true, 0), w2);
    hide Acts;
    Extend(k, worlds, actions, Write(r, Refused), w1);
    Extend(k, worlds + [w1], actions + [Write(r, Refused)], Note(r, true, 0), w2);
    worlds', actions' := worlds + [w1] + [w2], actions + [Write(r, Refused)] + [Note(r, true, 0)];
  }

  /** The first relay alone fails n times. */
  lemma {:induction false} FailsAlone(k: nat, n: nat) returns (worlds: seq<World>, actions: seq<Action>, row: OutboxRow)
    requires k > 0 && n <= 9
    ensures Run(k, worlds, actions) && Unsent(row, n)
    ensures worlds[|actions|] == Failing(row, Holding(k, 0, 0))
  {
    hide Acts, Later, AfterFailure;
    if n == 0 {
      row := NewRow("trades", 0);
      worlds, actions := [Start(k), Failing(row, Holding(k, 0, 0))], [Commit([EVENT], 0)];
      FirstCommit(k);
    } else {
      worlds, actions, row := FailsAlone(k, n - 1);
      var idle := Holding(k, 0, 0);
      ClaimsRow(row, idle, 0);
      var claims := [Claimed(0, "trades", n - 1)];
      var claimed := row.(claim := ClaimedAt(Later(row)));
      var w := Failing(claimed, idle[0 := Worker(claims, Idle)]);
      Extend(k, worlds, actions, Claim(0, claims, Later(row)), w);
      worlds, actions := FailsRow(k, worlds + [w], actions + [Claim(0, claims, Later(row))], claimed, w.workers, 0, n - 1);
      FailureCounts(claimed, n - 1);
      row := AfterFailure(claimed, n - 1);
      assert w.workers[0 := Worker([], Idle)] == idle;
    }
  }

  lemma FirstCommit(k: nat)
    ensures Acts(Start(k), Commit([EVENT], 0), Failing(NewRow("trades", 0), Holding(k, 0, 0)))
  {
    var w := Committed(Start(k), [EVENT], 0);
    assert w.log == [EVENT] && w.rows == map[0 := NewRow("trades", 0)];
    assert w.workers == Holding(k, 0, 0);
  }

  lemma FailureCounts(row: OutboxRow, read: nat)
    requires Unsent(row, row.attempts)
    ensures Unsent(AfterFailure(row, read), row.attempts + 1)
  {
  }

  /** Then relay after relay claims the row, each when the claim before has run out. */
  lemma {:induction false} AllClaim(k: nat, n: nat) returns (worlds: seq<World>, actions: seq<Action>, row: OutboxRow)
    requires k > 0 && n <= k
    ensures Run(k, worlds, actions) && Unsent(row, 9)
    ensures worlds[|actions|] == Failing(row, Holding(k, 0, n))
  {
    hide Acts, Later, Run;
    if n == 0 {
      worlds, actions, row := FailsAlone(k, 9);
    } else {
      worlds, actions, row := AllClaim(k, n - 1);
      var workers := Holding(k, 0, n - 1);
      ClaimsRow(row, workers, n - 1);
      var claims, now := [Claimed(0, "trades", 9)], Later(row);
      row := row.(claim := ClaimedAt(now));
      assert workers[n - 1 := Worker(claims, Idle)] == Holding(k, 0, n);
      Extend(k, worlds, actions, Claim(n - 1, claims, now), Failing(row, Holding(k, 0, n)));
      worlds, actions := worlds + [Failing(row, Holding(k, 0, n))], actions + [Claim(n - 1, claims, now)];
    }
  }

  /** And each of them fails. */
  lemma {:induction false} AllFail(k: nat, n: nat) returns (worlds: seq<World>, actions: seq<Action>, row: OutboxRow)
    requires k > 0 && n <= k
    ensures Run(k, worlds, actions) && Unsent(row, 9 + n)
    ensures worlds[|actions|] == Failing(row, Holding(k, n, k))
  {
    hide Acts, Run, AfterFailure;
    if n == 0 {
      worlds, actions, row := AllClaim(k, k);
    } else {
      worlds, actions, row := AllFail(k, n - 1);
      worlds, actions := FailsRow(k, worlds, actions, row, Holding(k, n - 1, k), n - 1, 9);
      FailureCounts(row, 9);
      row := AfterFailure(row, 9);
      assert Holding(k, n - 1, k)[n - 1 := Worker([], Idle)] == Holding(k, n, k);
    }
  }

  /** The bound is exact: for every number of relays some run reaches it; with two relays, eleven failures. */
  lemma BoundIsReached(k: nat) returns (worlds: seq<World>, actions: seq<Action>)
    requires k > 0
    ensures Run(k, worlds, actions)
    ensures 0 in worlds[|actions|].rows && worlds[|actions|].rows[0].attempts == 9 + k
  {
    hide Run;
    var row;
    worlds, actions, row := AllFail(k, k);
  }

  // ---------------------------------------------------------------- the code takes these steps

  /** The row a committed event gets. */
  function Fresh(event: C.Event, now: int): OutboxRow {
    OutboxRow(if event.TradeMade? then "trades" else "order-events", now, false, 0, now, Unclaimed)
  }

  /** The new rows of a commit, and that it changes no row of an earlier event. */
  ghost predicate Appends(w: World, events: seq<C.Event>, now: int, w': World) {
    && w'.log == w.log + events
    && (forall id: Id | |w.log| <= id < |w'.log| :: id in w'.rows && w'.rows[id] == Fresh(w'.log[id], now))
    && (forall id | id in w.rows && id < |w.log| :: id in w'.rows && w'.rows[id] == w.rows[id])
    && w'.sent == w.sent && w'.workers == w.workers
  }

  lemma CommitAppends(w: World, events: seq<C.Event>, now: int)
    ensures Appends(w, events, now, Committed(w, events, now))
  {
  }

  /** What a transaction appended to the outbox table is one Commit of the machine. */
  ghost function Appended(w: World, outbox: seq<C.Event>, now: int): (w': World)
    requires w.log <= outbox
    ensures w'.log == outbox && Acts(w, Commit(outbox[|w.log|..], now), w')
    ensures Appends(w, outbox[|w.log|..], now, w')
  {
    CommitAppends(w, outbox[|w.log|..], now);
    Committed(w, outbox[|w.log|..], now)
  }

  lemma WinnerExtends(view: Records.View, before: C.Tables, command: Id, t: Ticket, winner: C.Tables)
    requires C.CreateCommits(view, before, command, t, winner)
    ensures before.outbox <= winner.outbox
  {
  }

  /** A create enqueues the events of its trades and of the orders they changed, or the winner's, or nothing. */
  method CommitCreate(consumer: C.MatchingConsumer, command: Id, t: Ticket, fault: C.Fault, winner: C.Tables,
                      ghost w: World, ghost now: int)
    returns (processed: bool, ghost events: seq<C.Event>, ghost w': World,
             ghost listing: seq<Resting>, ghost records: seq<Record>)
    requires consumer.Valid()
    requires command !in consumer.tables.processed ==> C.Queued(consumer.tables.rows, consumer.booked, t)
    requires fault.LostRace? && command !in consumer.tables.processed ==>
      C.CreateCommits(consumer.engine.View(), consumer.tables, command, t, winner)
    requires w.log == consumer.tables.outbox
    modifies consumer, consumer.engine, consumer.engine.orderBooks.Values, consumer.engine.orders.Values
    ensures w'.log == consumer.tables.outbox == w.log + events && Acts(w, Commit(events, now), w')
    ensures Appends(w, events, now, w')
    ensures processed ==>
      var trades := Matching.Scan(t, t.quantity, listing).trades;
      && |events| == |trades| + |records|
      && (forall i | 0 <= i < |trades| :: events[i] == C.TradeMade(trades[i]))
      && (forall i | |trades| <= i < |events| :: events[i] == C.OrderUpdated(records[i - |trades|]))
      && (forall id: Id | |w.log| <= id < |w'.log| ::
            id in w'.rows && w'.rows[id].topic == if id < |w.log| + |trades| then "trades" else "order-events")
    ensures !processed && consumer.Valid() ==> events == []
  {
    hide *;
    if fault.LostRace? && command !in consumer.tables.processed {
      WinnerExtends(consumer.engine.View(), consumer.tables, command, t, winner);
    }
    var error;
    processed, error, listing, records := consumer.ProcessCreateCommand(command, t, fault, winner);
    w' := Appended(w, consumer.tables.outbox, now);
    events := consumer.tables.outbox[|w.log|..];
    if processed {
      MatchTopics(w, Matching.Scan(t, t.quantity, listing).trades, records, events, now, w');
    }
  }

  lemma MatchTopics(w: World, trades: seq<Trade>, records: seq<Record>, events: seq<C.Event>, now: int, w': World)
    requires events == C.TradeEvents(trades) + C.UpdateEvents(records) && Appends(w, events, now, w')
    ensures |events| == |trades| + |records|
    ensures forall i | 0 <= i < |trades| :: events[i] == C.TradeMade(trades[i])
    ensures forall i | |trades| <= i < |events| :: events[i] == C.OrderUpdated(records[i - |trades|])
    ensures forall id: Id | |w.log| <= id < |w'.log| ::
      id in w'.rows && w'.rows[id].topic == if id < |w.log| + |trades| then "trades" else "order-events"
  {
    EventsInOrder(trades, records);
    forall id: Id | |w.log| <= id < |w'.log|
      ensures w'.log[id] == events[id - |w.log|] && (w'.log[id].TradeMade? <==> id < |w.log| + |trades|)
    {
    }
    hide Appends;
    assert Appends(w, events, now, w');
    TopicsOfNew(w, events, now, w');
  }

  lemma EventsInOrder(trades: seq<Trade>, records: seq<Record>)
    ensures var events := C.TradeEvents(trades) + C.UpdateEvents(records);
      && |events| == |trades| + |records|
      && (forall i | 0 <= i < |trades| :: events[i] == C.TradeMade(trades[i]))
      && (forall i | |trades| <= i < |events| :: events[i] == C.OrderUpdated(records[i - |trades|]))
  {
  }

  lemma TopicsOfNew(w: World, events: seq<C.Event>, now: int, w': World)
    requires Appends(w, events, now, w')
    ensures forall id: Id | |w.log| <= id < |w'.log| ::
      id in w'.rows && w'.rows[id].topic == if w'.log[id].TradeMade? then "trades" else "order-events"
  {
  }

  /** A cancel enqueues its one event, or the winner's, exactly when it closes the order. */
  method CommitCancel(consumer: C.MatchingConsumer, command: Id, id: Id, fault: C.Fault, winner: C.Tables,
                      ghost w: World, ghost now: int)
    returns (processed: bool, ghost events: seq<C.Event>, ghost w': World)
    requires consumer.Valid() && w.log == consumer.tables.outbox
    requires fault.LostRace? && command !in consumer.tables.processed ==>
      C.CancelCommits(consumer.tables, command, id, winner)
    modifies consumer, consumer.engine, consumer.engine.orders.Values
    ensures w'.log == consumer.tables.outbox == w.log + events && Acts(w, Commit(events, now), w')
    ensures processed ==>
      events == if C.Closes(old(consumer.tables), command, id) then
                  [C.OrderCancelled(Record(old(consumer.tables).rows[id].ticket, 0, Cancelled))]
                else []
    ensures Appends(w, events, now, w')
    ensures processed && events != [] ==> |w.log| in w'.rows && w'.rows[|w.log|].topic == "order-events"
  {
    hide Acts, Committed, C.MatchingConsumer.Valid;
    var error;
    processed, error := consumer.ProcessCancelCommand(command, id, fault, winner);
    w' := Appended(w, consumer.tables.outbox, now);
    events := consumer.tables.outbox[|w.log|..];
    assert events != [] ==> w'.log[|w.log|] == events[0];
  }

  /** Claiming in one relay is a Claim of the machine. */
  method ClaimBatch(relay: Relay, ghost w: World, ghost r: nat, now: int, limit: nat)
    returns (batch: seq<Claimed>, ghost w': World)
    requires relay.Valid() && relay.rows == w.rows && relay.sent == w.sent
    requires r < |w.workers| && w.workers[r] == Worker([], Idle)
    modifies relay`rows
    ensures relay.Valid() && relay.rows == w'.rows && relay.sent == w'.sent
    ensures Acts(w, Claim(r, batch, now), w')
  {
    hide Takes;
    batch := relay.ClaimPending(now, limit);
    w' := With(w, r, batch, Idle).(rows := relay.rows);
  }

  /** The machine takes one or two steps from `w` to `w'`. */
  ghost predicate Reaches(w: World, actions: seq<Action>, w': World) {
    match |actions|
    case 1 => Acts(w, actions[0], w')
    case 2 => exists middle :: Acts(w, actions[0], middle) && Acts(middle, actions[1], w')
    case _ => false
  }

  /** Handling one event is a write and a note of the machine, or as many of them as come before a crash. */
  method HandleEvent(relay: Relay, ghost w: World, ghost r: nat, event: Claimed, now: int, weather: Weather)
    returns (stop: bool, ghost actions: seq<Action>, ghost w': World)
    requires relay.Valid() && relay.rows == w.rows && relay.sent == w.sent && Held(w.rows, [event])
    requires r < |w.workers| && w.workers[r].phase.Idle? && w.workers[r].batch != [] && w.workers[r].batch[0] == event
    modifies relay
    ensures relay.Valid() && relay.rows == w'.rows && relay.sent == w'.sent
    ensures Reaches(w, actions, w') && |w'.workers| == |w.workers|
    ensures w'.workers[r] == Worker(if stop then [] else w.workers[r].batch[1..], Idle)
  {
    hide Recorded, Sent, HasWriter, Takes, Held;
    stop := relay.PublishOne(event, now, weather);
    ghost var batch := w.workers[r].batch;
    if weather.crash.BeforeWrite? {
      actions, w' := [Crash(r)], With(w, r, [], Idle);
    } else if !HasWriter(Target(event)) {
      actions := [Write(r, weather.write)];
      w' := With(w, r, if event.attempts >= MAX_DLQ_ATTEMPTS then batch[1..] else [], Idle);
    } else {
      ghost var middle := With(w, r, batch, Wrote(weather.write.Acked?)).(sent := relay.sent);
      assert Acts(w, Write(r, weather.write), middle);
      if weather.crash.AfterWrite? {
        actions, w' := [Write(r, weather.write), Crash(r)], With(middle, r, [], Idle);
      } else {
        actions := [Write(r, weather.write), Note(r, weather.records, now)];
        w' := With(middle, r, if stop then [] else batch[1..], Idle).(rows := relay.rows);
      }
      assert Acts(middle, actions[1], w');
    }
  }
}
