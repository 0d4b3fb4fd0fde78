/**
  Deliveries repeat, overlap and fail. Each portfolio worker first checks the mark of its event
  and later finishes: it applies the event, sets the mark and commits, all or nothing. Between
  the two steps other workers may do the same for the same event.
*/
module Delivery {
  import opened Model
  import opened Matching
  import opened Records
  import opened Ledgers
  import opened Portfolio
  import opened Exchange
  import opened Invariants

  datatype Event = TradeEvent(id: Id) | CancelEvent(id: Id)

  function MarkOf(event: Event): Mark {
    match event
    case TradeEvent(id) => (TradeGroup, id)
    case CancelEvent(id) => (OrderEventGroup, id)
  }

  /** A worker between its check and its commit: what the check answered may be out of date. */
  datatype Task = Task(event: Event, seen: bool)

  datatype System = System(
    x: State,
    trades: map<Id, Trade>,    // every trade event ever committed
    cancels: map<Id, Id>,      // every cancel event ever committed
    processed: set<Mark>,
    workers: map<nat, Task>)

  datatype Action =
    | Check(worker: nat, event: Event)
    | Finish(worker: nat, fault: Fault)
    | Elsewhere(step: Step)

  predicate Known(d: System, event: Event) {
    match event
    case TradeEvent(id) => id in d.trades
    case CancelEvent(id) => id in d.cancels
  }

  /** The body of the transaction for an event. */
  function Effect(d: System, event: Event): Attempt
    requires Known(d, event)
  {
    match event
    case TradeEvent(id) => SettleTrade(d.x.l, d.trades[id])
    case CancelEvent(id) => ReleaseOrder(d.x.l, d.cancels[id])
  }

  function Forget(x: State, event: Event): State {
    match event
    case TradeEvent(id) => x.(unsettled := x.unsettled - {id})
    case CancelEvent(id) => x.(cancels := x.cancels - {id})
  }

  /** The commit condition of processTrade and processOrderEvent. */
  predicate Commits(d: System, event: Event, seen: bool, fault: Fault)
    requires Known(d, event)
  {
    !seen && MarkOf(event) !in d.processed && fault.NoFault? && Effect(d, event).Applied?
  }

  ghost predicate CheckStep(d: System, d': System, w: nat, event: Event) {
    && w !in d.workers && Known(d, event)
    && d' == d.(workers := d.workers[w := Task(event, MarkOf(event) in d.processed)])
  }

  ghost predicate FinishStep(d: System, d': System, w: nat, fault: Fault) {
    && w in d.workers
    && var task := d.workers[w];
      && Known(d, task.event)
      && d' == (if Commits(d, task.event, task.seen, fault)
                then d.(x := Forget(d.x.(l := Effect(d, task.event).ledger), task.event),
                        processed := d.processed + {MarkOf(task.event)})
                else d).(workers := d.workers - {w})
  }

  /** Any step of the other services; the ids of new events are new for good. */
  ghost predicate ElsewhereStep(d: System, d': System, step: Step) {
    && !step.Settle? && !step.Release?
    && Next(d.x, step, d'.x)
    && (step.Match? ==> forall tid | tid in step.trades :: tid !in d.trades)
    && (step.Cancel? ==> step.event !in d.cancels)
    && d' == d.(x := d'.x, trades := d.trades + d'.x.unsettled, cancels := d.cancels + d'.x.cancels)
  }

  ghost predicate Act(d: System, action: Action, d': System) {
    match action
    case Check(w, event) => CheckStep(d, d', w, event)
    case Finish(w, fault) => FinishStep(d, d', w, fault)
    case Elsewhere(step) => ElsewhereStep(d, d', step)
  }

  /** What waits to be applied is exactly what was committed and has no mark. */
  ghost predicate Marked(d: System) {
    && (forall id | id in d.x.unsettled :: id in d.trades && d.trades[id] == d.x.unsettled[id])
    && (forall id | id in d.x.cancels :: id in d.cancels && d.cancels[id] == d.x.cancels[id])
    && (forall id | id in d.trades :: id in d.x.unsettled <==> (TradeGroup, id) !in d.processed)
    && (forall id | id in d.cancels :: id in d.x.cancels <==> (OrderEventGroup, id) !in d.processed)
    && (forall m | m in d.processed :: if m.0.TradeGroup? then m.1 in d.trades else m.1 in d.cancels)
    && (forall w | w in d.workers :: Known(d, d.workers[w].event))
    && (forall w | w in d.workers && d.workers[w].seen :: MarkOf(d.workers[w].event) in d.processed)
  }

  ghost predicate Starts(d: System) {
    Initial(d.x) && d.trades == map[] && d.cancels == map[] && d.processed == {} && d.workers == map[]
  }

  lemma {:induction false} FillsAddTrades(x: State, tids: seq<Id>, trades: seq<Trade>)
    requires |tids| == |trades|
    ensures forall id | id in FillAll(x, tids, trades).unsettled :: id in x.unsettled || id in tids
    ensures forall id | id in x.unsettled && id !in tids ::
              id in FillAll(x, tids, trades).unsettled && FillAll(x, tids, trades).unsettled[id] == x.unsettled[id]
    ensures FillAll(x, tids, trades).cancels == x.cancels
    decreases |trades|
  {
    if trades != [] {
      FillsAddTrades(Fill(x, tids[0], trades[0]), tids[1..], trades[1..]);
      assert forall id | id in tids :: id == tids[0] || id in tids[1..];
      assert tids[0] in tids && forall id | id in tids[1..] :: id in tids;
    }
  }

  /** What other services do to the events that wait. */
  lemma ElsewhereEvents(d: System, d': System, step: Step)
    requires Marked(d) && ElsewhereStep(d, d', step)
    ensures forall id | id in d'.x.unsettled :: id in d.x.unsettled || id !in d.trades
    ensures forall id | id in d.x.unsettled :: id in d'.x.unsettled && d'.x.unsettled[id] == d.x.unsettled[id]
    ensures forall id | id in d'.x.cancels :: id in d.x.cancels || id !in d.cancels
    ensures forall id | id in d.x.cancels :: id in d'.x.cancels && d'.x.cancels[id] == d.x.cancels[id]
  {
    hide Scan, Marked;
    assert forall id | id in d.x.unsettled :: id in d.trades by { MarkedKnows(d); }
    if step.Match? {
      var t := d.x.l.rows[step.id].ticket;
      FillsAddTrades(d.x.(booked := d.x.booked + {step.id}), step.trades, Scan(t, t.quantity, step.listing).trades);
    }
  }

  lemma MarkedKnows(d: System)
    requires Marked(d)
    ensures forall id | id in d.x.unsettled :: id in d.trades
  {
  }

  lemma ElsewhereKeepsMarked(d: System, d': System, step: Step)
    requires Marked(d) && ElsewhereStep(d, d', step)
    ensures Marked(d')
  {
    hide Next;
    ElsewhereEvents(d, d', step);
  }

  lemma FinishKeepsMarked(d: System, d': System, w: nat, fault: Fault)
    requires Marked(d) && FinishStep(d, d', w, fault)
    ensures Marked(d')
  {
    hide Effect, Marked;
    var task := d.workers[w];
    var left := d.(workers := d.workers - {w});
    LeavingKeepsMarked(d, w);
    if Commits(d, task.event, task.seen, fault) {
      ApplyingKeepsMarked(left, task.event, Effect(d, task.event).ledger);
    }
  }

  lemma LeavingKeepsMarked(d: System, w: nat)
    requires Marked(d)
    ensures Marked(d.(workers := d.workers - {w}))
  {
  }

  lemma ApplyingKeepsMarked(d: System, event: Event, l: Ledger)
    requires Marked(d) && Known(d, event)
    ensures Marked(d.(x := Forget(d.x.(l := l), event), processed := d.processed + {MarkOf(event)}))
  {
  }

  /** The step of the exchange that applies an event. */
  function StepOf(event: Event): Step {
    match event
    case TradeEvent(id) => Step.Settle(id)
    case CancelEvent(id) => Step.Release(id)
  }

  /** The action commits the event's effect. */
  ghost predicate Applies(d: System, action: Action, event: Event) {
    && action.Finish? && action.worker in d.workers
    && d.workers[action.worker].event == event && Known(d, event)
    && Commits(d, event, d.workers[action.worker].seen, action.fault)
  }

  /** The step of the exchange that an action performs, if it performs one. */
  function StepsOf(d: System, action: Action): seq<Step> {
    match action
    case Check(w, event) => []
    case Elsewhere(step) => [step]
    case Finish(w, fault) =>
      if w in d.workers && Known(d, d.workers[w].event)
         && Commits(d, d.workers[w].event, d.workers[w].seen, fault) then [StepOf(d.workers[w].event)] else []
  }

  /** Whatever the deliveries do, the exchange only ever makes its own steps. */
  lemma ActRefines(d: System, action: Action, d': System)
    requires Marked(d) && Act(d, action, d')
    ensures Marked(d') && d.processed <= d'.processed
    ensures StepsOf(d, action) == [] ==> d'.x == d.x
    ensures StepsOf(d, action) != [] ==> Next(d.x, StepsOf(d, action)[0], d'.x)
    ensures forall id | id in d.trades :: id in d'.trades && d'.trades[id] == d.trades[id]
  {
    match action
    case Check(w, event) =>
      hide Next;
      CheckKeepsMarked(d, w, event);
    case Elsewhere(step) =>
      hide Next, Marked;
      ElsewhereKeepsMarked(d, d', step);
      ElsewhereKeepsTrades(d, d', step);
    case Finish(w, fault) =>
      FinishKeepsMarked(d, d', w, fault);
      FinishRefines(d, d', w, fault);
  }

  lemma ElsewhereKeepsTrades(d: System, d': System, step: Step)
    requires Marked(d) && ElsewhereStep(d, d', step)
    ensures forall id | id in d.trades :: id in d'.trades && d'.trades[id] == d.trades[id]
  {
    hide Next;
    ElsewhereEvents(d, d', step);
  }

  lemma CheckKeepsMarked(d: System, w: nat, event: Event)
    requires Marked(d) && w !in d.workers && Known(d, event)
    ensures Marked(d.(workers := d.workers[w := Task(event, MarkOf(event) in d.processed)]))
  {
  }

  lemma FinishRefines(d: System, d': System, w: nat, fault: Fault)
    requires Marked(d) && FinishStep(d, d', w, fault)
    ensures var steps := StepsOf(d, Finish(w, fault));
      if steps == [] then d'.x == d.x else Next(d.x, steps[0], d'.x)
  {
    hide SettleTrade, ReleaseOrder;
  }

  ghost predicate History(systems: seq<System>, actions: seq<Action>) {
    && |systems| == |actions| + 1
    && Starts(systems[0])
    && forall i | 0 <= i < |actions| :: Act(systems[i], actions[i], systems[i + 1])
  }

  function Count(steps: seq<Step>, step: Step): nat {
    if steps == [] then 0 else Count(steps[..|steps| - 1], step) + if steps[|steps| - 1] == step then 1 else 0
  }

  lemma CountAppend(steps: seq<Step>, last: Step, step: Step)
    ensures Count(steps + [last], step) == Count(steps, step) + if last == step then 1 else 0
  {
    assert (steps + [last])[..|steps|] == steps;
  }

  /** Every settlement of the run is one of a trade that was committed, as it was committed. */
  ghost predicate SettlesCommitted(states: seq<State>, steps: seq<Step>, trades: map<Id, Trade>)
    requires |states| == |steps| + 1
  {
    forall i | 0 <= i < |steps| && steps[i].Settle? ::
      && steps[i].trade in states[i].unsettled && steps[i].trade in trades
      && states[i].unsettled[steps[i].trade] == trades[steps[i].trade]
  }

  /**
    Every history of deliveries is, for the exchange, a run that applies each event exactly once if
    it has its mark and not at all if it has not, and applies the trade that was committed.
  */
  lemma {:induction false} HistoryRefines(systems: seq<System>, actions: seq<Action>, n: nat)
    returns (states: seq<State>, steps: seq<Step>)
    requires History(systems, actions) && n < |systems|
    ensures Marked(systems[n])
    ensures Trace(states, steps) && states[|steps|] == systems[n].x
    ensures forall event :: Count(steps, StepOf(event)) == if MarkOf(event) in systems[n].processed then 1 else 0
    ensures SettlesCommitted(states, steps, systems[n].trades)
  {
    hide Act, Next, Count, SettlesCommitted, StepsOf, Marked;
    if n == 0 {
      states, steps := [systems[0].x], [];
      StartRefines(systems[0]);
    } else {
      states, steps := HistoryRefines(systems, actions, n - 1);
      var d, action, d' := systems[n - 1], actions[n - 1], systems[n];
      ActRefines(d, action, d');
      StepMarks(d, action, d');
      var more := StepsOf(d, action);
      SettlesLonger(states, steps, d, d', action);
      if more != [] {
        forall event ensures Count(steps + more, StepOf(event)) == if MarkOf(event) in d'.processed then 1 else 0 {
          assert more == [more[0]];
          CountAppend(steps, more[0], StepOf(event));
        }
        states, steps := states + [d'.x], steps + more;
      }
    }
  }

  lemma StartRefines(d: System)
    requires Starts(d)
    ensures Marked(d) && d.processed == {} && Trace([d.x], []) && SettlesCommitted([d.x], [], d.trades)
    ensures forall step :: Count([], step) == 0
  {
  }

  /** An action sets a mark exactly when it makes the step of that event, and then the mark is new. */
  lemma StepMarks(d: System, action: Action, d': System)
    requires Act(d, action, d')
    ensures |StepsOf(d, action)| <= 1
    ensures forall event ::
      MarkOf(event) in d'.processed <==> MarkOf(event) in d.processed || StepsOf(d, action) == [StepOf(event)]
    ensures forall event :: StepsOf(d, action) == [StepOf(event)] ==> MarkOf(event) !in d.processed
  {
    hide Effect, Next;
    forall event ensures MarkOf(event) in d'.processed
      <==> MarkOf(event) in d.processed || StepsOf(d, action) == [StepOf(event)]
    {
      if action.Finish? { OneMark(d.workers[action.worker].event, event); }
    }
    forall event | StepsOf(d, action) == [StepOf(event)] ensures MarkOf(event) !in d.processed {
      if action.Finish? { OneMark(d.workers[action.worker].event, event); }
    }
  }

  /** Events, their marks and their steps are the same things. */
  lemma OneMark(a: Event, b: Event)
    ensures MarkOf(a) == MarkOf(b) <==> a == b
    ensures StepOf(a) == StepOf(b) <==> a == b
  {
  }

  lemma SettlesLonger(states: seq<State>, steps: seq<Step>, d: System, d': System, action: Action)
    requires |states| == |steps| + 1 && states[|steps|] == d.x && SettlesCommitted(states, steps, d.trades)
    requires Marked(d) && Act(d, action, d')
    requires forall id | id in d.trades :: id in d'.trades && d'.trades[id] == d.trades[id]
    ensures SettlesCommitted(states, steps, d'.trades)
    ensures StepsOf(d, action) != [] ==> SettlesCommitted(states + [d'.x], steps + StepsOf(d, action), d'.trades)
  {
    hide Effect, Next;
    var more := StepsOf(d, action);
    if more != [] {
      var longer, later := steps + more, states + [d'.x];
      assert |more| == 1;
      forall i | 0 <= i < |longer| && longer[i].Settle?
        ensures && longer[i].trade in later[i].unsettled && longer[i].trade in d'.trades
                && later[i].unsettled[longer[i].trade] == d'.trades[longer[i].trade]
      {
        if i < |steps| {
          assert longer[i] == steps[i] && later[i] == states[i];
        } else {
          assert later[i] == d.x && longer[i] == more[0];
          MarkedWaits(d, action);
        }
      }
    }
  }

  /** A trade that is being applied waits, as it was committed. */
  lemma MarkedWaits(d: System, action: Action)
    requires Marked(d) && StepsOf(d, action) != [] && StepsOf(d, action)[0].Settle? && !action.Elsewhere?
    ensures var id := StepsOf(d, action)[0].trade;
      id in d.trades && id in d.x.unsettled && d.x.unsettled[id] == d.trades[id]
  {
    hide Effect;
  }

  lemma {:induction false} MarksStay(systems: seq<System>, actions: seq<Action>, i: nat, j: nat, m: Mark)
    requires History(systems, actions) && i <= j < |systems| && m in systems[i].processed
    ensures m in systems[j].processed
    decreases j - i
  {
    hide Next, Effect;
    if i < j {
      MarksStay(systems, actions, i, j - 1, m);
      assert Act(systems[j - 1], actions[j - 1], systems[j]);
    }
  }

  /** No event is applied twice, however often and however concurrently it is delivered. */
  lemma {:induction false} AppliedOnce(systems: seq<System>, actions: seq<Action>, i: nat, j: nat, event: Event)
    requires History(systems, actions) && i < |actions| && j < |actions|
    requires Applies(systems[i], actions[i], event) && Applies(systems[j], actions[j], event)
    ensures i == j
  {
    hide Next, Effect;
    if i < j {
      assert Act(systems[i], actions[i], systems[i + 1]);
      MarksStay(systems, actions, i + 1, j, MarkOf(event));
    } else if j < i {
      assert Act(systems[j], actions[j], systems[j + 1]);
      MarksStay(systems, actions, j + 1, i, MarkOf(event));
    }
  }

  /** An event has its mark exactly when some delivery before applied it, and then only one did. */
  lemma {:induction false} MarkedIffApplied(systems: seq<System>, actions: seq<Action>, n: nat, event: Event)
    requires History(systems, actions) && n < |systems|
    ensures MarkOf(event) in systems[n].processed
            <==> exists i :: 0 <= i < n && Applies(systems[i], actions[i], event)
    ensures forall i, j | 0 <= i < n && 0 <= j < n
              && Applies(systems[i], actions[i], event) && Applies(systems[j], actions[j], event) :: i == j
  {
    hide Next, Effect, Act, Applies;
    if n > 0 {
      MarkedIffApplied(systems, actions, n - 1, event);
      MarkByApplying(systems[n - 1], actions[n - 1], systems[n], event);
      forall i, j | 0 <= i < n && 0 <= j < n && Applies(systems[i], actions[i], event)
        && Applies(systems[j], actions[j], event) ensures i == j
      {
        AppliedOnce(systems, actions, i, j, event);
      }
    } else {
      assert systems[0].processed == {};
    }
  }

  lemma MarkByApplying(d: System, action: Action, d': System, event: Event)
    requires Act(d, action, d')
    ensures MarkOf(event) in d'.processed <==> MarkOf(event) in d.processed || Applies(d, action, event)
  {
    hide Next, Effect;
    if action.Finish? { OneMark(d.workers[action.worker].event, event); }
  }

  /** In every history the reservation ledger agrees with its parts and nothing is stranded. */
  lemma HistoryHolds(systems: seq<System>, actions: seq<Action>, n: nat)
    requires History(systems, actions) && n < |systems|
    ensures Invariant(systems[n].x)
  {
    hide History, Trace, Invariant;
    var states, steps := HistoryRefines(systems, actions, n);
    TraceEnds(states, steps);
    ReachableHolds(states, steps, |steps|);
  }

  lemma TraceEnds(states: seq<State>, steps: seq<Step>)
    requires Trace(states, steps)
    ensures |steps| < |states|
  {
  }

  /**
    When every committed trade and cancel has its mark, every order has exactly what its remainder
    needs reserved; one with nothing left has nothing reserved.
  */
  lemma QuiescentIsExact(systems: seq<System>, actions: seq<Action>, n: nat, id: Id)
    requires History(systems, actions) && n < |systems| && id in systems[n].x.l.rows
    requires forall t | t in systems[n].trades :: (TradeGroup, t) in systems[n].processed
    requires forall e | e in systems[n].cancels :: (OrderEventGroup, e) in systems[n].processed
    ensures Exact(systems[n].x.l, id)
    ensures systems[n].x.l.rows[id].remaining == 0 ==> systems[n].x.l.rows[id].reserved == 0
  {
    hide History, Trace, Next, Count;
    HistoryHolds(systems, actions, n);
    var states, steps := HistoryRefines(systems, actions, n);
    NothingWaits(systems[n]);
    assert NotStranded(systems[n].x, id);
    NothingWorthNothing(systems[n].x.l.rows[id].ticket);
  }

  lemma NothingWaits(d: System)
    requires Marked(d)
    requires forall t | t in d.trades :: (TradeGroup, t) in d.processed
    requires forall e | e in d.cancels :: (OrderEventGroup, e) in d.processed
    ensures d.x.unsettled == map[] && d.x.cancels == map[]
  {
  }

  /** A worker's first statement is a check of the protocol. */
  method CheckEvent(store: Store, ghost d: System, ghost w: nat, event: Event) returns (task: Task, ghost d': System)
    requires store.processed == d.processed && w !in d.workers && Known(d, event)
    ensures task.event == event && CheckStep(d, d', w, event) && d'.workers[w] == task
  {
    var seen := store.IsEventProcessed(MarkOf(event));
    task := Task(event, seen);
    d' := d.(workers := d.workers[w := task]);
  }

  /** One call of `ProcessTrade` is one finish: it commits under the same condition, with the same effect. */
  method FinishTrade(store: Store, ghost d: System, id: Id, t: Trade, seen: bool, fault: Fault) returns (applied: bool)
    requires id in d.trades && d.trades[id] == t && store.Db() == d.x.l && store.processed == d.processed
    requires seen ==> (TradeGroup, id) in d.processed
    modifies store
    ensures applied <==> Commits(d, TradeEvent(id), seen, fault)
    ensures store.Db() == if applied then Effect(d, TradeEvent(id)).ledger else d.x.l
    ensures store.processed == if applied then d.processed + {MarkOf(TradeEvent(id))} else d.processed
  {
    hide SettleTrade;
    var error;
    applied, error := store.ProcessTrade(id, t, seen, fault);
  }

  /** One call of `ProcessOrderEvent` for a cancellation is one finish. */
  method FinishCancel(store: Store, ghost d: System, id: Id, user: Id, order: Id, seen: bool, fault: Fault)
    returns (applied: bool)
    requires id in d.cancels && d.cancels[id] == order && store.Db() == d.x.l && store.processed == d.processed
    requires user in d.x.l.users
    requires seen ==> (OrderEventGroup, id) in d.processed
    modifies store
    ensures applied <==> Commits(d, CancelEvent(id), seen, fault)
    ensures store.Db() == if applied then Effect(d, CancelEvent(id)).ledger else d.x.l
    ensures store.processed == if applied then d.processed + {MarkOf(CancelEvent(id))} else d.processed
  {
    hide ReleaseOrder;
    var error;
    applied, error := store.ProcessOrderEvent(id, true, user, order, seen, fault);
  }
}
