/**
 The event-bus worker as a state machine: the poll loop, its spawned tasks, the semaphore that bounds
 them, the done-callbacks, and the two-phase drain. Every interleaving is a sequence of the actions below;
 ack and nack are atomic and do not fail.
 */
module EventWorker {
  import opened Prelude
  import opened EventRouter

  datatype Phase = Waiting | Running(next: nat) | Acked | Nacked | Cancelled

  datatype Task = Task(event: EventType, phase: Phase, returned: seq<HandlerId>, cancelRequested: bool)

  /** Where `run` is suspended. */
  datatype Location =
    | Yielding
    | Polling
    | BackingOff
    | DrainWaiting(snapshot: set<nat>)
    | DrainGathering(pending: set<nat>)
    | Returned

  datatype Config = Config(maxConcurrency: nat, registry: Registry)

  /** A task is named by its position in the order of polling; the ledger records every settlement. */
  datatype State = State(
    loc: Location, running: bool, backoff: real, permits: nat,
    tasks: seq<Task>, inFlight: set<nat>, ledger: seq<(nat, Phase)>)

  const BACKOFF_BASE := 0.5
  const BACKOFF_CAP := 5.0

  function Init(cfg: Config): State {
    State(Yielding, true, BACKOFF_BASE, cfg.maxConcurrency, [], {}, [])
  }

  datatype Action =
    | LoopCheck                          // `while self._running`, else into `_drain`
    | PollReturns(events: seq<EventType>) // spawn one task per message
    | PollRaises
    | BackoffElapses
    | Signal                             // the first SIGINT/SIGTERM
    | Acquire(i: nat)                    // task i gets the semaphore
    | HandlerReturns(i: nat)
    | HandlerRaises(i: nat)              // dispatch re-raises: nack
    | Ack(i: nat)                        // every handler returned
    | DeliverCancel(i: nat)              // CancelledError, past `except Exception`
    | Discard(i: nat)                    // done-callback of task i
    | WaitReturns                        // `asyncio.wait`: all done, or the timeout
    | GatherReturns

  predicate Settled(p: Phase) { p.Acked? || p.Nacked? || p.Cancelled? }

  function Unfinished(s: State): set<nat> {
    set i | 0 <= i < |s.tasks| && !Settled(s.tasks[i].phase)
  }

  function Busy(s: State): set<nat> {
    set i | 0 <= i < |s.tasks| && s.tasks[i].phase.Running?
  }

  function Handlers(cfg: Config, t: Task): seq<HandlerId> { HandlersFor(cfg.registry, t.event) }

  predicate InHandler(cfg: Config, s: State, i: nat) {
    i < |s.tasks| && s.tasks[i].phase.Running? && s.tasks[i].phase.next < |Handlers(cfg, s.tasks[i])|
  }

  predicate Enabled(cfg: Config, s: State, a: Action) {
    match a
    case LoopCheck => s.loc.Yielding?
    case PollReturns(_) | PollRaises => s.loc.Polling?
    case BackoffElapses => s.loc.BackingOff?
    case Signal => s.running
    case Acquire(i) => i < |s.tasks| && s.tasks[i].phase.Waiting? && s.permits > 0
    case HandlerReturns(i) => InHandler(cfg, s, i)
    case HandlerRaises(i) => InHandler(cfg, s, i)
    case Ack(i) => i < |s.tasks| && s.tasks[i].phase.Running? && s.tasks[i].phase.next == |Handlers(cfg, s.tasks[i])|
    case DeliverCancel(i) => i < |s.tasks| && !Settled(s.tasks[i].phase) && s.tasks[i].cancelRequested
    case Discard(i) => i in s.inFlight && i < |s.tasks| && Settled(s.tasks[i].phase)
    case WaitReturns => s.loc.DrainWaiting?
    case GatherReturns => s.loc.DrainGathering? && s.loc.pending * Unfinished(s) == {}
  }

  function WithPhase(s: State, i: nat, p: Phase): State
    requires i < |s.tasks|
  {
    s.(tasks := s.tasks[i := s.tasks[i].(phase := p)])
  }

  /** Leave the `async with self._semaphore` block, if entered, and settle. */
  function Settle(s: State, i: nat, p: Phase): State
    requires i < |s.tasks|
  {
    WithPhase(s, i, p).(permits := if s.tasks[i].phase.Running? then s.permits + 1 else s.permits,
                        ledger := s.ledger + [(i, p)])
  }

  function Spawned(events: seq<EventType>): seq<Task> {
    seq(|events|, k requires 0 <= k < |events| => Task(events[k], Waiting, [], false))
  }

  function Range(lo: nat, hi: nat): (r: set<nat>)
    requires lo <= hi
    ensures forall i :: i in r <==> lo <= i < hi
    ensures |r| == hi - lo
    decreases hi - lo
  {
    if lo == hi then {} else {lo} + Range(lo + 1, hi)
  }

  function CancelAll(tasks: seq<Task>, pending: set<nat>): seq<Task> {
    seq(|tasks|, k requires 0 <= k < |tasks| =>
      if k in pending then tasks[k].(cancelRequested := true) else tasks[k])
  }

  function Next(cfg: Config, s: State, a: Action): State
    requires Enabled(cfg, s, a)
  {
    match a
    case LoopCheck =>
      if s.running then s.(loc := Polling)
      else if s.inFlight == {} then s.(loc := Returned)
      else s.(loc := DrainWaiting(s.inFlight))
    case PollReturns(events) =>
      s.(loc := Yielding, backoff := BACKOFF_BASE, tasks := s.tasks + Spawned(events),
         inFlight := s.inFlight + Range(|s.tasks|, |s.tasks| + |events|))
    case PollRaises => s.(loc := BackingOff)
    case BackoffElapses =>
      s.(loc := Yielding, backoff := if s.backoff * 2.0 < BACKOFF_CAP then s.backoff * 2.0 else BACKOFF_CAP)
    case Signal => s.(running := false)
    case Acquire(i) => WithPhase(s, i, Running(0)).(permits := s.permits - 1)
    case HandlerReturns(i) =>
      var t := s.tasks[i];
      s.(tasks := s.tasks[i := t.(phase := Running(t.phase.next + 1),
                                  returned := t.returned + [Handlers(cfg, t)[t.phase.next]])])
    case HandlerRaises(i) => Settle(s, i, Nacked)
    case Ack(i) => Settle(s, i, Acked)
    case DeliverCancel(i) => Settle(s, i, Cancelled)
    case Discard(i) => s.(inFlight := s.inFlight - {i})
    case WaitReturns =>
      var pending := s.loc.snapshot * Unfinished(s);
      s.(loc := if pending == {} then Returned else DrainGathering(pending), tasks := CancelAll(s.tasks, pending))
    case GatherReturns => s.(loc := Returned)
  }

  /** The state after a schedule, or None when the schedule takes an action that is not enabled. */
  function Exec(cfg: Config, s: State, schedule: seq<Action>): Option<State>
    decreases |schedule|
  {
    if schedule == [] then Some(s)
    else if Enabled(cfg, s, schedule[0]) then Exec(cfg, Next(cfg, s, schedule[0]), schedule[1..])
    else None
  }

  // ---------- The invariant ----------

  ghost predicate TaskOk(cfg: Config, t: Task) {
    var hs := Handlers(cfg, t);
    match t.phase
    case Waiting => t.returned == []
    case Running(k) => k <= |hs| && t.returned == hs[..k]
    case Acked => t.returned == hs
    case Nacked => |t.returned| < |hs| && t.returned == hs[..|t.returned|]
    case Cancelled => t.cancelRequested && |t.returned| <= |hs| && t.returned == hs[..|t.returned|]
  }

  ghost predicate LedgerOk(s: State) {
    && (forall j :: 0 <= j < |s.ledger| ==>
          s.ledger[j].0 < |s.tasks| && s.ledger[j].1 == s.tasks[s.ledger[j].0].phase && Settled(s.ledger[j].1))
    && (forall j, k :: 0 <= j < k < |s.ledger| ==> s.ledger[j].0 != s.ledger[k].0)
    && (forall i :: 0 <= i < |s.tasks| && Settled(s.tasks[i].phase) ==>
          exists j :: 0 <= j < |s.ledger| && s.ledger[j].0 == i)
  }

  ghost predicate LocationOk(s: State) {
    match s.loc
    case DrainWaiting(snapshot) => !s.running && Unfinished(s) <= snapshot
    case DrainGathering(pending) =>
      !s.running && Unfinished(s) <= pending
      && forall i :: 0 <= i < |s.tasks| && !Settled(s.tasks[i].phase) ==> s.tasks[i].cancelRequested
    case Returned => !s.running && Unfinished(s) == {}
    case _ => forall i :: 0 <= i < |s.tasks| ==> !s.tasks[i].cancelRequested
  }

  ghost predicate Inv(cfg: Config, s: State) {
    && |Busy(s)| + s.permits == cfg.maxConcurrency
    && (forall i :: 0 <= i < |s.tasks| ==> TaskOk(cfg, s.tasks[i]))
    && Unfinished(s) <= s.inFlight
    && (forall i :: i in s.inFlight ==> i < |s.tasks|)
    && LedgerOk(s)
    && LocationOk(s)
    && BACKOFF_BASE <= s.backoff <= BACKOFF_CAP
  }

  lemma SettleKeepsInv(cfg: Config, s: State, i: nat, p: Phase)
    requires Inv(cfg, s) && i < |s.tasks| && !Settled(s.tasks[i].phase) && Settled(p)
    requires TaskOk(cfg, s.tasks[i].(phase := p))
    requires !s.loc.Returned?
    ensures Inv(cfg, Settle(s, i, p))
  {
    var s' := Settle(s, i, p);
    assert Busy(s') == Busy(s) - {i};
    assert Unfinished(s') == Unfinished(s) - {i};
    SettleKeepsLedger(s, i, p);
  }

  lemma SettleKeepsLedger(s: State, i: nat, p: Phase)
    requires LedgerOk(s) && i < |s.tasks| && !Settled(s.tasks[i].phase) && Settled(p)
    ensures LedgerOk(Settle(s, i, p))
  {
    var s' := Settle(s, i, p);
    assert s'.ledger[|s.ledger|].0 == i;
    forall k | 0 <= k < |s'.tasks| && Settled(s'.tasks[k].phase)
      ensures exists j :: 0 <= j < |s'.ledger| && s'.ledger[j].0 == k
    {
      if k != i {
        assert Settled(s.tasks[k].phase);
        var j :| 0 <= j < |s.ledger| && s.ledger[j].0 == k;
        assert s'.ledger[j].0 == k;
      }
    }
  }

  function Held(t: Task): nat { if t.phase.Running? then 1 else 0 }

  lemma BusyAfter(s: State, s': State, i: nat)
    requires i < |s.tasks| && |s'.tasks| == |s.tasks| && s'.tasks == s.tasks[i := s'.tasks[i]]
    ensures |Busy(s')| + Held(s.tasks[i]) == |Busy(s)| + Held(s'.tasks[i])
  {
    var others := Busy(s) - {i};
    assert Busy(s) == if Held(s.tasks[i]) == 1 then others + {i} else others;
    assert Busy(s') == if Held(s'.tasks[i]) == 1 then others + {i} else others;
  }

  /** A task that moves without settling, and takes or keeps its permit accordingly. */
  lemma TaskMoves(cfg: Config, s: State, s': State, i: nat)
    requires Inv(cfg, s) && i < |s.tasks| && !Settled(s.tasks[i].phase)
    requires |s'.tasks| == |s.tasks| && s' == s.(tasks := s.tasks[i := s'.tasks[i]], permits := s'.permits)
    requires !Settled(s'.tasks[i].phase) && s'.tasks[i].cancelRequested == s.tasks[i].cancelRequested
    requires TaskOk(cfg, s'.tasks[i])
    requires s'.permits + Held(s'.tasks[i]) == s.permits + Held(s.tasks[i])
    ensures Inv(cfg, s')
  {
    hide TaskOk, Busy;
    BusyAfter(s, s', i);
    assert Unfinished(s') == Unfinished(s);
    SettledUnchanged(s, s');
  }

  lemma SettledUnchanged(s: State, s': State)
    requires LedgerOk(s) && |s'.tasks| == |s.tasks| && s'.ledger == s.ledger
    requires forall i :: 0 <= i < |s.tasks| ==>
      (Settled(s.tasks[i].phase) || Settled(s'.tasks[i].phase) ==> s'.tasks[i].phase == s.tasks[i].phase)
    ensures LedgerOk(s')
  {
  }

  lemma SpawnKeepsInv(cfg: Config, s: State, events: seq<EventType>)
    requires Inv(cfg, s) && s.loc.Polling?
    ensures Inv(cfg, Next(cfg, s, PollReturns(events)))
  {
    var s' := Next(cfg, s, PollReturns(events));
    assert forall i :: 0 <= i < |s.tasks| ==> s'.tasks[i] == s.tasks[i];
    assert forall i :: |s.tasks| <= i < |s'.tasks| ==> s'.tasks[i] == Task(events[i - |s.tasks|], Waiting, [], false);
    assert Busy(s') == Busy(s);
  }

  lemma WaitKeepsInv(cfg: Config, s: State)
    requires Inv(cfg, s) && s.loc.DrainWaiting?
    ensures Inv(cfg, Next(cfg, s, WaitReturns))
  {
    var s' := Next(cfg, s, WaitReturns);
    assert forall i :: 0 <= i < |s.tasks| ==>
      s'.tasks[i] == s.tasks[i] || s'.tasks[i] == s.tasks[i].(cancelRequested := true);
    assert Busy(s') == Busy(s);
    assert Unfinished(s') == Unfinished(s);
  }

  predicate MovesNoTask(a: Action) {
    a.LoopCheck? || a.PollRaises? || a.BackoffElapses? || a.Signal? || a.Discard? || a.GatherReturns?
  }

  lemma LoopKeepsInv(cfg: Config, s: State, a: Action)
    requires Inv(cfg, s) && Enabled(cfg, s, a) && MovesNoTask(a)
    ensures Inv(cfg, Next(cfg, s, a))
  {
    hide TaskOk, LedgerOk;
    var s' := Next(cfg, s, a);
    assert Busy(s') == Busy(s) && Unfinished(s') == Unfinished(s);
    SettledUnchanged(s, s');
  }

  lemma AdvanceKeepsInv(cfg: Config, s: State, a: Action)
    requires Inv(cfg, s) && Enabled(cfg, s, a) && (a.Acquire? || a.HandlerReturns?)
    ensures Inv(cfg, Next(cfg, s, a))
  {
    hide LedgerOk, LocationOk, Busy, Unfinished;
    TaskMoves(cfg, s, Next(cfg, s, a), a.i);
  }

  lemma EndKeepsInv(cfg: Config, s: State, a: Action)
    requires Inv(cfg, s) && Enabled(cfg, s, a) && (a.HandlerRaises? || a.Ack? || a.DeliverCancel?)
    ensures Inv(cfg, Next(cfg, s, a))
  {
    hide LedgerOk, LocationOk, Busy, Unfinished, Settle;
    NotReturned(s, a.i);
    SettleKeepsInv(cfg, s, a.i, if a.Ack? then Acked else if a.HandlerRaises? then Nacked else Cancelled);
  }

  lemma InvKept(cfg: Config, s: State, a: Action)
    requires Inv(cfg, s) && Enabled(cfg, s, a)
    ensures Inv(cfg, Next(cfg, s, a))
  {
    hide Inv, Next;
    match a
    case HandlerRaises(_) | Ack(_) | DeliverCancel(_) => EndKeepsInv(cfg, s, a);
    case Acquire(_) | HandlerReturns(_) => AdvanceKeepsInv(cfg, s, a);
    case PollReturns(events) => SpawnKeepsInv(cfg, s, events);
    case WaitReturns => WaitKeepsInv(cfg, s);
    case _ => LoopKeepsInv(cfg, s, a);
  }

  lemma NotReturned(s: State, i: nat)
    requires LocationOk(s) && i < |s.tasks| && !Settled(s.tasks[i].phase)
    ensures !s.loc.Returned?
  {
    assert i in Unfinished(s);
  }

  lemma {:induction false} InvFrom(cfg: Config, s: State, schedule: seq<Action>)
    requires Inv(cfg, s) && Exec(cfg, s, schedule).Some?
    ensures Inv(cfg, Exec(cfg, s, schedule).value)
    decreases |schedule|
  {
    if schedule != [] {
      InvKept(cfg, s, schedule[0]);
      InvFrom(cfg, Next(cfg, s, schedule[0]), schedule[1..]);
    }
  }

  lemma InvAlways(cfg: Config, schedule: seq<Action>)
    requires Exec(cfg, Init(cfg), schedule).Some?
    ensures Inv(cfg, Exec(cfg, Init(cfg), schedule).value)
  {
    assert Busy(Init(cfg)) == {};
    InvFrom(cfg, Init(cfg), schedule);
  }

  // ---------- What the invariant gives ----------

  /** At most `max_concurrency` handlers run, and every unfinished task is in `_in_flight`. */
  lemma ConcurrencyBound(cfg: Config, schedule: seq<Action>)
    requires Exec(cfg, Init(cfg), schedule).Some?
    ensures var s := Exec(cfg, Init(cfg), schedule).value;
      |Busy(s)| <= cfg.maxConcurrency
      && Unfinished(s) == set i | i in s.inFlight && i < |s.tasks| && !Settled(s.tasks[i].phase)
  {
    InvAlways(cfg, schedule);
  }

  /** The messages the polls of a schedule returned, in order. */
  function Polled(schedule: seq<Action>): seq<EventType> {
    if schedule == [] then []
    else (if schedule[0].PollReturns? then schedule[0].events else []) + Polled(schedule[1..])
  }

  /** `after` is `before`, moved on, and one task for each new message. */
  ghost predicate Grown(before: seq<Task>, after: seq<Task>, messages: seq<EventType>) {
    && |after| == |before| + |messages|
    && (forall i :: 0 <= i < |before| ==> after[i].event == before[i].event)
    && (forall i :: |before| <= i < |after| ==> after[i].event == messages[i - |before|])
  }

  lemma GrownTwice(a: seq<Task>, b: seq<Task>, c: seq<Task>, x: seq<EventType>, y: seq<EventType>)
    requires Grown(a, b, x) && Grown(b, c, y)
    ensures Grown(a, c, x + y)
  {
  }

  lemma GrownByOne(cfg: Config, s: State, a: Action)
    requires Enabled(cfg, s, a)
    ensures Grown(s.tasks, Next(cfg, s, a).tasks, if a.PollReturns? then a.events else [])
  {
  }

  lemma {:induction false} GrownBy(cfg: Config, s: State, schedule: seq<Action>)
    requires Exec(cfg, s, schedule).Some?
    ensures Grown(s.tasks, Exec(cfg, s, schedule).value.tasks, Polled(schedule))
    decreases |schedule|
  {
    if schedule != [] {
      hide Enabled, Next, Grown;
      var a := schedule[0];
      GrownByOne(cfg, s, a);
      GrownBy(cfg, Next(cfg, s, a), schedule[1..]);
      GrownTwice(s.tasks, Next(cfg, s, a).tasks, Exec(cfg, s, schedule).value.tasks,
                 if a.PollReturns? then a.events else [], Polled(schedule[1..]));
    }
  }

  /** No message is lost: every polled message has its task, and there are no other tasks. */
  lemma EveryMessageHasItsTask(cfg: Config, schedule: seq<Action>)
    requires Exec(cfg, Init(cfg), schedule).Some?
    ensures var s := Exec(cfg, Init(cfg), schedule).value;
      && |s.tasks| == |Polled(schedule)|
      && forall i :: 0 <= i < |s.tasks| ==> s.tasks[i].event == Polled(schedule)[i]
  {
    hide Exec;
    GrownBy(cfg, Init(cfg), schedule);
  }

  /**
   What the outcome of the i-th polled message means. Acked: every handler registered for its type returned, in
   order. Nacked: the handlers before one of them returned, in order, and not that one.
   */
  lemma SettlementMeaning(cfg: Config, schedule: seq<Action>, i: nat)
    requires Exec(cfg, Init(cfg), schedule).Some? && i < |Polled(schedule)|
    ensures var s := Exec(cfg, Init(cfg), schedule).value;
      i < |s.tasks|
      && var t := s.tasks[i]; var hs := HandlersFor(cfg.registry, Polled(schedule)[i]);
      && (t.phase.Acked? ==> t.returned == hs)
      && (t.phase.Nacked? ==> |t.returned| < |hs| && t.returned == hs[..|t.returned|])
  {
    InvAlways(cfg, schedule);
    EveryMessageHasItsTask(cfg, schedule);
    hide Exec;
  }

  /** The worker runs until the first signal, and polls as long as it runs. */
  lemma {:induction false} RunsUntilSignal(cfg: Config, s: State, schedule: seq<Action>)
    requires Exec(cfg, s, schedule).Some?
    ensures Exec(cfg, s, schedule).value.running <==> s.running && Signal !in schedule
    decreases |schedule|
  {
    if schedule != [] {
      RunsUntilSignal(cfg, Next(cfg, s, schedule[0]), schedule[1..]);
    }
  }

  /** At its loop test the worker goes on polling exactly while no signal has come; else it drains what is in flight. */
  lemma PollsUntilSignal(cfg: Config, schedule: seq<Action>)
    requires Exec(cfg, Init(cfg), schedule).Some? && Exec(cfg, Init(cfg), schedule).value.loc.Yielding?
    ensures var s := Exec(cfg, Init(cfg), schedule).value; var loc := Next(cfg, s, LoopCheck).loc;
      && (loc.Polling? <==> Signal !in schedule)
      && (loc.Returned? <==> Signal in schedule && s.inFlight == {})
      && (Signal in schedule && s.inFlight != {} ==> loc == DrainWaiting(s.inFlight))
  {
    RunsUntilSignal(cfg, Init(cfg), schedule);
    hide Exec;
  }

  /** Failed polls, slept off, since the last one that returned. */
  function Failures(schedule: seq<Action>): nat {
    if schedule == [] then 0
    else
      var last := schedule[|schedule| - 1];
      if last.PollReturns? then 0
      else Failures(schedule[..|schedule| - 1]) + if last.BackoffElapses? then 1 else 0
  }

  /** Half a second, doubled for every failure, at most five seconds. */
  function BackoffAfter(failures: nat): real {
    if failures == 0 then 0.5
    else if failures == 1 then 1.0
    else if failures == 2 then 2.0
    else if failures == 3 then 4.0
    else 5.0
  }

  lemma BackoffStep(cfg: Config, s: State, a: Action, failures: nat)
    requires Enabled(cfg, s, a) && s.backoff == BackoffAfter(failures)
    ensures Next(cfg, s, a).backoff ==
      BackoffAfter(if a.PollReturns? then 0 else if a.BackoffElapses? then failures + 1 else failures)
  {
  }

  lemma {:induction false} BackoffGrows(cfg: Config, schedule: seq<Action>)
    requires Exec(cfg, Init(cfg), schedule).Some?
    ensures Exec(cfg, Init(cfg), schedule).value.backoff == BackoffAfter(Failures(schedule))
    decreases |schedule|
  {
    if schedule != [] {
      hide Next, Enabled, BackoffAfter;
      var before, last := schedule[..|schedule| - 1], schedule[|schedule| - 1];
      assert schedule == before + [last];
      PrefixRuns(cfg, Init(cfg), before, [last]);
      ExecConcat(cfg, Init(cfg), before, [last]);
      BackoffGrows(cfg, before);
      var s := Exec(cfg, Init(cfg), before).value;
      assert [last][1..] == [] && Exec(cfg, s, [last]) == Some(Next(cfg, s, last));
      BackoffStep(cfg, s, last, Failures(before));
    }
  }

  predicate SameOutcome(s: State, s': State, i: nat) {
    i < |s.tasks| && Settled(s.tasks[i].phase) ==> i < |s'.tasks| && s'.tasks[i].phase == s.tasks[i].phase
  }

  lemma {:induction false} OutcomeIsFinal(cfg: Config, s: State, schedule: seq<Action>, i: nat)
    requires Exec(cfg, s, schedule).Some?
    ensures SameOutcome(s, Exec(cfg, s, schedule).value, i)
    decreases |schedule|
  {
    if schedule != [] {
      assert SameOutcome(s, Next(cfg, s, schedule[0]), i);
      OutcomeIsFinal(cfg, Next(cfg, s, schedule[0]), schedule[1..], i);
    }
  }

  lemma {:induction false} ExecConcat(cfg: Config, s: State, a: seq<Action>, b: seq<Action>)
    requires Exec(cfg, s, a).Some?
    ensures Exec(cfg, s, a + b) == Exec(cfg, Exec(cfg, s, a).value, b)
    decreases |a|
  {
    if a == [] {
      assert a + b == b;
    } else {
      assert (a + b)[1..] == a[1..] + b;
      ExecConcat(cfg, Next(cfg, s, a[0]), a[1..], b);
    }
  }

  /** A handler that raises gets its message nacked, and nothing that happens later acks it. */
  lemma RaiseMeansNack(cfg: Config, before: seq<Action>, i: nat, later: seq<Action>)
    requires Exec(cfg, Init(cfg), before + [HandlerRaises(i)] + later).Some?
    ensures var s := Exec(cfg, Init(cfg), before + [HandlerRaises(i)] + later).value;
      i < |s.tasks| && s.tasks[i].phase == Nacked
      && forall j :: 0 <= j < |s.ledger| && s.ledger[j].0 == i ==> s.ledger[j].1 == Nacked
  {
    hide Enabled, Next;
    var all := before + [HandlerRaises(i)] + later;
    InvAlways(cfg, all);
    assert all == before + ([HandlerRaises(i)] + later);
    PrefixRuns(cfg, Init(cfg), before, [HandlerRaises(i)] + later);
    ExecConcat(cfg, Init(cfg), before, [HandlerRaises(i)] + later);
    var s := Exec(cfg, Init(cfg), before).value;
    assert ([HandlerRaises(i)] + later)[1..] == later;
    NackStep(cfg, s, i);
    OutcomeIsFinal(cfg, Next(cfg, s, HandlerRaises(i)), later, i);
  }

  lemma NackStep(cfg: Config, s: State, i: nat)
    requires Enabled(cfg, s, HandlerRaises(i))
    ensures i < |Next(cfg, s, HandlerRaises(i)).tasks| && Next(cfg, s, HandlerRaises(i)).tasks[i].phase == Nacked
  {
  }

  lemma {:induction false} PrefixRuns(cfg: Config, s: State, a: seq<Action>, b: seq<Action>)
    requires Exec(cfg, s, a + b).Some?
    ensures Exec(cfg, s, a).Some?
    decreases |a|
  {
    if a != [] {
      assert (a + b)[0] == a[0] && (a + b)[1..] == a[1..] + b;
      PrefixRuns(cfg, Next(cfg, s, a[0]), a[1..], b);
    }
  }

  // ---------- Conservation at the end of `run` ----------

  function Count(ledger: seq<(nat, Phase)>, p: Phase): nat {
    if ledger == [] then 0 else (if ledger[0].1 == p then 1 else 0) + Count(ledger[1..], p)
  }

  lemma {:induction false} CountsAddUp(ledger: seq<(nat, Phase)>)
    requires forall j :: 0 <= j < |ledger| ==> Settled(ledger[j].1)
    ensures Count(ledger, Acked) + Count(ledger, Nacked) + Count(ledger, Cancelled) == |ledger|
  {
    if ledger != [] {
      CountsAddUp(ledger[1..]);
    }
  }

  function Named(ledger: seq<(nat, Phase)>): set<nat> {
    set j | 0 <= j < |ledger| :: ledger[j].0
  }

  lemma {:induction false} NamedOnce(ledger: seq<(nat, Phase)>)
    requires forall j, k :: 0 <= j < k < |ledger| ==> ledger[j].0 != ledger[k].0
    ensures |Named(ledger)| == |ledger|
  {
    if ledger != [] {
      var front, last := ledger[..|ledger| - 1], ledger[|ledger| - 1];
      NamedOnce(front);
      assert Named(ledger) == Named(front) + {last.0} by {
        forall x | x in Named(ledger) ensures x in Named(front) + {last.0} {
          var j :| 0 <= j < |ledger| && ledger[j].0 == x;
          assert j < |front| ==> front[j].0 == x;
        }
        forall x | x in Named(front) ensures x in Named(ledger) {
          var j :| 0 <= j < |front| && front[j].0 == x;
          assert ledger[j].0 == x;
        }
      }
      assert last.0 !in Named(front);
    }
  }

  /** When `run` has returned, every polled message was settled exactly once. */
  lemma DrainConserves(cfg: Config, schedule: seq<Action>)
    requires Exec(cfg, Init(cfg), schedule).Some? && Exec(cfg, Init(cfg), schedule).value.loc.Returned?
    ensures var s := Exec(cfg, Init(cfg), schedule).value;
      && |s.tasks| == |Polled(schedule)|
      && (forall i :: 0 <= i < |Polled(schedule)| ==> Settled(s.tasks[i].phase))
      && (forall i :: 0 <= i < |Polled(schedule)| ==>
            exists j :: 0 <= j < |s.ledger| && s.ledger[j] == (i, s.tasks[i].phase))
      && |Polled(schedule)| == Count(s.ledger, Acked) + Count(s.ledger, Nacked) + Count(s.ledger, Cancelled)
  {
    hide Exec, TaskOk, Busy, Count;
    InvAlways(cfg, schedule);
    EveryMessageHasItsTask(cfg, schedule);
    var s := Exec(cfg, Init(cfg), schedule).value;
    forall i | 0 <= i < |s.tasks|
      ensures Settled(s.tasks[i].phase)
      ensures exists j :: 0 <= j < |s.ledger| && s.ledger[j] == (i, s.tasks[i].phase)
    {
      assert i !in Unfinished(s);
      var j :| 0 <= j < |s.ledger| && s.ledger[j].0 == i;
      assert s.ledger[j] == (i, s.tasks[i].phase);
    }
    CountsAddUp(s.ledger);
    NamedOnce(s.ledger);
    NamedAreAll(s);
  }

  lemma NamedAreAll(s: State)
    requires LedgerOk(s) && forall i :: 0 <= i < |s.tasks| ==> Settled(s.tasks[i].phase)
    ensures Named(s.ledger) == Range(0, |s.tasks|)
  {
    forall i ensures i in Named(s.ledger) <==> i in Range(0, |s.tasks|) {
      if 0 <= i < |s.tasks| {
        assert Settled(s.tasks[i].phase);
        var j :| 0 <= j < |s.ledger| && s.ledger[j].0 == i;
      }
    }
  }

  // ---------- The drain ends ----------

  predicate Draining(s: State) {
    s.loc.DrainWaiting? || s.loc.DrainGathering? || s.loc.Returned?
  }

  /** Steps a task can still take: enter, one per handler, settle. */
  function Steps(cfg: Config, t: Task): nat {
    var n := |Handlers(cfg, t)|;
    match t.phase
    case Waiting => n + 2
    case Running(k) => if k <= n then n - k + 1 else 1
    case _ => 0
  }

  function AllSteps(cfg: Config, tasks: seq<Task>): nat {
    if tasks == [] then 0 else Steps(cfg, tasks[0]) + AllSteps(cfg, tasks[1..])
  }

  /** Steps the drain itself can still take. */
  function DrainSteps(loc: Location): nat {
    match loc case DrainWaiting(_) => 2 case DrainGathering(_) => 1 case _ => 0
  }

  /** Task steps, done-callbacks and drain steps left. */
  function Remaining(cfg: Config, s: State): nat {
    AllSteps(cfg, s.tasks) + |s.inFlight| + DrainSteps(s.loc)
  }

  lemma {:induction false} OneTaskSteps(cfg: Config, tasks: seq<Task>, i: nat, t: Task)
    requires i < |tasks|
    ensures AllSteps(cfg, tasks[i := t]) + Steps(cfg, tasks[i]) == AllSteps(cfg, tasks) + Steps(cfg, t)
  {
    hide Steps;
    if i == 0 {
      assert tasks[0 := t][1..] == tasks[1..];
    } else {
      assert tasks[i := t][1..] == tasks[1..][i - 1 := t];
      OneTaskSteps(cfg, tasks[1..], i - 1, t);
    }
  }

  lemma {:induction false} SameSteps(cfg: Config, a: seq<Task>, b: seq<Task>)
    requires |a| == |b| && forall i :: 0 <= i < |a| ==> a[i].event == b[i].event && a[i].phase == b[i].phase
    ensures AllSteps(cfg, a) == AllSteps(cfg, b)
  {
    if a != [] {
      SameSteps(cfg, a[1..], b[1..]);
    }
  }

  predicate MovesTask(a: Action) {
    a.Acquire? || a.HandlerReturns? || a.HandlerRaises? || a.Ack? || a.DeliverCancel?
  }

  lemma TaskStepsFall(cfg: Config, s: State, a: Action)
    requires Enabled(cfg, s, a) && MovesTask(a)
    ensures var s' := Next(cfg, s, a);
      && s'.loc == s.loc && s'.inFlight == s.inFlight && |s'.tasks| == |s.tasks| && a.i < |s.tasks|
      && s'.tasks == s.tasks[a.i := s'.tasks[a.i]] && Steps(cfg, s'.tasks[a.i]) < Steps(cfg, s.tasks[a.i])
  {
  }

  /** Every action a draining worker can take leaves less to do, and goes on draining. */
  lemma DrainStep(cfg: Config, s: State, a: Action)
    requires Inv(cfg, s) && Draining(s) && Enabled(cfg, s, a)
    ensures Draining(Next(cfg, s, a)) && Remaining(cfg, Next(cfg, s, a)) < Remaining(cfg, s)
  {
    if MovesTask(a) {
      hide Enabled, Next, Steps, AllSteps, Inv;
      TaskStepsFall(cfg, s, a);
      OneTaskSteps(cfg, s.tasks, a.i, Next(cfg, s, a).tasks[a.i]);
    } else {
      assert !s.running;
      hide Inv;
      LoopStepsFall(cfg, s, a);
    }
  }

  lemma LoopStepsFall(cfg: Config, s: State, a: Action)
    requires !s.running && Draining(s) && Enabled(cfg, s, a) && !MovesTask(a)
    ensures Draining(Next(cfg, s, a)) && Remaining(cfg, Next(cfg, s, a)) < Remaining(cfg, s)
  {
    hide AllSteps, Unfinished, CancelAll;
    var s' := Next(cfg, s, a);
    match a
    case Discard(i) => assert s.inFlight == s'.inFlight + {i};
    case WaitReturns => CancelledSteps(cfg, s.tasks, s.loc.snapshot * Unfinished(s));
    case _ =>
  }

  /** Asking for cancellation takes no step from a task. */
  lemma CancelledSteps(cfg: Config, tasks: seq<Task>, pending: set<nat>)
    ensures AllSteps(cfg, CancelAll(tasks, pending)) == AllSteps(cfg, tasks)
  {
    hide AllSteps;
    SameSteps(cfg, CancelAll(tasks, pending), tasks);
  }

  lemma {:induction false} DrainBound(cfg: Config, s: State, schedule: seq<Action>)
    requires Inv(cfg, s) && Draining(s) && Exec(cfg, s, schedule).Some?
    ensures var end := Exec(cfg, s, schedule).value;
      Inv(cfg, end) && Draining(end) && |schedule| + Remaining(cfg, end) <= Remaining(cfg, s)
    decreases |schedule|
  {
    hide Inv, Enabled, Next, Remaining, Draining;
    if schedule != [] {
      InvKept(cfg, s, schedule[0]);
      DrainStep(cfg, s, schedule[0]);
      DrainBound(cfg, Next(cfg, s, schedule[0]), schedule[1..]);
    }
  }

  /** A drain that has not returned can go on: wait for its timeout, be handed a cancellation, or gather. */
  lemma DrainGoesOn(cfg: Config, s: State) returns (a: Action)
    requires Inv(cfg, s) && Draining(s) && !s.loc.Returned?
    ensures Enabled(cfg, s, a)
  {
    if s.loc.DrainWaiting? {
      a := WaitReturns;
    } else if Unfinished(s) == {} {
      a := GatherReturns;
    } else {
      var i :| i in Unfinished(s);
      a := DeliverCancel(i);
    }
  }

  /**
   The drain cannot hang, whatever the scheduler does: from the moment it starts, the length of every schedule
   is bounded, and a schedule that cannot be continued has reached the return of `run`.
   */
  lemma EveryDrainReturns(cfg: Config, s: State, schedule: seq<Action>)
    requires Inv(cfg, s) && Draining(s) && Exec(cfg, s, schedule).Some?
    ensures |schedule| <= Remaining(cfg, s)
    ensures var end := Exec(cfg, s, schedule).value;
      (forall a :: !Enabled(cfg, end, a)) ==> end.loc.Returned?
  {
    hide Inv, Enabled, Next, Remaining, Draining;
    DrainBound(cfg, s, schedule);
    var end := Exec(cfg, s, schedule).value;
    if !end.loc.Returned? {
      var a := DrainGoesOn(cfg, end);
    }
  }
}
