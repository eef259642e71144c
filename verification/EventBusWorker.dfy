/**
 The worker object: what each stretch of `EventBusWorker` does to its fields between two suspension points.
 Every method is one action of the state machine in `EventWorker`.
 */
module EventBusWorker {
  import opened Prelude
  import opened EventRouter
  import opened EventWorker

  lemma AllSpawned(before: seq<Task>, after: seq<Task>, events: seq<EventType>)
    requires |after| == |before| + |events| && after[..|before|] == before
    requires forall j :: 0 <= j < |events| ==> after[|before| + j] == Task(events[j], Waiting, [], false)
    ensures after == before + Spawned(events)
  {
  }

  lemma OneMoreCancelled(tasks: seq<Task>, done: set<nat>, i: nat)
    requires i < |tasks| && i !in done
    ensures var before := CancelAll(tasks, done);
      CancelAll(tasks, done + {i}) == before[i := before[i].(cancelRequested := true)]
  {
  }

  class Worker {
    const cfg: Config
    var loc: Location
    var running: bool
    var backoff: real
    var permits: nat
    var tasks: seq<Task>
    var inFlight: set<nat>
    var ledger: seq<(nat, Phase)>

    constructor (cfg: Config)
      ensures this.cfg == cfg && View() == Init(cfg)
    {
      this.cfg, loc, running, backoff := cfg, Yielding, true, BACKOFF_BASE;
      permits, tasks, inFlight, ledger := cfg.maxConcurrency, [], {}, [];
    }

    function View(): State
      reads this
    {
      State(loc, running, backoff, permits, tasks, inFlight, ledger)
    }

    /** The `while` test, and the head of `_drain` when it fails. */
    method CheckLoop()
      requires loc.Yielding?
      modifies this`loc
      ensures View() == Next(cfg, old(View()), LoopCheck)
    {
      if running {
        loc := Polling;
      } else if inFlight == {} {
        loc := Returned;
      } else {
        loc := DrainWaiting(inFlight);
      }
    }

    /** A poll that returned: one task per message, each added to the in-flight set. */
    method Spawn(events: seq<EventType>)
      requires loc.Polling?
      modifies this`loc, this`backoff, this`tasks, this`inFlight
      ensures View() == Next(cfg, old(View()), PollReturns(events))
      ensures |tasks| == |old(tasks)| + |events|
      ensures forall i :: 0 <= i < |events| ==>
        tasks[|old(tasks)| + i] == Task(events[i], Waiting, [], false) && |old(tasks)| + i in inFlight
    {
      hide Spawned, Range;
      backoff := BACKOFF_BASE;
      CreateTasks(events);
      loc := Yielding;
    }

    method CreateTasks(events: seq<EventType>)
      modifies this`tasks, this`inFlight
      ensures tasks == old(tasks) + Spawned(events)
      ensures inFlight == old(inFlight) + Range(|old(tasks)|, |old(tasks)| + |events|)
      ensures |tasks| == |old(tasks)| + |events|
      ensures forall i :: 0 <= i < |events| ==>
        tasks[|old(tasks)| + i] == Task(events[i], Waiting, [], false) && |old(tasks)| + i in inFlight
    {
      hide Spawned;
      ghost var n := |tasks|;
      for k := 0 to |events|
        invariant |tasks| == n + k && tasks[..n] == old(tasks)
        invariant forall j :: 0 <= j < k ==> tasks[n + j] == Task(events[j], Waiting, [], false)
        invariant forall i :: i in inFlight <==> i in old(inFlight) || n <= i < n + k
      {
        inFlight := inFlight + {|tasks|};
        tasks := tasks + [Task(events[k], Waiting, [], false)];
      }
      AllSpawned(old(tasks), tasks, events);
    }

    /** The backoff sleep is over: double it, up to the cap. */
    method EndBackoff()
      requires loc.BackingOff?
      modifies this`loc, this`backoff
      ensures View() == Next(cfg, old(View()), BackoffElapses)
    {
      backoff := backoff * 2.0;
      if backoff >= BACKOFF_CAP {
        backoff := BACKOFF_CAP;
      }
      loc := Yielding;
    }

    /** The first signal. */
    method Shutdown()
      requires running
      modifies this`running
      ensures View() == Next(cfg, old(View()), Signal)
    {
      running := false;
    }

    /** `_bounded_process` entering the semaphore, then `_process_message` before its first handler. */
    method Acquire(i: nat)
      requires i < |tasks| && tasks[i].phase.Waiting? && permits > 0
      modifies this`permits, this`tasks
      ensures View() == Next(cfg, old(View()), EventWorker.Acquire(i))
    {
      permits := permits - 1;
      tasks := tasks[i := tasks[i].(phase := Running(0))];
    }

    method HandlerReturned(i: nat)
      requires InHandler(cfg, View(), i)
      modifies this`tasks
      ensures View() == Next(cfg, old(View()), HandlerReturns(i))
    {
      var t := tasks[i];
      var handler := Handlers(cfg, t)[t.phase.next];
      tasks := tasks[i := t.(phase := Running(t.phase.next + 1), returned := t.returned + [handler])];
    }

    /** Task `i` ends with ack, nack or cancellation, leaving the semaphore if it had entered it. */
    method End(i: nat, p: Phase)
      requires i < |tasks|
      modifies this`permits, this`tasks, this`ledger
      ensures View() == Settle(old(View()), i, p)
    {
      if tasks[i].phase.Running? {
        permits := permits + 1;
      }
      tasks := tasks[i := tasks[i].(phase := p)];
      ledger := ledger + [(i, p)];
    }

    /** `asyncio.wait` came back: cancel whatever is still running. */
    method CancelStragglers()
      requires loc.DrainWaiting?
      modifies this`loc, this`tasks
      ensures View() == Next(cfg, old(View()), WaitReturns)
    {
      var pending := loc.snapshot * Unfinished(View());
      CancelTasks(pending);
      loc := if pending == {} then Returned else DrainGathering(pending);
    }

    method CancelTasks(pending: set<nat>)
      requires forall i :: i in pending ==> i < |tasks|
      modifies this`tasks
      ensures tasks == CancelAll(old(tasks), pending)
    {
      var left := pending;
      while left != {}
        invariant left <= pending
        invariant |tasks| == |old(tasks)| && tasks == CancelAll(old(tasks), pending - left)
        decreases |left|
      {
        var i :| i in left;
        OneMoreCancelled(old(tasks), pending - left, i);
        assert pending - left + {i} == pending - (left - {i});
        left := left - {i};
        tasks := tasks[i := tasks[i].(cancelRequested := true)];
      }
      assert pending - left == pending;
    }

    /** Every action of the state machine is one of these methods, and the invariant survives it. */
    method Perform(a: Action)
      requires Enabled(cfg, View(), a) && Inv(cfg, View())
      modifies this
      ensures View() == Next(cfg, old(View()), a)
      ensures Inv(cfg, View())
    {
      InvKept(cfg, View(), a);
      match a
      case LoopCheck => CheckLoop();
      case PollReturns(events) => Spawn(events);
      case PollRaises => loc := BackingOff;
      case BackoffElapses => EndBackoff();
      case Signal => Shutdown();
      case Acquire(i) => Acquire(i);
      case HandlerReturns(i) => HandlerReturned(i);
      case HandlerRaises(i) => End(i, Nacked);
      case Ack(i) => End(i, Acked);
      case DeliverCancel(i) => End(i, Cancelled);
      case Discard(i) => inFlight := inFlight - {i};
      case WaitReturns => CancelStragglers();
      case GatherReturns => loc := Returned;
    }
  }
}
