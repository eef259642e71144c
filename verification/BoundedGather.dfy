/**
 `gather_with_concurrency`: n coroutines that return, each inside `async with semaphore`, gathered in order.
 A schedule is any sequence of "task i enters the semaphore" and "task i returns and leaves it".
 */
module BoundedGather {
  import opened Prelude

  datatype Progress<T> = Queued | Executing | Done(result: T)

  datatype State<T> = State(permits: nat, tasks: seq<Progress<T>>)

  datatype Action = Enter(i: nat) | Return(i: nat)

  function Init<T>(limit: nat, n: nat): State<T> {
    State(limit, seq(n, i => Queued))
  }

  predicate Enabled<T>(s: State<T>, a: Action) {
    match a
    case Enter(i) => i < |s.tasks| && s.tasks[i].Queued? && s.permits > 0
    case Return(i) => i < |s.tasks| && s.tasks[i].Executing?
  }

  /** `values[i]` is what coroutine i returns. */
  function Next<T>(values: seq<T>, s: State<T>, a: Action): State<T>
    requires Enabled(s, a) && |values| == |s.tasks|
  {
    match a
    case Enter(i) => State(s.permits - 1, s.tasks[i := Executing])
    case Return(i) => State(s.permits + 1, s.tasks[i := Done(values[i])])
  }

  function Exec<T>(values: seq<T>, s: State<T>, schedule: seq<Action>): Option<State<T>>
    requires |values| == |s.tasks|
    decreases |schedule|
  {
    if schedule == [] then Some(s)
    else if Enabled(s, schedule[0]) then Exec(values, Next(values, s, schedule[0]), schedule[1..])
    else None
  }

  function InFlight<T>(tasks: seq<Progress<T>>): nat {
    if tasks == [] then 0 else InFlight(tasks[1..]) + if tasks[0].Executing? then 1 else 0
  }

  /** Steps all tasks have taken: one to enter, one to return. */
  function Taken<T>(tasks: seq<Progress<T>>): nat {
    if tasks == [] then 0
    else Taken(tasks[1..]) + if tasks[0].Queued? then 0 else if tasks[0].Executing? then 1 else 2
  }

  lemma {:induction false} OneTaskMoves<T>(tasks: seq<Progress<T>>, i: nat, p: Progress<T>)
    requires i < |tasks|
    ensures var was := tasks[i]; var after := tasks[i := p];
      && InFlight(after) == InFlight(tasks) + (if p.Executing? then 1 else 0) - (if was.Executing? then 1 else 0)
      && Taken(after) - Taken(tasks) == Taken([p]) - Taken([was])
  {
    assert [p][1..] == [] && [tasks[i]][1..] == [];
    if i == 0 {
      assert tasks[0 := p][1..] == tasks[1..];
    } else {
      assert tasks[i := p][1..] == tasks[1..][i - 1 := p];
      OneTaskMoves(tasks[1..], i - 1, p);
    }
  }

  ghost predicate Inv<T>(limit: nat, values: seq<T>, s: State<T>) {
    && |values| == |s.tasks|
    && s.permits + InFlight(s.tasks) == limit
    && forall i :: 0 <= i < |s.tasks| && s.tasks[i].Done? ==> s.tasks[i].result == values[i]
  }

  lemma {:induction false} InvFrom<T>(limit: nat, values: seq<T>, s: State<T>, schedule: seq<Action>)
    requires Inv(limit, values, s) && Exec(values, s, schedule).Some?
    ensures Inv(limit, values, Exec(values, s, schedule).value)
    ensures Taken(Exec(values, s, schedule).value.tasks) == Taken(s.tasks) + |schedule|
    decreases |schedule|
  {
    if schedule != [] {
      var s' := Next(values, s, schedule[0]);
      var i := schedule[0].i;
      OneTaskMoves(s.tasks, i, s'.tasks[i]);
      InvFrom(limit, values, s', schedule[1..]);
    }
  }

  lemma {:induction false} NothingTaken<T>(tasks: seq<Progress<T>>)
    requires forall i :: 0 <= i < |tasks| ==> tasks[i].Queued?
    ensures InFlight(tasks) == 0 && Taken(tasks) == 0
  {
    if tasks != [] {
      NothingTaken(tasks[1..]);
    }
  }

  lemma {:induction false} AllTaken<T>(tasks: seq<Progress<T>>)
    ensures Taken(tasks) <= 2 * |tasks|
    ensures Taken(tasks) == 2 * |tasks| <==> forall i :: 0 <= i < |tasks| ==> tasks[i].Done?
  {
    if tasks != [] {
      AllTaken(tasks[1..]);
      if forall i :: 0 <= i < |tasks[1..]| ==> tasks[1..][i].Done? {
        assert forall i :: 1 <= i < |tasks| ==> tasks[i] == tasks[1..][i - 1];
      } else {
        var i :| 0 <= i < |tasks[1..]| && !tasks[1..][i].Done?;
        assert !tasks[i + 1].Done?;
      }
    }
  }

  /** `[t.result() for t in tasks]`, the list `asyncio.gather` returns once every task is done. */
  method Collect<T>(tasks: seq<Progress<T>>) returns (results: seq<T>)
    requires forall i :: 0 <= i < |tasks| ==> tasks[i].Done?
    ensures |results| == |tasks| && forall i :: 0 <= i < |results| ==> results[i] == tasks[i].result
  {
    results := [];
    for k := 0 to |tasks|
      invariant |results| == k && forall i :: 0 <= i < k ==> results[i] == tasks[i].result
    {
      results := results + [tasks[k].result];
    }
  }

  /**
   For every schedule: at most `limit` coroutines run at once, the schedule has at most 2n steps, with 2n
   exactly when every coroutine is done, and then result i is coroutine i's value.
   */
  lemma GatherIsBounded<T>(limit: nat, values: seq<T>, schedule: seq<Action>)
    requires Exec(values, Init(limit, |values|), schedule).Some?
    ensures var s := Exec(values, Init(limit, |values|), schedule).value;
      && |s.tasks| == |values| && InFlight(s.tasks) <= limit
      && |schedule| <= 2 * |values|
      && (|schedule| == 2 * |values| <==> forall i :: 0 <= i < |values| ==> s.tasks[i].Done?)
      && (forall i :: 0 <= i < |values| && s.tasks[i].Done? ==> s.tasks[i].result == values[i])
  {
    var s: State<T> := Init(limit, |values|);
    NothingTaken(s.tasks);
    InvFrom(limit, values, s, schedule);
    AllTaken(Exec(values, s, schedule).value.tasks);
  }

  /** A schedule that stops early can always be continued when the limit is positive; with limit 0 none starts. */
  lemma NeverStuck<T>(limit: nat, values: seq<T>, schedule: seq<Action>)
    requires Exec(values, Init(limit, |values|), schedule).Some? && |schedule| < 2 * |values|
    ensures limit >= 1 <==> exists a :: Enabled(Exec(values, Init(limit, |values|), schedule).value, a)
  {
    GatherIsBounded(limit, values, schedule);
    var s: State<T> := Init(limit, |values|);
    NothingTaken(s.tasks);
    InvFrom(limit, values, s, schedule);
    var s' := Exec(values, s, schedule).value;
    if k :| 0 <= k < |values| && s'.tasks[k].Executing? {
      assert Enabled(s', Return(k));
      SomeExecuting(s'.tasks, k);
    } else {
      NoneExecuting(s'.tasks);
      var k :| 0 <= k < |values| && !s'.tasks[k].Done?;
      if limit >= 1 {
        assert Enabled(s', Enter(k));
      }
    }
  }

  lemma {:induction false} SomeExecuting<T>(tasks: seq<Progress<T>>, k: nat)
    requires k < |tasks| && tasks[k].Executing?
    ensures InFlight(tasks) >= 1
  {
    if k > 0 {
      SomeExecuting(tasks[1..], k - 1);
    }
  }

  lemma {:induction false} NoneExecuting<T>(tasks: seq<Progress<T>>)
    requires forall i :: 0 <= i < |tasks| ==> !tasks[i].Executing?
    ensures InFlight(tasks) == 0
  {
    if tasks != [] {
      NoneExecuting(tasks[1..]);
    }
  }

  lemma {:induction false} ExecOneMore<T>(values: seq<T>, s: State<T>, schedule: seq<Action>, a: Action)
    requires |values| == |s.tasks| && Exec(values, s, schedule).Some?
    requires |Exec(values, s, schedule).value.tasks| == |values| && Enabled(Exec(values, s, schedule).value, a)
    ensures Exec(values, s, schedule + [a]) == Some(Next(values, Exec(values, s, schedule).value, a))
    decreases |schedule|
  {
    if schedule == [] {
      assert schedule + [a] == [a] && [a][1..] == [];
    } else {
      assert (schedule + [a])[1..] == schedule[1..] + [a];
      ExecOneMore(values, Next(values, s, schedule[0]), schedule[1..], a);
    }
  }

  /**
   One call of `gather_with_concurrency`: its semaphore and its tasks. `steps` is the schedule so far; the
   methods extend it, so what holds of every schedule holds of every use of the class.
   */
  class Gathering<T> {
    const limit: nat
    const values: seq<T>
    var permits: nat
    var tasks: seq<Progress<T>>
    ghost var steps: seq<Action>

    ghost predicate Valid()
      reads this
    {
      && |tasks| == |values|
      && Exec(values, Init(limit, |values|), steps) == Some(View())
    }

    constructor (limit: nat, values: seq<T>)
      ensures Valid() && this.limit == limit && this.values == values && steps == []
    {
      this.limit, this.values := limit, values;
      permits, tasks, steps := limit, seq(|values|, i => Queued), [];
    }

    function View(): State<T>
      reads this
    {
      State(permits, tasks)
    }

    method Acquire(i: nat)
      requires Valid() && i < |tasks| && tasks[i].Queued? && permits > 0
      modifies this
      ensures Valid() && steps == old(steps) + [Enter(i)] && View() == Next(values, old(View()), Enter(i))
      ensures InFlight(tasks) <= limit
    {
      ExecOneMore(values, Init(limit, |values|), steps, Enter(i));
      permits := permits - 1;
      tasks := tasks[i := Executing];
      steps := steps + [Enter(i)];
      GatherIsBounded(limit, values, steps);
    }

    method Release(i: nat)
      requires Valid() && i < |tasks| && tasks[i].Executing?
      modifies this
      ensures Valid() && steps == old(steps) + [Return(i)] && View() == Next(values, old(View()), Return(i))
      ensures tasks[i] == Done(values[i])
    {
      ExecOneMore(values, Init(limit, |values|), steps, Return(i));
      tasks := tasks[i := Done(values[i])];
      permits := permits + 1;
      steps := steps + [Return(i)];
    }

    /** Every task is done: the gathered list is the coroutines' values in argument order. */
    method Gathered() returns (results: seq<T>)
      requires Valid() && forall i :: 0 <= i < |tasks| ==> tasks[i].Done?
      ensures results == values
    {
      GatherIsBounded(limit, values, steps);
      results := Collect(tasks);
    }
  }
}
