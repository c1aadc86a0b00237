/**
 What an activity of a program is called with and what becomes of its result, wherever it stands in
 the program and whatever else runs meanwhile.
 */
module DslCalls {
  import opened Wrappers
  import opened Dsl
  import opened DslSchedules
  import opened DslOrder

  /** The activity at a path of the program. */
  function ActivityAt(stmt: Statement, path: seq<nat>): Option<Statement> {
    match stmt
    case Activity(_, _, _) => if path == [] then Some(stmt) else None
    case Sequence(elements) =>
      if path != [] && path[0] < |elements| then ActivityAt(elements[path[0]], path[1..]) else None
    case Parallel(branches) =>
      if path != [] && path[0] < |branches| then ActivityAt(branches[path[0]], path[1..]) else None
  }

  /** The leaf at a path, as far as it has been reached and not completed. */
  function LeafOf(task: Task, path: seq<nat>): Option<Task> {
    match task
    case InSequence(index, current, _) => if path != [] && path[0] == index then LeafOf(current, path[1..]) else None
    case InParallel(tasks) => if path != [] && path[0] < |tasks| then LeafOf(tasks[path[0]], path[1..]) else None
    case Done => None
    case _ => if path == [] then Some(task) else None
  }

  lemma {:induction false} ScheduleReads(act: Activities, stmt: Statement, task: Task, vars: Vars, path: seq<nat>)
    requires Of(stmt, task) && Fire(act, task, Event(path, Schedule), vars).Some?
    ensures var (next, w) := Fire(act, task, Event(path, Schedule), vars).value;
      && w == NoWrite
      && ActivityAt(stmt, path).Some? && ActivityAt(stmt, path).value.Activity?
      && var a := ActivityAt(stmt, path).value;
         LeafOf(next, path) == Some(Running(a.name, Arguments(vars, a.arguments), a.result))
    decreases stmt
  {
    match task
    case InSequence(index, current, rest) =>
      assert Event(path, Schedule).Tail() == Event(path[1..], Schedule);
      ScheduleReads(act, stmt.elements[index], current, vars, path[1..]);
    case InParallel(tasks) =>
      var k := path[0];
      assert Event(path, Schedule).Tail() == Event(path[1..], Schedule);
      ScheduleReads(act, stmt.branches[k], tasks[k], vars, path[1..]);
      var next := Fire(act, tasks[k], Event(path[1..], Schedule), vars).value.0;
      assert tasks[k := next][k] == next && !next.Done?;
    case _ =>
  }

  lemma {:induction false} OthersLeaveRunning(act: Activities, task: Task, vars: Vars, e: Event, path: seq<nat>)
    requires LeafOf(task, path).Some? && LeafOf(task, path).value.Running?
    requires Fire(act, task, e, vars).Some? && e != Event(path, Complete)
    ensures LeafOf(Fire(act, task, e, vars).value.0, path) == LeafOf(task, path)
    decreases task
  {
    match task
    case InSequence(index, current, rest) => OthersLeaveRunning(act, current, vars, e.Tail(), path[1..]);
    case InParallel(tasks) =>
      var k := e.path[0];
      var next := Fire(act, tasks[k], e.Tail(), vars).value.0;
      if k == path[0] {
        OthersLeaveRunning(act, tasks[k], vars, e.Tail(), path[1..]);
      }
      assert tasks[k := next][path[0]] == if k == path[0] then next else tasks[path[0]];
      assert !tasks[k := next][path[0]].Done?;
    case _ =>
  }

  lemma {:induction false} CompletionWrites(act: Activities, task: Task, vars: Vars, path: seq<nat>)
    requires LeafOf(task, path).Some? && LeafOf(task, path).value.Running?
    requires Fire(act, task, Event(path, Complete), vars).Some?
    ensures var leaf := LeafOf(task, path).value;
      Fire(act, task, Event(path, Complete), vars).value.1 == Store(leaf.result, act(leaf.name, leaf.values))
    decreases task
  {
    match task
    case InSequence(_, current, _) =>
      assert Event(path, Complete).Tail() == Event(path[1..], Complete);
      CompletionWrites(act, current, vars, path[1..]);
    case InParallel(tasks) =>
      assert Event(path, Complete).Tail() == Event(path[1..], Complete);
      CompletionWrites(act, tasks[path[0]], vars, path[1..]);
    case _ =>
  }

  lemma {:induction false} StaysRunning(act: Activities, task: Task, vars: Vars, events: seq<Event>, path: seq<nat>)
    requires LeafOf(task, path).Some? && LeafOf(task, path).value.Running?
    requires Execute(act, task, vars, events).Some? && Event(path, Complete) !in events
    ensures LeafOf(Execute(act, task, vars, events).value.0, path) == LeafOf(task, path)
    decreases |events|
  {
    if events != [] {
      var (next, w) := Fire(act, task, events[0], vars).value;
      OthersLeaveRunning(act, task, vars, events[0], path);
      StaysRunning(act, next, w.On(vars), events[1..], path);
    }
  }

  lemma {:induction false} ExecuteSplit(act: Activities, task: Task, vars: Vars, events: seq<Event>, k: nat)
    requires Execute(act, task, vars, events).Some? && k <= |events|
    ensures Execute(act, task, vars, events[..k]).Some?
    ensures var (middle, after) := Execute(act, task, vars, events[..k]).value;
      Execute(act, task, vars, events) == Execute(act, middle, after, events[k..])
    decreases |events|
  {
    if k == 0 {
      assert events[..0] == [] && events[0..] == events;
    } else {
      var (next, w) := Fire(act, task, events[0], vars).value;
      ExecuteSplit(act, next, w.On(vars), events[1..], k - 1);
      assert events[..k][1..] == events[1..][..k - 1] && events[1..][k - 1..] == events[k..];
    }
  }

  /** A state reached along the way is one of the program's. */
  lemma {:induction false} StaysOf(act: Activities, stmt: Statement, task: Task, vars: Vars, events: seq<Event>)
    requires Of(stmt, task) && Execute(act, task, vars, events).Some?
    ensures Of(stmt, Execute(act, task, vars, events).value.0)
    decreases |events|
  {
    if events != [] {
      var (next, w) := Fire(act, task, events[0], vars).value;
      FireDue(act, stmt, task, events[0], vars);
      StaysOf(act, stmt, next, w.On(vars), events[1..]);
    }
  }

  lemma {:induction false} OwnOrder(stmt: Statement, path: seq<nat>)
    requires IsLeaf(stmt, path)
    ensures Before(stmt, Event(path, Schedule), Event(path, Complete))
    decreases stmt
  {
    match stmt
    case Activity(_, _, _) =>
    case Sequence(elements) =>
      OwnOrder(elements[path[0]], path[1..]);
      assert Event(path, Schedule).Tail() == Event(path[1..], Schedule);
      assert Event(path, Complete).Tail() == Event(path[1..], Complete);
    case Parallel(branches) =>
      OwnOrder(branches[path[0]], path[1..]);
      assert Event(path, Schedule).Tail() == Event(path[1..], Schedule);
      assert Event(path, Complete).Tail() == Event(path[1..], Complete);
  }

  /** The variables after the first `k` events. */
  function After(act: Activities, stmt: Statement, vars: Vars, events: seq<Event>, k: nat): Vars
    requires Execute(act, Start(stmt), vars, events).Some? && k <= |events|
  {
    ExecuteSplit(act, Start(stmt), vars, events, k);
    Execute(act, Start(stmt), vars, events[..k]).value.1
  }

  /** One event more. */
  lemma AfterNext(act: Activities, stmt: Statement, vars: Vars, events: seq<Event>, k: nat) returns (task: Task)
    requires Execute(act, Start(stmt), vars, events).Some? && k < |events|
    ensures var before := After(act, stmt, vars, events, k);
      && Execute(act, Start(stmt), vars, events[..k]) == Some((task, before))
      && Fire(act, task, events[k], before).Some?
      && var (next, w) := Fire(act, task, events[k], before).value;
         Execute(act, Start(stmt), vars, events[..k + 1]) == Some((next, w.On(before)))
  {
    ExecuteSplit(act, Start(stmt), vars, events, k);
    ExecuteSplit(act, Start(stmt), vars, events, k + 1);
    ExecuteSplit(act, Start(stmt), vars, events[..k + 1], k);
    task := Execute(act, Start(stmt), vars, events[..k]).value.0;
    assert events[..k + 1][..k] == events[..k] && events[..k + 1][k..] == [events[k]];
    assert [events[k]][1..] == [];
  }

  lemma ScheduledFirst(act: Activities, stmt: Statement, vars: Vars, events: seq<Event>, i: nat, j: nat, path: seq<nat>)
    requires RunsToTheEnd(act, Start(stmt), vars, events) && i < |events| && j < |events|
    requires events[i] == Event(path, Schedule) && events[j] == Event(path, Complete)
    ensures i < j && forall k, l :: 0 <= k < l < |events| ==> events[k] != events[l]
  {
    Schedules(act, stmt, vars, events);
    assert events[i] in events;
    OwnOrder(stmt, path);
  }

  /** The leaf at `path` after it was scheduled. */
  ghost predicate RunsWith(act: Activities, stmt: Statement, vars: Vars, events: seq<Event>, k: nat, path: seq<nat>,
                           values: seq<Value>)
    requires k <= |events|
  {
    && Execute(act, Start(stmt), vars, events[..k]).Some?
    && ActivityAt(stmt, path).Some? && ActivityAt(stmt, path).value.Activity?
    && var a := ActivityAt(stmt, path).value;
       LeafOf(Execute(act, Start(stmt), vars, events[..k]).value.0, path) == Some(Running(a.name, values, a.result))
  }

  lemma Scheduled(act: Activities, stmt: Statement, vars: Vars, events: seq<Event>, i: nat, path: seq<nat>)
    returns (values: seq<Value>)
    requires Execute(act, Start(stmt), vars, events).Some? && i < |events| && events[i] == Event(path, Schedule)
    ensures RunsWith(act, stmt, vars, events, i + 1, path, values)
    ensures var start, args := After(act, stmt, vars, events, i), ActivityAt(stmt, path).value.arguments;
      && After(act, stmt, vars, events, i + 1) == start
      && |values| == |args|
      && forall k :: 0 <= k < |args| ==> values[k] == if args[k] in start then start[args[k]] else Text("")
  {
    StartDue(stmt);
    var task := AfterNext(act, stmt, vars, events, i);
    StaysOf(act, stmt, Start(stmt), vars, events[..i]);
    var start := After(act, stmt, vars, events, i);
    ScheduleReads(act, stmt, task, start, path);
    values := Arguments(start, ActivityAt(stmt, path).value.arguments);
  }

  lemma Completed(act: Activities, stmt: Statement, vars: Vars, events: seq<Event>, i: nat, j: nat, path: seq<nat>,
                  values: seq<Value>)
    requires Execute(act, Start(stmt), vars, events).Some? && i < j < |events|
    requires events[i] == Event(path, Schedule) && events[j] == Event(path, Complete)
    requires forall k, l :: 0 <= k < l < |events| ==> events[k] != events[l]
    requires RunsWith(act, stmt, vars, events, i + 1, path, values)
    ensures var before, a := After(act, stmt, vars, events, j), ActivityAt(stmt, path).value;
      After(act, stmt, vars, events, j + 1) ==
        if a.result.Some? && a.result.value != "" then before[a.result.value := act(a.name, values)] else before
  {
    var later := AfterNext(act, stmt, vars, events, j);
    RunsUntil(act, stmt, vars, events, i, j, path);
    CompletionWrites(act, later, After(act, stmt, vars, events, j), path);
  }

  /** In every complete schedule of any program: scheduling an activity changes no variable; the
      activity is called with the values its argument names have just then, in the order of the names,
      the empty text for one that is not set; and on completion, later, what it gives is stored under
      its result name, if it has one, and nothing else changes. */
  lemma Called(act: Activities, stmt: Statement, vars: Vars, events: seq<Event>, i: nat, j: nat, path: seq<nat>)
    returns (values: seq<Value>)
    requires RunsToTheEnd(act, Start(stmt), vars, events) && i < |events| && j < |events|
    requires events[i] == Event(path, Schedule) && events[j] == Event(path, Complete)
    ensures i < j && ActivityAt(stmt, path).Some? && ActivityAt(stmt, path).value.Activity?
    ensures var start, args := After(act, stmt, vars, events, i), ActivityAt(stmt, path).value.arguments;
      && After(act, stmt, vars, events, i + 1) == start
      && |values| == |args|
      && forall k :: 0 <= k < |args| ==> values[k] == if args[k] in start then start[args[k]] else Text("")
    ensures var before, a := After(act, stmt, vars, events, j), ActivityAt(stmt, path).value;
      After(act, stmt, vars, events, j + 1) ==
        if a.result.Some? && a.result.value != "" then before[a.result.value := act(a.name, values)] else before
  {
    ScheduledFirst(act, stmt, vars, events, i, j, path);
    values := Scheduled(act, stmt, vars, events, i, path);
    Completed(act, stmt, vars, events, i, j, path, values);
  }

  /** Between its two events a leaf stays as it was scheduled. */
  lemma RunsUntil(act: Activities, stmt: Statement, vars: Vars, events: seq<Event>, i: nat, j: nat, path: seq<nat>)
    requires i < j < |events|
    requires events[i] == Event(path, Schedule) && events[j] == Event(path, Complete)
    requires forall k, l :: 0 <= k < l < |events| ==> events[k] != events[l]
    requires Execute(act, Start(stmt), vars, events[..i + 1]).Some?
    requires LeafOf(Execute(act, Start(stmt), vars, events[..i + 1]).value.0, path).Some?
    requires LeafOf(Execute(act, Start(stmt), vars, events[..i + 1]).value.0, path).value.Running?
    requires Execute(act, Start(stmt), vars, events[..j]).Some?
    ensures LeafOf(Execute(act, Start(stmt), vars, events[..j]).value.0, path) ==
            LeafOf(Execute(act, Start(stmt), vars, events[..i + 1]).value.0, path)
  {
    ExecuteSplit(act, Start(stmt), vars, events[..j], i + 1);
    assert events[..j][..i + 1] == events[..i + 1];
    var (middle, after) := Execute(act, Start(stmt), vars, events[..i + 1]).value;
    StaysRunning(act, middle, after, events[..j][i + 1..], path);
  }
}
