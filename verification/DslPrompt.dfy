/**
 The schedules that the event loop makes. `asyncio.gather` starts every branch at once, and a
 finished activity lets its task run on until it blocks again; so a leaf is scheduled as soon as
 nothing precedes it, before the next activity completes. Modules DslSchedules and DslOrder let a
 leaf wait longer, which is why what they say of all schedules covers these.
 */
module DslPrompt {
  import opened Wrappers
  import opened Dsl
  import opened DslSchedules
  import opened DslOrder

  ghost predicate CanSchedule(act: Activities, task: Task, vars: Vars, e: Event) {
    e.kind.Schedule? && Fire(act, task, e, vars).Some?
  }

  /** A complete execution in which an activity completes only when no leaf waits to be scheduled. */
  ghost predicate RunsPromptly(act: Activities, task: Task, vars: Vars, events: seq<Event>)
    decreases |events|
  {
    if events == [] then task.Done? else
      && Fire(act, task, events[0], vars).Some?
      && (events[0].kind.Complete? ==> forall e :: !CanSchedule(act, task, vars, e))
      && var (next, w) := Fire(act, task, events[0], vars).value;
      RunsPromptly(act, next, w.On(vars), events[1..])
  }

  /** No completion comes between a schedule event and the last event it had to wait for. */
  ghost predicate Prompt(stmt: Statement, events: seq<Event>) {
    forall j, i :: 0 <= j < i < |events| && events[j].kind.Complete? && events[i].kind.Schedule? ==>
      WaitsSince(stmt, events, j, i)
  }

  ghost predicate WaitsSince(stmt: Statement, events: seq<Event>, j: nat, i: nat) {
    exists k :: j <= k < i < |events| && Before(stmt, events[k], events[i])
  }

  /** `Prompt` for the first event alone. */
  ghost predicate PromptHead(stmt: Statement, events: seq<Event>) {
    events != [] && events[0].kind.Complete? ==>
      forall i :: 0 < i < |events| && events[i].kind.Schedule? ==> WaitsSince(stmt, events, 0, i)
  }

  lemma PromptSplit(stmt: Statement, events: seq<Event>)
    requires events != []
    ensures Prompt(stmt, events) <==> PromptHead(stmt, events) && Prompt(stmt, events[1..])
  {
    var rest := events[1..];
    if Prompt(stmt, events) {
      forall j, i | 0 <= j < i < |rest| && rest[j].kind.Complete? && rest[i].kind.Schedule?
        ensures WaitsSince(stmt, rest, j, i)
      {
        assert rest[j] == events[j + 1] && rest[i] == events[i + 1];
        assert WaitsSince(stmt, events, j + 1, i + 1);
        var k :| j + 1 <= k < i + 1 && Before(stmt, events[k], events[i + 1]);
        assert rest[k - 1] == events[k];
      }
    }
    if PromptHead(stmt, events) && Prompt(stmt, rest) {
      forall j, i | 0 <= j < i < |events| && events[j].kind.Complete? && events[i].kind.Schedule?
        ensures WaitsSince(stmt, events, j, i)
      {
        if j > 0 {
          assert rest[j - 1] == events[j] && rest[i - 1] == events[i];
          assert WaitsSince(stmt, rest, j - 1, i - 1);
          var k :| j - 1 <= k < i - 1 && Before(stmt, rest[k], rest[i - 1]);
          assert rest[k] == events[k + 1];
        }
      }
    }
  }

  /** At the head of a linear extension, nothing can be scheduled exactly when every schedule event
      still waits for something. */
  lemma HeadIsPrompt(act: Activities, stmt: Statement, task: Task, vars: Vars, events: seq<Event>)
    requires Of(stmt, task) && events != [] && LinearExtension(stmt, task, events)
    ensures PromptHead(stmt, events) <==>
      (events[0].kind.Complete? ==> forall e :: !CanSchedule(act, task, vars, e))
  {
    if events[0].kind.Complete? {
      forall k | 0 <= k < |events| ensures Due(stmt, task, events[k]) {
        assert events[k] in events;
      }
      if PromptHead(stmt, events) {
        forall e ensures !CanSchedule(act, task, vars, e) {
          if e.kind.Schedule? && Due(stmt, task, e) {
            assert e in events;
            var i :| 0 <= i < |events| && events[i] == e;
            assert WaitsSince(stmt, events, 0, i);
            var k :| 0 <= k < i && Before(stmt, events[k], events[i]);
            assert Due(stmt, task, events[k]);
          }
          FireIff(act, stmt, task, e, vars);
        }
      }
      if forall e :: !CanSchedule(act, task, vars, e) {
        forall i | 0 < i < |events| && events[i].kind.Schedule? ensures WaitsSince(stmt, events, 0, i) {
          assert !CanSchedule(act, task, vars, events[i]);
          NotFirstWaits(act, stmt, task, vars, events, i);
        }
      }
    }
  }

  lemma NotFirstWaits(act: Activities, stmt: Statement, task: Task, vars: Vars, events: seq<Event>, i: nat)
    requires Of(stmt, task) && LinearExtension(stmt, task, events) && 0 < i < |events|
    requires Fire(act, task, events[i], vars).None?
    ensures WaitsSince(stmt, events, 0, i)
  {
    FireIff(act, stmt, task, events[i], vars);
    assert events[i] in events;
    var d :| Due(stmt, task, d) && Before(stmt, d, events[i]);
    assert d in events;
    var k :| 0 <= k < |events| && events[k] == d;
    if k >= i {
      BeforeIrreflexive(stmt, d);
    }
  }

  lemma {:induction false} TaskPromptSchedules(act: Activities, stmt: Statement, task: Task, vars: Vars, events: seq<Event>)
    requires Of(stmt, task)
    ensures RunsPromptly(act, task, vars, events) <==> LinearExtension(stmt, task, events) && Prompt(stmt, events)
    decreases |events|
  {
    TaskSchedules(act, stmt, task, vars, events);
    if events != [] && Fire(act, task, events[0], vars).Some? {
      var (next, w) := Fire(act, task, events[0], vars).value;
      FireDue(act, stmt, task, events[0], vars);
      TaskPromptSchedules(act, stmt, next, w.On(vars), events[1..]);
      TaskSchedules(act, stmt, next, w.On(vars), events[1..]);
      PromptSplit(stmt, events);
      if LinearExtension(stmt, task, events) {
        HeadIsPrompt(act, stmt, task, vars, events);
      }
    }
  }

  /** The complete prompt schedules of any program are exactly the orderings that schedule and
      complete every leaf once, respect program order and let no completion come between a schedule
      event and what it waits for. */
  lemma PromptSchedules(act: Activities, stmt: Statement, vars: Vars, events: seq<Event>)
    ensures RunsPromptly(act, Start(stmt), vars, events) <==>
      && (forall e :: e in events <==> IsLeaf(stmt, e.path))
      && (forall i, j :: 0 <= i < j < |events| ==> events[i] != events[j])
      && (forall i, j :: 0 <= i < j < |events| ==> !Before(stmt, events[j], events[i]))
      && Prompt(stmt, events)
  {
    StartDue(stmt);
    TaskPromptSchedules(act, stmt, Start(stmt), vars, events);
  }

  // ----- One activation per completion -----

  /** Every leaf that can be scheduled is. */
  function Settle(task: Task, vars: Vars): Task
    decreases task
  {
    match task
    case Ready(name, arguments, result) => Running(name, Arguments(vars, arguments), result)
    case InSequence(index, current, rest) => InSequence(index, Settle(current, vars), rest)
    case InParallel(tasks) => InParallel(SettleAll(tasks, vars))
    case _ => task
  }

  function SettleAll(tasks: seq<Task>, vars: Vars): (settled: seq<Task>)
    ensures |settled| == |tasks| && forall i :: 0 <= i < |tasks| ==> settled[i] == Settle(tasks[i], vars)
    decreases tasks
  {
    if tasks == [] then [] else [Settle(tasks[0], vars)] + SettleAll(tasks[1..], vars)
  }

  /** The activity at each path completes in turn, and the tasks run on until they block. */
  function Activations(act: Activities, task: Task, vars: Vars, paths: seq<seq<nat>>): Option<(Task, Vars)>
    decreases |paths|
  {
    if paths == [] then Some((task, vars)) else
      match Fire(act, task, Event(paths[0], Complete), vars)
      case None => None
      case Some((next, w)) => Activations(act, Settle(next, w.On(vars)), w.On(vars), paths[1..])
  }

  function Completions(events: seq<Event>): seq<seq<nat>> {
    if events == [] then []
    else (if events[0].kind.Complete? then [events[0].path] else []) + Completions(events[1..])
  }

  lemma {:induction false} ScheduleSettles(act: Activities, task: Task, vars: Vars, e: Event)
    requires CanSchedule(act, task, vars, e)
    ensures var (next, w) := Fire(act, task, e, vars).value;
      w == NoWrite && !next.Done? && Settle(next, vars) == Settle(task, vars) != task
    decreases task
  {
    match task
    case Ready(_, _, _) =>
    case InSequence(index, current, rest) => ScheduleSettles(act, current, vars, e.Tail());
    case InParallel(tasks) =>
      var k := e.path[0];
      ScheduleSettles(act, tasks[k], vars, e.Tail());
      var next := Fire(act, tasks[k], e.Tail(), vars).value.0;
      assert tasks[k := next][k] == next;
      assert SettleAll(tasks[k := next], vars) == SettleAll(tasks, vars);
      assert SettleAll(tasks, vars)[k] != tasks[k];
  }

  /** Where settling changes something, some leaf can be scheduled. */
  lemma {:induction false} ReadyLeaf(act: Activities, task: Task, vars: Vars) returns (e: Event)
    requires Settle(task, vars) != task
    ensures CanSchedule(act, task, vars, e)
    decreases task
  {
    match task
    case Ready(_, _, _) => e := Event([], Schedule);
    case InSequence(index, current, rest) =>
      var inner := ReadyLeaf(act, current, vars);
      e := Lift(index, inner);
    case InParallel(tasks) =>
      assert SettleAll(tasks, vars) != tasks;
      var i: nat :| i < |tasks| && SettleAll(tasks, vars)[i] != tasks[i];
      var inner := ReadyLeaf(act, tasks[i], vars);
      e := Lift(i, inner);
  }

  /** The outcome of a prompt schedule depends on the order of its completions alone. */
  lemma {:induction false} PromptOutcome(act: Activities, task: Task, vars: Vars, events: seq<Event>)
    requires RunsPromptly(act, task, vars, events)
    ensures Execute(act, task, vars, events) == Activations(act, Settle(task, vars), vars, Completions(events))
    ensures Execute(act, task, vars, events).Some? && Execute(act, task, vars, events).value.0.Done?
    decreases |events|
  {
    if events != [] {
      var e := events[0];
      var (next, w) := Fire(act, task, e, vars).value;
      PromptOutcome(act, next, w.On(vars), events[1..]);
      if e.kind.Schedule? {
        ScheduleSettles(act, task, vars, e);
        assert Completions(events) == Completions(events[1..]);
      } else {
        if Settle(task, vars) != task {
          var ready := ReadyLeaf(act, task, vars);
          assert false;
        }
        assert e == Event(e.path, Complete);
        assert Completions(events)[1..] == Completions(events[1..]);
      }
    }
  }

  /** Conversely, completions that run the program to its end are those of a prompt schedule. */
  lemma {:induction false} ActivationsArePrompt(act: Activities, task: Task, vars: Vars, paths: seq<seq<nat>>)
    returns (events: seq<Event>)
    requires Activations(act, Settle(task, vars), vars, paths).Some?
    requires Activations(act, Settle(task, vars), vars, paths).value.0.Done?
    ensures RunsPromptly(act, task, vars, events) && Completions(events) == paths
    decreases Work(task)
  {
    if Settle(task, vars) != task {
      var e := ReadyLeaf(act, task, vars);
      ScheduleSettles(act, task, vars, e);
      FireWork(act, task, e, vars);
      var rest := ActivationsArePrompt(act, Fire(act, task, e, vars).value.0, vars, paths);
      events := [e] + rest;
      assert events[1..] == rest;
    } else if paths == [] {
      events := [];
    } else {
      var e := Event(paths[0], Complete);
      var (next, w) := Fire(act, task, e, vars).value;
      FireWork(act, task, e, vars);
      var rest := ActivationsArePrompt(act, next, w.On(vars), paths[1..]);
      events := [e] + rest;
      assert events[1..] == rest && paths == [paths[0]] + paths[1..];
      forall s ensures !CanSchedule(act, task, vars, s) {
        if CanSchedule(act, task, vars, s) {
          ScheduleSettles(act, task, vars, s);
        }
      }
    }
  }

  // ----- Race freedom is needed -----

  const WRITER := Activity("a", [], Some("x"))
  const OTHER := Activity("c", [], None)
  const READER := Activity("b", ["x"], Some("y"))

  /** While one branch writes `x`, the other does something else and then reads it. */
  const RACY := Parallel([WRITER, Sequence([OTHER, READER])])

  const WRITER_FIRST := [[0], [1, 0], [1, 1]]
  const OTHER_FIRST := [[1, 0], [0], [1, 1]]
  const NOTHING: Vars := map[]

  function Listing(): Activities {
    (name, args) => Items(args)
  }

  function Writing(): Task { Running("a", [], Some("x")) }
  function Elsewhere(): Task { InSequence(0, Running("c", [], None), [READER]) }
  function Reading(v: Value): Task { InSequence(1, Running("b", [v], Some("y")), []) }

  /** The task with these two branches after the activity at `path` completes in branch `i`. */
  lemma BranchCompletes(tasks: seq<Task>, i: nat, path: seq<nat>, vars: Vars, next: Task, w: Write)
    requires |tasks| == 2 && i < 2 && path != [] && path[0] == i && !tasks[1 - i].Done?
    requires Settle(tasks[1 - i], w.On(vars)) == tasks[1 - i]
    requires Fire(Listing(), tasks[i], Event(path[1..], Complete), vars) == Some((next, w))
    ensures Fire(Listing(), InParallel(tasks), Event(path, Complete), vars) == Some((InParallel(tasks[i := next]), w))
    ensures Settle(InParallel(tasks[i := next]), w.On(vars)) == InParallel(tasks[i := Settle(next, w.On(vars))])
  {
    assert Event(path, Complete).Tail() == Event(path[1..], Complete);
    assert tasks[i := next][1 - i] == tasks[1 - i];
    assert SettleAll(tasks[i := next], w.On(vars)) == tasks[i := Settle(next, w.On(vars))];
  }

  lemma Settled()
    ensures Settle(Start(RACY), NOTHING) == InParallel([Writing(), Elsewhere()])
  {
    var tasks := [Start(WRITER), Start(RACY.branches[1])];
    assert Start(RACY) == InParallel(tasks);
    assert Arguments(NOTHING, []) == [];
    assert Start(RACY.branches[1]) == InSequence(0, Start(OTHER), [READER]) by {
      assert [OTHER, READER][1..] == [READER];
    }
    assert Settle(Start(WRITER), NOTHING) == Writing();
    assert Settle(Start(OTHER), NOTHING) == Running("c", [], None);
    assert SettleAll(tasks, NOTHING) == [Writing(), Elsewhere()];
  }

  /** When the other activity completes, the reader is scheduled with what `x` is then. */
  lemma ReaderScheduled(vars: Vars)
    ensures Fire(Listing(), Elsewhere(), Event([0], Complete), vars) == Some((InSequence(1, Start(READER), []), NoWrite))
    ensures Settle(InSequence(1, Start(READER), []), vars) == Reading(Lookup(vars, "x"))
  {
    assert Event([0], Complete).Tail() == Event([], Complete);
    assert [READER][1..] == [];
    assert Arguments(vars, ["x"]) == [Lookup(vars, "x")];
  }

  lemma ReaderCompletes(v: Value, vars: Vars)
    ensures Fire(Listing(), Reading(v), Event([1], Complete), vars) == Some((Done, Write("y", Items([v]))))
    ensures Activations(Listing(), InParallel([Done, Reading(v)]), vars, [[1, 1]]) == Some((Done, vars["y" := Items([v])]))
  {
    assert Event([1], Complete).Tail() == Event([], Complete);
    assert [1, 1][1..] == [1] && Event([1, 1], Complete).Tail() == Event([1], Complete);
    assert Join([Done, Reading(v)][1 := Done]) == Done;
  }

  /** The other activity completes after the writer; the reader gets what was written. */
  lemma OtherCompletes(x: Value, vars: Vars)
    requires vars == NOTHING["x" := x]
    ensures Activations(Listing(), InParallel([Done, Elsewhere()]), vars, [[1, 0], [1, 1]]) ==
            Some((Done, vars["y" := Items([x])]))
  {
    ReaderScheduled(vars);
    assert [1, 0][1..] == [0] && Event([1, 0], Complete).Tail() == Event([0], Complete);
    var scheduled := [Done, InSequence(1, Start(READER), [])];
    assert [Done, Elsewhere()][1 := scheduled[1]] == scheduled;
    assert SettleAll(scheduled, vars) == [Done, Reading(x)];
    assert [[1, 0], [1, 1]][1..] == [[1, 1]];
    ReaderCompletes(x, vars);
  }

  lemma WriterFirst()
    ensures Activations(Listing(), Settle(Start(RACY), NOTHING), NOTHING, WRITER_FIRST) ==
            Some((Done, NOTHING["x" := Items([])]["y" := Items([Items([])])]))
  {
    Settled();
    var x := Items([]);
    BranchCompletes([Writing(), Elsewhere()], 0, [0], NOTHING, Done, Write("x", x));
    assert [Writing(), Elsewhere()][0 := Done] == [Done, Elsewhere()];
    assert WRITER_FIRST[1..] == [[1, 0], [1, 1]];
    OtherCompletes(x, NOTHING["x" := x]);
  }

  lemma OtherFirst()
    ensures Activations(Listing(), Settle(Start(RACY), NOTHING), NOTHING, OTHER_FIRST) ==
            Some((Done, NOTHING["x" := Items([])]["y" := Items([Text("")])]))
  {
    Settled();
    var early := Reading(Text(""));
    ReaderScheduled(NOTHING);
    assert [1, 0][1..] == [0];
    BranchCompletes([Writing(), Elsewhere()], 1, [1, 0], NOTHING, InSequence(1, Start(READER), []), NoWrite);
    assert [Writing(), Elsewhere()][1 := early] == [Writing(), early];
    BranchCompletes([Writing(), early], 0, [0], NOTHING, Done, Write("x", Items([])));
    assert [Writing(), early][0 := Done] == [Done, early];
    assert OTHER_FIRST[1..] == [[0], [1, 1]] && OTHER_FIRST[1..][1..] == [[1, 1]];
    ReaderCompletes(Text(""), NOTHING["x" := Items([])]);
  }

  /** A prompt schedule with these completions, and its outcome. */
  lemma PromptWitness(paths: seq<seq<nat>>, out: Vars) returns (events: seq<Event>)
    requires Activations(Listing(), Settle(Start(RACY), NOTHING), NOTHING, paths) == Some((Done, out))
    ensures RunsPromptly(Listing(), Start(RACY), NOTHING, events)
    ensures Execute(Listing(), Start(RACY), NOTHING, events) == Some((Done, out))
  {
    events := ActivationsArePrompt(Listing(), Start(RACY), NOTHING, paths);
    PromptOutcome(Listing(), Start(RACY), NOTHING, events);
  }

  lemma RacyRaces()
    ensures !RaceFree(RACY)
  {
    assert Writes(RACY.branches[0], "x") && Reads(RACY.branches[1].elements[1], "x") && Reads(RACY.branches[1], "x");
  }

  /** Without race freedom the order of completions matters: two prompt schedules of one program
      end with different variables. */
  lemma RacesMatter() returns (first: seq<Event>, second: seq<Event>)
    ensures !RaceFree(RACY)
    ensures RunsPromptly(Listing(), Start(RACY), NOTHING, first) && RunsPromptly(Listing(), Start(RACY), NOTHING, second)
    ensures var a, b := Execute(Listing(), Start(RACY), NOTHING, first), Execute(Listing(), Start(RACY), NOTHING, second);
      a.Some? && b.Some? && a.value.0 == Done == b.value.0 && a.value.1 != b.value.1
  {
    RacyRaces();
    WriterFirst();
    OtherFirst();
    var x := NOTHING["x" := Items([])];
    first := PromptWitness(WRITER_FIRST, x["y" := Items([Items([])])]);
    second := PromptWitness(OTHER_FIRST, x["y" := Items([Text("")])]);
    assert x["y" := Items([Items([])])]["y"] != x["y" := Items([Text("")])]["y"];
  }
}
