/**
 What every schedule of a DSL program keeps to: each leaf is scheduled once and completed once, and
 a sequence element starts only when the element before it is wholly finished. The orderings of
 leaf events that keep to this are exactly the executions of module DslSchedules, where a leaf may
 wait before it is scheduled; module DslPrompt says which of them an event loop makes.
 */
module DslOrder {
  import opened Wrappers
  import opened Dsl
  import opened DslSchedules

  ghost predicate IsLeaf(stmt: Statement, path: seq<nat>) {
    match stmt
    case Activity(_, _, _) => path == []
    case Sequence(elements) => path != [] && path[0] < |elements| && IsLeaf(elements[path[0]], path[1..])
    case Parallel(branches) => path != [] && path[0] < |branches| && IsLeaf(branches[path[0]], path[1..])
  }

  /** Program order: `a` has to come before `b`. */
  ghost predicate Before(stmt: Statement, a: Event, b: Event) {
    match stmt
    case Activity(_, _, _) => a == Event([], Schedule) && b == Event([], Complete)
    case Sequence(elements) =>
      && a.path != [] && b.path != [] && a.path[0] < |elements| && b.path[0] < |elements|
      && (a.path[0] < b.path[0] || (a.path[0] == b.path[0] && Before(elements[a.path[0]], a.Tail(), b.Tail())))
    case Parallel(branches) =>
      && a.path != [] && b.path != [] && a.path[0] == b.path[0] < |branches|
      && Before(branches[a.path[0]], a.Tail(), b.Tail())
  }

  function Lift(i: nat, e: Event): (lifted: Event)
    ensures lifted.Into(i) && lifted.Tail() == e
  {
    assert ([i] + e.path)[1..] == e.path;
    Event([i] + e.path, e.kind)
  }

  /** `task` is a state that executing `stmt` can be in. */
  ghost predicate Of(stmt: Statement, task: Task) {
    task.Done? ||
    match stmt
    case Activity(name, arguments, result) =>
      task == Ready(name, arguments, result) || (task.Running? && task.name == name && task.result == result)
    case Sequence(elements) =>
      && task.InSequence? && task.index < |elements| && task.rest == elements[task.index + 1..]
      && !task.current.Done? && Of(elements[task.index], task.current)
    case Parallel(branches) =>
      && task.InParallel? && |task.tasks| == |branches|
      && (forall i :: 0 <= i < |branches| ==> Of(branches[i], task.tasks[i]))
      && exists i :: 0 <= i < |branches| && !task.tasks[i].Done?
  }

  /** The event `e` is still to come. */
  ghost predicate Due(stmt: Statement, task: Task, e: Event)
    requires Of(stmt, task)
  {
    match task
    case Done => false
    case Ready(_, _, _) => e.path == []
    case Running(_, _, _) => e == Event([], Complete)
    case InSequence(index, current, _) =>
      && e.path != [] && index <= e.path[0] < |stmt.elements|
      && (if e.path[0] == index then Due(stmt.elements[index], current, e.Tail())
          else IsLeaf(stmt.elements[e.path[0]], e.path[1..]))
    case InParallel(tasks) =>
      && e.path != [] && e.path[0] < |tasks|
      && Due(stmt.branches[e.path[0]], tasks[e.path[0]], e.Tail())
  }

  lemma {:induction false} StartDue(stmt: Statement)
    ensures Of(stmt, Start(stmt))
    ensures forall e :: Due(stmt, Start(stmt), e) <==> IsLeaf(stmt, e.path)
    decreases stmt, 1
  {
    match stmt
    case Activity(_, _, _) =>
    case Sequence(elements) =>
      StartFromDue(elements, 0);
      assert elements[0..] == elements;
    case Parallel(branches) =>
      forall i | 0 <= i < |branches|
        ensures Of(branches[i], Start(branches[i]))
        ensures forall e :: Due(branches[i], Start(branches[i]), e) <==> IsLeaf(branches[i], e.path)
      {
        StartDue(branches[i]);
      }
      forall e: Event | e.path != [] && e.path[0] < |branches|
        ensures Due(branches[e.path[0]], Start(branches[e.path[0]]), e.Tail()) <==> IsLeaf(stmt, e.path)
      {}
      assert forall e :: Due(stmt, Start(stmt), e) <==> IsLeaf(stmt, e.path);
  }

  lemma {:induction false} StartFromDue(elements: seq<Statement>, k: nat)
    requires k <= |elements|
    ensures var task := StartFrom(k, elements[k..]);
      && Of(Sequence(elements), task)
      && (forall e :: Due(Sequence(elements), task, e) <==>
            e.path != [] && k <= e.path[0] < |elements| && IsLeaf(elements[e.path[0]], e.path[1..]))
    decreases elements, 0, |elements| - k
  {
    if k < |elements| {
      assert elements[k..][0] == elements[k] && elements[k..][1..] == elements[k + 1..];
      StartDue(elements[k]);
      StartFromDue(elements, k + 1);
      var task := StartFrom(k, elements[k..]);
      forall e ensures Due(Sequence(elements), task, e) <==>
        e.path != [] && k <= e.path[0] < |elements| && IsLeaf(elements[e.path[0]], e.path[1..])
      {
        if e.path != [] && e.path[0] == k {
          assert Due(elements[k], Start(elements[k]), e.Tail()) <==> IsLeaf(elements[k], e.path[1..]);
        }
      }
    }
  }

  /** What an event does to the events still to come: it leaves out itself. */
  ghost predicate Consumes(stmt: Statement, task: Task, e: Event, next: Task) {
    && Of(stmt, task) && Of(stmt, next)
    && Due(stmt, task, e)
    && (forall d :: Due(stmt, next, d) <==> Due(stmt, task, d) && d != e)
  }

  lemma SequenceConsumes(elements: seq<Statement>, index: nat, current: Task, e: Event, inner: Task)
    requires index < |elements| && Of(Sequence(elements), InSequence(index, current, elements[index + 1..])) && e.Into(index)
    requires Consumes(elements[index], current, e.Tail(), inner)
    ensures Consumes(Sequence(elements), InSequence(index, current, elements[index + 1..]), e,
                     Advance(index, inner, elements[index + 1..]))
  {
    var stmt, task := Sequence(elements), InSequence(index, current, elements[index + 1..]);
    var next := Advance(index, inner, elements[index + 1..]);
    StartFromDue(elements, index + 1);
    forall d ensures Due(stmt, next, d) <==> Due(stmt, task, d) && d != e {
      if d.Into(index) {
        TailInjective(d, e);
        assert Due(elements[index], inner, d.Tail()) <==> Due(elements[index], current, d.Tail()) && d.Tail() != e.Tail();
      }
    }
  }

  lemma ParallelConsumes(branches: seq<Statement>, tasks: seq<Task>, e: Event, inner: Task)
    requires Of(Parallel(branches), InParallel(tasks)) && e.path != [] && e.path[0] < |tasks|
    requires Consumes(branches[e.path[0]], tasks[e.path[0]], e.Tail(), inner)
    ensures Consumes(Parallel(branches), InParallel(tasks), e, Join(tasks[e.path[0] := inner]))
  {
    var k := e.path[0];
    var after := tasks[k := inner];
    var stmt, task, next := Parallel(branches), InParallel(tasks), Join(after);
    assert forall i :: 0 <= i < |branches| ==> Of(branches[i], after[i]);
    assert Of(stmt, next);
    forall d ensures Due(stmt, next, d) <==> Due(stmt, task, d) && d != e {
      JoinDue(branches, after, d);
      if d.Into(k) {
        TailInjective(d, e);
        assert Due(branches[k], inner, d.Tail()) <==> Due(branches[k], tasks[k], d.Tail()) && d.Tail() != e.Tail();
      } else if d.path != [] && d.path[0] < |tasks| {
        assert after[d.path[0]] == tasks[d.path[0]];
      }
    }
  }

  lemma JoinDue(branches: seq<Statement>, tasks: seq<Task>, d: Event)
    requires |tasks| == |branches| && Of(Parallel(branches), Join(tasks))
    requires forall i :: 0 <= i < |branches| ==> Of(branches[i], tasks[i])
    ensures Due(Parallel(branches), Join(tasks), d) <==>
      d.path != [] && d.path[0] < |tasks| && Due(branches[d.path[0]], tasks[d.path[0]], d.Tail())
  {
    if Join(tasks).Done? && d.path != [] && d.path[0] < |tasks| {
      assert tasks[d.path[0]].Done?;
    }
  }

  /** An event happens once, and is then the only one no longer to come. */
  lemma {:induction false} FireDue(act: Activities, stmt: Statement, task: Task, e: Event, vars: Vars)
    requires Of(stmt, task) && Fire(act, task, e, vars).Some?
    ensures Consumes(stmt, task, e, Fire(act, task, e, vars).value.0)
    decreases stmt
  {
    match task
    case InSequence(index, current, rest) =>
      FireDue(act, stmt.elements[index], current, e.Tail(), vars);
      SequenceConsumes(stmt.elements, index, current, e, Fire(act, current, e.Tail(), vars).value.0);
    case InParallel(tasks) =>
      FireDue(act, stmt.branches[e.path[0]], tasks[e.path[0]], e.Tail(), vars);
      ParallelConsumes(stmt.branches, tasks, e, Fire(act, tasks[e.path[0]], e.Tail(), vars).value.0);
    case Ready(_, _, _) =>
      forall d: Event | d.path == [] ensures d == Event([], Schedule) || d == Event([], Complete) {
        assert d == Event([], d.kind);
        assert d.kind.Schedule? || d.kind.Complete?;
      }
    case Running(_, _, _) =>
  }

  lemma TailInjective(d: Event, e: Event)
    requires d.path != [] && e.path != [] && d.path[0] == e.path[0]
    ensures d == e <==> d.Tail() == e.Tail()
  {
    assert d.path == [d.path[0]] + d.path[1..] && e.path == [e.path[0]] + e.path[1..];
  }

  /** No deadlock: an unfinished task always has an event that can happen now. */
  lemma {:induction false} Progress(act: Activities, stmt: Statement, task: Task, vars: Vars) returns (e: Event)
    requires Of(stmt, task) && !task.Done?
    ensures Fire(act, task, e, vars).Some? && Due(stmt, task, e)
    decreases stmt
  {
    match task
    case Ready(_, _, _) => e := Event([], Schedule);
    case Running(_, _, _) => e := Event([], Complete);
    case InSequence(index, current, _) =>
      var inner := Progress(act, stmt.elements[index], current, vars);
      e := Lift(index, inner);
    case InParallel(tasks) =>
      var i: nat :| i < |tasks| && !tasks[i].Done?;
      var inner := Progress(act, stmt.branches[i], tasks[i], vars);
      e := Lift(i, inner);
  }

  /** `e` is to come and nothing that has to come before it is. */
  ghost predicate First(stmt: Statement, task: Task, e: Event)
    requires Of(stmt, task)
  {
    Due(stmt, task, e) && forall d :: Due(stmt, task, d) ==> !Before(stmt, d, e)
  }

  lemma SequenceFirst(act: Activities, elements: seq<Statement>, index: nat, current: Task, e: Event, vars: Vars)
    requires index < |elements| && Of(Sequence(elements), InSequence(index, current, elements[index + 1..]))
    ensures First(Sequence(elements), InSequence(index, current, elements[index + 1..]), e) <==>
      e.Into(index) && First(elements[index], current, e.Tail())
  {
    var stmt, task := Sequence(elements), InSequence(index, current, elements[index + 1..]);
    if Due(stmt, task, e) && !e.Into(index) {
      var first := Progress(act, elements[index], current, vars);
      assert Due(stmt, task, Lift(index, first)) && Before(stmt, Lift(index, first), e);
    }
    if First(stmt, task, e) {
      forall d | Due(elements[index], current, d) ensures !Before(elements[index], d, e.Tail()) {
        assert Due(stmt, task, Lift(index, d));
      }
    }
    if e.Into(index) && First(elements[index], current, e.Tail()) {
      forall d | Due(stmt, task, d) ensures !Before(stmt, d, e) {
        if d.Into(index) {
          assert !Before(elements[index], d.Tail(), e.Tail());
        }
      }
    }
  }

  lemma ParallelFirst(branches: seq<Statement>, tasks: seq<Task>, e: Event)
    requires Of(Parallel(branches), InParallel(tasks))
    ensures First(Parallel(branches), InParallel(tasks), e) <==>
      e.path != [] && e.path[0] < |tasks| && First(branches[e.path[0]], tasks[e.path[0]], e.Tail())
  {
    var stmt, task := Parallel(branches), InParallel(tasks);
    if e.path != [] && e.path[0] < |tasks| {
      var k := e.path[0];
      if First(stmt, task, e) {
        forall d | Due(branches[k], tasks[k], d) ensures !Before(branches[k], d, e.Tail()) {
          assert Due(stmt, task, Lift(k, d));
        }
      }
      if First(branches[k], tasks[k], e.Tail()) {
        forall d | Due(stmt, task, d) ensures !Before(stmt, d, e) {
          if d.Into(k) {
            assert !Before(branches[k], d.Tail(), e.Tail());
          }
        }
      }
    }
  }

  /** An event can happen exactly when it is to come and nothing that precedes it is. */
  lemma {:induction false} FireIff(act: Activities, stmt: Statement, task: Task, e: Event, vars: Vars)
    requires Of(stmt, task)
    ensures Fire(act, task, e, vars).Some? <==> First(stmt, task, e)
    decreases stmt
  {
    match task
    case InSequence(index, current, _) =>
      SequenceFirst(act, stmt.elements, index, current, e, vars);
      if e.Into(index) {
        FireIff(act, stmt.elements[index], current, e.Tail(), vars);
      }
    case InParallel(tasks) =>
      ParallelFirst(stmt.branches, tasks, e);
      if e.path != [] && e.path[0] < |tasks| {
        FireIff(act, stmt.branches[e.path[0]], tasks[e.path[0]], e.Tail(), vars);
      }
    case Ready(_, _, _) =>
      assert Due(stmt, task, Event([], Schedule)) && Before(stmt, Event([], Schedule), Event([], Complete));
      assert e.path == [] ==> e == Event([], e.kind);
      assert e.kind.Schedule? || e.kind.Complete?;
    case Running(_, _, _) =>
    case Done =>
  }

  /** Each event still to come once, and none before one it has to follow. */
  ghost predicate LinearExtension(stmt: Statement, task: Task, events: seq<Event>)
    requires Of(stmt, task)
  {
    && (forall e :: e in events <==> Due(stmt, task, e))
    && (forall i, j :: 0 <= i < j < |events| ==> events[i] != events[j])
    && (forall i, j :: 0 <= i < j < |events| ==> !Before(stmt, events[j], events[i]))
  }

  ghost predicate RunsToTheEnd(act: Activities, task: Task, vars: Vars, events: seq<Event>) {
    Execute(act, task, vars, events).Some? && Execute(act, task, vars, events).value.0.Done?
  }

  /** Putting an event that can happen in front of a linear extension of what remains gives one. */
  lemma ExtensionGrows(stmt: Statement, task: Task, next: Task, e: Event, rest: seq<Event>)
    requires Of(stmt, task) && First(stmt, task, e) && Consumes(stmt, task, e, next)
    requires LinearExtension(stmt, next, rest)
    ensures LinearExtension(stmt, task, [e] + rest)
  {
    var events := [e] + rest;
    forall i, j | 0 <= i < j < |events| ensures events[i] != events[j] && !Before(stmt, events[j], events[i]) {
      assert events[j] == rest[j - 1] && rest[j - 1] in rest;
      if i > 0 { assert events[i] == rest[i - 1]; }
    }
    forall d ensures d in events <==> Due(stmt, task, d) {
      assert d in events <==> d == e || d in rest;
    }
  }

  /** Taking the first event off a linear extension leaves one of what remains. */
  lemma ExtensionShrinks(stmt: Statement, task: Task, next: Task, e: Event, rest: seq<Event>)
    requires Of(stmt, task) && Consumes(stmt, task, e, next)
    requires LinearExtension(stmt, task, [e] + rest)
    ensures LinearExtension(stmt, next, rest)
  {
    var events := [e] + rest;
    forall i, j | 0 <= i < j < |rest| ensures rest[i] != rest[j] && !Before(stmt, rest[j], rest[i]) {
      assert rest[i] == events[i + 1] && rest[j] == events[j + 1];
    }
    forall d ensures d in rest <==> Due(stmt, next, d) {
      assert d in events <==> d == e || d in rest;
      if d in rest {
        var j :| 0 <= j < |rest| && rest[j] == d;
        assert events[j + 1] == d && events[0] == e;
      }
    }
  }

  lemma FirstHasNoPredecessor(stmt: Statement, task: Task, events: seq<Event>)
    requires Of(stmt, task) && events != [] && LinearExtension(stmt, task, events)
    ensures First(stmt, task, events[0])
  {
    assert events[0] in events;
    forall d | Due(stmt, task, d) ensures !Before(stmt, d, events[0]) {
      assert d in events;
      var j :| 0 <= j < |events| && events[j] == d;
      if j == 0 {
        BeforeIrreflexive(stmt, d);
      }
    }
  }

  lemma {:induction false} TaskSchedules(act: Activities, stmt: Statement, task: Task, vars: Vars, events: seq<Event>)
    requires Of(stmt, task)
    ensures RunsToTheEnd(act, task, vars, events) <==> LinearExtension(stmt, task, events)
    decreases |events|
  {
    if events == [] {
      if !task.Done? {
        var e := Progress(act, stmt, task, vars);
        assert e !in events;
      }
    } else {
      var e := events[0];
      assert events == [e] + events[1..];
      FireIff(act, stmt, task, e, vars);
      if LinearExtension(stmt, task, events) {
        FirstHasNoPredecessor(stmt, task, events);
      }
      if Fire(act, task, e, vars).Some? {
        var (next, w) := Fire(act, task, e, vars).value;
        FireDue(act, stmt, task, e, vars);
        TaskSchedules(act, stmt, next, w.On(vars), events[1..]);
        if LinearExtension(stmt, task, events) {
          ExtensionShrinks(stmt, task, next, e, events[1..]);
        }
        if LinearExtension(stmt, next, events[1..]) {
          ExtensionGrows(stmt, task, next, e, events[1..]);
        }
      }
    }
  }

  lemma {:induction false} BeforeIrreflexive(stmt: Statement, e: Event)
    ensures !Before(stmt, e, e)
    decreases stmt
  {
    match stmt
    case Activity(_, _, _) =>
    case Sequence(elements) =>
      if e.path != [] && e.path[0] < |elements| { BeforeIrreflexive(elements[e.path[0]], e.Tail()); }
    case Parallel(branches) =>
      if e.path != [] && e.path[0] < |branches| { BeforeIrreflexive(branches[e.path[0]], e.Tail()); }
  }

  /** The complete executions of a program, racy or not, are exactly the orderings that schedule
      and complete every leaf once and respect program order. */
  lemma Schedules(act: Activities, stmt: Statement, vars: Vars, events: seq<Event>)
    ensures RunsToTheEnd(act, Start(stmt), vars, events) <==>
      && (forall e :: e in events <==> IsLeaf(stmt, e.path))
      && (forall i, j :: 0 <= i < j < |events| ==> events[i] != events[j])
      && (forall i, j :: 0 <= i < j < |events| ==> !Before(stmt, events[j], events[i]))
  {
    StartDue(stmt);
    TaskSchedules(act, stmt, Start(stmt), vars, events);
  }

  // ----- Termination -----

  function Leaves(stmt: Statement): nat
    decreases stmt, 1
  {
    match stmt
    case Activity(_, _, _) => 1
    case Sequence(elements) => LeavesOf(elements)
    case Parallel(branches) => LeavesOf(branches)
  }

  function LeavesOf(stmts: seq<Statement>): nat
    decreases stmts, 0
  {
    if stmts == [] then 0 else Leaves(stmts[0]) + LeavesOf(stmts[1..])
  }

  /** Events to come. */
  function Work(task: Task): nat
    decreases task, 1
  {
    match task
    case Ready(_, _, _) => 2
    case Running(_, _, _) => 1
    case InSequence(_, current, rest) => Work(current) + 2 * LeavesOf(rest)
    case InParallel(tasks) => WorkOf(tasks)
    case Done => 0
  }

  function WorkOf(tasks: seq<Task>): nat
    decreases tasks, 0
  {
    if tasks == [] then 0 else Work(tasks[0]) + WorkOf(tasks[1..])
  }

  lemma {:induction false} StartWork(stmt: Statement)
    ensures Work(Start(stmt)) == 2 * Leaves(stmt)
    decreases stmt, 1
  {
    match stmt
    case Activity(_, _, _) =>
    case Sequence(elements) => StartFromWork(0, elements);
    case Parallel(branches) =>
      StartEachWork(branches);
      JoinWork(StartEach(branches));
  }

  lemma {:induction false} StartFromWork(index: nat, elements: seq<Statement>)
    ensures Work(StartFrom(index, elements)) == 2 * LeavesOf(elements)
    decreases elements, 0
  {
    if elements != [] {
      StartWork(elements[0]);
      StartFromWork(index + 1, elements[1..]);
    }
  }

  lemma {:induction false} StartEachWork(branches: seq<Statement>)
    ensures WorkOf(StartEach(branches)) == 2 * LeavesOf(branches)
    decreases branches, 0
  {
    if branches != [] {
      StartWork(branches[0]);
      StartEachWork(branches[1..]);
      assert StartEach(branches)[1..] == StartEach(branches[1..]);
    }
  }

  lemma {:induction false} JoinWork(tasks: seq<Task>)
    ensures Work(Join(tasks)) == WorkOf(tasks)
    decreases |tasks|
  {
    if tasks != [] && Join(tasks).Done? {
      assert Join(tasks[1..]).Done?;
      JoinWork(tasks[1..]);
    }
  }

  lemma {:induction false} UpdateWork(tasks: seq<Task>, k: nat, next: Task)
    requires k < |tasks|
    ensures WorkOf(tasks[k := next]) + Work(tasks[k]) == WorkOf(tasks) + Work(next)
    decreases |tasks|
  {
    if k > 0 {
      UpdateWork(tasks[1..], k - 1, next);
      assert tasks[k := next][1..] == tasks[1..][k - 1 := next];
    }
  }

  lemma {:induction false} FireWork(act: Activities, task: Task, e: Event, vars: Vars)
    requires Fire(act, task, e, vars).Some?
    ensures Work(Fire(act, task, e, vars).value.0) + 1 == Work(task)
    decreases task
  {
    match task
    case InSequence(index, current, rest) =>
      FireWork(act, current, e.Tail(), vars);
      StartFromWork(index + 1, rest);
    case InParallel(tasks) =>
      var next := Fire(act, tasks[e.path[0]], e.Tail(), vars).value.0;
      FireWork(act, tasks[e.path[0]], e.Tail(), vars);
      UpdateWork(tasks, e.path[0], next);
      JoinWork(tasks[e.path[0] := next]);
    case _ =>
  }

  lemma {:induction false} ExecuteWork(act: Activities, task: Task, vars: Vars, events: seq<Event>)
    requires Execute(act, task, vars, events).Some?
    ensures |events| + Work(Execute(act, task, vars, events).value.0) == Work(task)
    decreases |events|
  {
    if events != [] {
      FireWork(act, task, events[0], vars);
      var (next, w) := Fire(act, task, events[0], vars).value;
      ExecuteWork(act, next, w.On(vars), events[1..]);
    }
  }

  /** Every schedule ends: no program makes more events than twice its leaves, and one that has
      run to the end made exactly that many. */
  lemma Terminates(act: Activities, stmt: Statement, vars: Vars, events: seq<Event>)
    requires Execute(act, Start(stmt), vars, events).Some?
    ensures |events| <= 2 * Leaves(stmt)
    ensures RunsToTheEnd(act, Start(stmt), vars, events) ==> |events| == 2 * Leaves(stmt)
  {
    StartWork(stmt);
    ExecuteWork(act, Start(stmt), vars, events);
  }
}
