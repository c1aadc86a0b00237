/**
 Every schedule of a DSL program. A leaf has two events: it is scheduled, reading its arguments
 then, and it completes, writing its result then. Between events any other enabled leaf may act.
 The walk from one leaf to the next inside a sequence, and the end of an empty sequence or
 parallel, happen with the event before them.
 */
module DslSchedules {
  import opened Wrappers
  import opened Dsl

  datatype Kind = Schedule | Complete

  /** A leaf is named by the path of child positions from the root. */
  datatype Event = Event(path: seq<nat>, kind: Kind)
  {
    function Tail(): Event
      requires path != []
    {
      Event(path[1..], kind)
    }

    predicate Into(i: nat) {
      path != [] && path[0] == i
    }
  }

  /** A partly executed statement. `index` counts the finished elements of the sequence. */
  datatype Task =
    | Ready(name: string, arguments: seq<string>, result: Option<string>)
    | Running(name: string, values: seq<Value>, result: Option<string>)
    | InSequence(index: nat, current: Task, rest: seq<Statement>)
    | InParallel(tasks: seq<Task>)
    | Done

  function Start(stmt: Statement): Task
    decreases stmt, 1
  {
    match stmt
    case Activity(name, arguments, result) => Ready(name, arguments, result)
    case Sequence(elements) => StartFrom(0, elements)
    case Parallel(branches) => Join(StartEach(branches))
  }

  function StartFrom(index: nat, elements: seq<Statement>): Task
    decreases elements, 0
  {
    if elements == [] then Done
    else
      var first := Start(elements[0]);
      if first.Done? then StartFrom(index + 1, elements[1..]) else InSequence(index, first, elements[1..])
  }

  function StartEach(branches: seq<Statement>): (tasks: seq<Task>)
    ensures |tasks| == |branches|
    ensures forall i :: 0 <= i < |branches| ==> tasks[i] == Start(branches[i])
    decreases branches, 0
  {
    if branches == [] then [] else [Start(branches[0])] + StartEach(branches[1..])
  }

  function Join(tasks: seq<Task>): Task {
    if forall i :: 0 <= i < |tasks| ==> tasks[i].Done? then Done else InParallel(tasks)
  }

  function Advance(index: nat, current: Task, rest: seq<Statement>): Task {
    if current.Done? then StartFrom(index + 1, rest) else InSequence(index, current, rest)
  }

  /** The event `e` happening in `task` when the variables are `vars`; None if it cannot. */
  function Fire(act: Activities, task: Task, e: Event, vars: Vars): Option<(Task, Write)>
    decreases task
  {
    match task
    case Ready(name, arguments, result) =>
      if e == Event([], Schedule) then Some((Running(name, Arguments(vars, arguments), result), NoWrite)) else None
    case Running(name, values, result) =>
      if e == Event([], Complete) then Some((Done, Store(result, act(name, values)))) else None
    case InSequence(index, current, rest) =>
      if !e.Into(index) then None else
        (match Fire(act, current, e.Tail(), vars)
         case None => None
         case Some((next, w)) => Some((Advance(index, next, rest), w)))
    case InParallel(tasks) =>
      if e.path == [] || e.path[0] >= |tasks| then None else
        (match Fire(act, tasks[e.path[0]], e.Tail(), vars)
         case None => None
         case Some((next, w)) => Some((Join(tasks[e.path[0] := next]), w)))
    case Done => None
  }

  /** Execution of a list of events, in that order. */
  function Execute(act: Activities, task: Task, vars: Vars, events: seq<Event>): Option<(Task, Vars)>
    decreases |events|
  {
    if events == [] then Some((task, vars)) else
      match Fire(act, task, events[0], vars)
      case None => None
      case Some((next, w)) => Execute(act, next, w.On(vars), events[1..])
  }

  // ----- Confluence -----

  /** What is left of the task, run to the end from left to right. */
  function Finish(act: Activities, task: Task, vars: Vars): Vars
    decreases task, 1
  {
    match task
    case Ready(name, arguments, result) => Store(result, act(name, Arguments(vars, arguments))).On(vars)
    case Running(name, values, result) => Store(result, act(name, values)).On(vars)
    case InSequence(_, current, rest) => EvalAll(act, rest, Finish(act, current, vars))
    case InParallel(tasks) => FinishAll(act, tasks, vars)
    case Done => vars
  }

  function FinishAll(act: Activities, tasks: seq<Task>, vars: Vars): Vars
    decreases tasks, 0
  {
    if tasks == [] then vars else FinishAll(act, tasks[1..], Finish(act, tasks[0], vars))
  }

  ghost predicate WillRead(task: Task, x: string) {
    match task
    case Ready(_, arguments, _) => x in arguments
    case Running(_, _, _) => false
    case InSequence(_, current, rest) =>
      WillRead(current, x) || exists i :: 0 <= i < |rest| && Reads(rest[i], x)
    case InParallel(tasks) => exists i :: 0 <= i < |tasks| && WillRead(tasks[i], x)
    case Done => false
  }

  ghost predicate WillWrite(task: Task, x: string) {
    match task
    case Ready(_, _, result) => result == Some(x) && x != ""
    case Running(_, _, result) => result == Some(x) && x != ""
    case InSequence(_, current, rest) =>
      WillWrite(current, x) || exists i :: 0 <= i < |rest| && Writes(rest[i], x)
    case InParallel(tasks) => exists i :: 0 <= i < |tasks| && WillWrite(tasks[i], x)
    case Done => false
  }

  ghost predicate Apart(a: Task, b: Task) {
    forall x :: WillWrite(a, x) ==> !WillRead(b, x) && !WillWrite(b, x)
  }

  ghost predicate StaysRaceFree(task: Task) {
    match task
    case InSequence(_, current, rest) =>
      StaysRaceFree(current) && forall i :: 0 <= i < |rest| ==> RaceFree(rest[i])
    case InParallel(tasks) =>
      && (forall i :: 0 <= i < |tasks| ==> StaysRaceFree(tasks[i]))
      && (forall i, j :: 0 <= i < |tasks| && 0 <= j < |tasks| && i != j ==> Apart(tasks[i], tasks[j]))
    case _ => true
  }

  lemma {:induction false} StartShape(stmt: Statement)
    ensures forall x :: WillRead(Start(stmt), x) ==> Reads(stmt, x)
    ensures forall x :: WillWrite(Start(stmt), x) ==> Writes(stmt, x)
    ensures RaceFree(stmt) ==> StaysRaceFree(Start(stmt))
    decreases stmt, 1
  {
    match stmt
    case Activity(_, _, _) =>
    case Sequence(elements) => StartFromShape(0, elements);
    case Parallel(branches) =>
      forall i | 0 <= i < |branches|
        ensures forall x :: WillRead(Start(branches[i]), x) ==> Reads(branches[i], x)
        ensures forall x :: WillWrite(Start(branches[i]), x) ==> Writes(branches[i], x)
        ensures RaceFree(branches[i]) ==> StaysRaceFree(Start(branches[i]))
      {
        StartShape(branches[i]);
      }
  }

  lemma {:induction false} StartFromShape(index: nat, elements: seq<Statement>)
    ensures forall x :: WillRead(StartFrom(index, elements), x) ==> exists i :: 0 <= i < |elements| && Reads(elements[i], x)
    ensures forall x :: WillWrite(StartFrom(index, elements), x) ==> exists i :: 0 <= i < |elements| && Writes(elements[i], x)
    ensures (forall i :: 0 <= i < |elements| ==> RaceFree(elements[i])) ==> StaysRaceFree(StartFrom(index, elements))
    decreases elements, 0
  {
    if elements != [] {
      var rest := elements[1..];
      StartShape(elements[0]);
      StartFromShape(index + 1, rest);
      assert forall i :: 0 <= i < |rest| ==> rest[i] == elements[i + 1];
    }
  }

  lemma {:induction false} FinishStart(act: Activities, stmt: Statement, vars: Vars)
    ensures Finish(act, Start(stmt), vars) == Eval(act, stmt, vars)
    decreases stmt, 1
  {
    match stmt
    case Activity(_, _, _) =>
    case Sequence(elements) => FinishStartFrom(act, 0, elements, vars);
    case Parallel(branches) =>
      FinishStartEach(act, branches, vars);
      FinishJoin(act, StartEach(branches), vars);
  }

  lemma {:induction false} FinishStartFrom(act: Activities, index: nat, elements: seq<Statement>, vars: Vars)
    ensures Finish(act, StartFrom(index, elements), vars) == EvalAll(act, elements, vars)
    decreases elements, 0
  {
    if elements != [] {
      FinishStart(act, elements[0], vars);
      FinishStartFrom(act, index + 1, elements[1..], vars);
    }
  }

  lemma {:induction false} FinishStartEach(act: Activities, branches: seq<Statement>, vars: Vars)
    ensures FinishAll(act, StartEach(branches), vars) == EvalAll(act, branches, vars)
    decreases branches, 0
  {
    if branches != [] {
      FinishStart(act, branches[0], vars);
      FinishStartEach(act, branches[1..], Eval(act, branches[0], vars));
      assert StartEach(branches)[1..] == StartEach(branches[1..]);
    }
  }

  lemma {:induction false} FinishJoin(act: Activities, tasks: seq<Task>, vars: Vars)
    ensures Finish(act, Join(tasks), vars) == FinishAll(act, tasks, vars)
    decreases |tasks|
  {
    if tasks != [] && Join(tasks).Done? {
      assert Join(tasks[1..]).Done?;
      FinishJoin(act, tasks[1..], vars);
    }
  }

  lemma {:induction false} FinishFrame(act: Activities, task: Task, vars: Vars, x: string)
    requires !WillWrite(task, x)
    ensures SameAt(Finish(act, task, vars), vars, x)
    decreases task, 1
  {
    match task
    case InSequence(_, current, rest) =>
      FinishFrame(act, current, vars, x);
      EvalAllFrame(act, rest, Finish(act, current, vars), x);
    case InParallel(tasks) => FinishAllFrame(act, tasks, vars, x);
    case _ =>
  }

  lemma {:induction false} FinishAllFrame(act: Activities, tasks: seq<Task>, vars: Vars, x: string)
    requires forall i :: 0 <= i < |tasks| ==> !WillWrite(tasks[i], x)
    ensures SameAt(FinishAll(act, tasks, vars), vars, x)
    decreases tasks, 0
  {
    if tasks != [] {
      FinishFrame(act, tasks[0], vars, x);
      FinishAllFrame(act, tasks[1..], Finish(act, tasks[0], vars), x);
    }
  }

  lemma {:induction false} FinishCommutes(act: Activities, task: Task, vars: Vars, x: string, v: Value)
    requires !WillRead(task, x) && !WillWrite(task, x)
    ensures Finish(act, task, vars[x := v]) == Finish(act, task, vars)[x := v]
    decreases task, 1
  {
    match task
    case Ready(_, arguments, _) =>
      assert Arguments(vars[x := v], arguments) == Arguments(vars, arguments);
    case InSequence(_, current, rest) =>
      FinishCommutes(act, current, vars, x, v);
      EvalAllCommutes(act, rest, Finish(act, current, vars), x, v);
    case InParallel(tasks) => FinishAllCommutes(act, tasks, vars, x, v);
    case _ =>
  }

  lemma {:induction false} FinishAllCommutes(act: Activities, tasks: seq<Task>, vars: Vars, x: string, v: Value)
    requires forall i :: 0 <= i < |tasks| ==> !WillRead(tasks[i], x) && !WillWrite(tasks[i], x)
    ensures FinishAll(act, tasks, vars[x := v]) == FinishAll(act, tasks, vars)[x := v]
    decreases tasks, 0
  {
    if tasks != [] {
      FinishCommutes(act, tasks[0], vars, x, v);
      FinishAllCommutes(act, tasks[1..], Finish(act, tasks[0], vars), x, v);
    }
  }

  /** An event sees only the variables its task will read. */
  lemma {:induction false} FireLocal(act: Activities, task: Task, e: Event, vars: Vars, other: Vars)
    requires forall x :: WillRead(task, x) ==> SameAt(vars, other, x)
    ensures Fire(act, task, e, vars) == Fire(act, task, e, other)
    decreases task
  {
    match task
    case Ready(_, arguments, _) =>
      assert forall i :: 0 <= i < |arguments| ==> SameAt(vars, other, arguments[i]);
      assert Arguments(vars, arguments) == Arguments(other, arguments);
    case InSequence(index, current, _) =>
      if e.Into(index) {
        FireLocal(act, current, e.Tail(), vars, other);
      }
    case InParallel(tasks) =>
      if e.path != [] && e.path[0] < |tasks| {
        FireLocal(act, tasks[e.path[0]], e.Tail(), vars, other);
      }
    case _ =>
  }

  /** An event writes what its task was going to write, and afterwards no more is read or written. */
  lemma {:induction false} FireShrinks(act: Activities, task: Task, e: Event, vars: Vars)
    requires Fire(act, task, e, vars).Some?
    ensures var (next, w) := Fire(act, task, e, vars).value;
      && (w.Write? ==> WillWrite(task, w.x))
      && (forall x :: WillRead(next, x) ==> WillRead(task, x))
      && (forall x :: WillWrite(next, x) ==> WillWrite(task, x))
      && (StaysRaceFree(task) ==> StaysRaceFree(next))
    decreases task
  {
    match task
    case InSequence(index, current, rest) =>
      FireShrinks(act, current, e.Tail(), vars);
      StartFromShape(index + 1, rest);
    case InParallel(tasks) =>
      FireShrinks(act, tasks[e.path[0]], e.Tail(), vars);
    case _ =>
  }

  /** The heart of confluence: an event does not change what finishing in order will give. */
  lemma {:induction false} FirePreserves(act: Activities, task: Task, e: Event, vars: Vars)
    requires StaysRaceFree(task) && Fire(act, task, e, vars).Some?
    ensures var (next, w) := Fire(act, task, e, vars).value;
      Finish(act, next, w.On(vars)) == Finish(act, task, vars)
    decreases task, 1
  {
    match task
    case InSequence(index, current, rest) =>
      FirePreserves(act, current, e.Tail(), vars);
      var (next, w) := Fire(act, current, e.Tail(), vars).value;
      if next.Done? {
        FinishStartFrom(act, index + 1, rest, w.On(vars));
      }
    case InParallel(tasks) =>
      var (next, w) := Fire(act, tasks[e.path[0]], e.Tail(), vars).value;
      FirePreservesAmong(act, tasks, e.path[0], e.Tail(), vars);
      FinishJoin(act, tasks[e.path[0] := next], w.On(vars));
    case _ =>
  }

  lemma {:induction false} FirePreservesAmong(act: Activities, tasks: seq<Task>, k: nat, e: Event, vars: Vars)
    requires k < |tasks| && Fire(act, tasks[k], e, vars).Some?
    requires forall i :: 0 <= i < |tasks| ==> StaysRaceFree(tasks[i])
    requires forall i, j :: 0 <= i < |tasks| && 0 <= j < |tasks| && i != j ==> Apart(tasks[i], tasks[j])
    ensures var (next, w) := Fire(act, tasks[k], e, vars).value;
      FinishAll(act, tasks[k := next], w.On(vars)) == FinishAll(act, tasks, vars)
    decreases tasks, 0
  {
    var (next, w) := Fire(act, tasks[k], e, vars).value;
    if k == 0 {
      FirePreserves(act, tasks[0], e, vars);
    } else {
      var after := Finish(act, tasks[0], vars);
      assert Apart(tasks[k], tasks[0]) && Apart(tasks[0], tasks[k]);
      FireShrinks(act, tasks[k], e, vars);
      if w.Write? {
        FinishCommutes(act, tasks[0], vars, w.x, w.v);
      }
      forall x | WillRead(tasks[k], x) ensures SameAt(vars, after, x) {
        FinishFrame(act, tasks[0], vars, x);
      }
      FireLocal(act, tasks[k], e, vars, after);
      FirePreservesAmong(act, tasks[1..], k - 1, e, after);
      assert tasks[k := next][1..] == tasks[1..][k - 1 := next];
    }
  }

  lemma {:induction false} ExecutePreserves(act: Activities, task: Task, vars: Vars, events: seq<Event>)
    requires StaysRaceFree(task) && Execute(act, task, vars, events).Some?
    ensures var (last, out) := Execute(act, task, vars, events).value;
      Finish(act, last, out) == Finish(act, task, vars)
    decreases |events|
  {
    if events != [] {
      var (next, w) := Fire(act, task, events[0], vars).value;
      FirePreserves(act, task, events[0], vars);
      FireShrinks(act, task, events[0], vars);
      ExecutePreserves(act, next, w.On(vars), events[1..]);
    }
  }

  /** Confluence: whatever the interleaving and wherever it stands, finishing a race-free program
      from left to right gives the variables of plain evaluation; a complete interleaving has
      nothing left to finish. */
  lemma Confluence(act: Activities, stmt: Statement, vars: Vars, events: seq<Event>)
    requires RaceFree(stmt)
    requires Execute(act, Start(stmt), vars, events).Some?
    ensures var (last, out) := Execute(act, Start(stmt), vars, events).value;
      && Finish(act, last, out) == Eval(act, stmt, vars)
      && (last.Done? ==> out == Eval(act, stmt, vars))
  {
    StartShape(stmt);
    FinishStart(act, stmt, vars);
    ExecutePreserves(act, Start(stmt), vars, events);
  }

  // ----- Racy or not -----

  /** Racy or not, variables that no activity of the program writes keep their values. */
  lemma {:induction false} ExecuteFrame(act: Activities, task: Task, vars: Vars, events: seq<Event>, x: string)
    requires Execute(act, task, vars, events).Some? && !WillWrite(task, x)
    ensures SameAt(Execute(act, task, vars, events).value.1, vars, x)
    decreases |events|
  {
    if events != [] {
      var (next, w) := Fire(act, task, events[0], vars).value;
      FireShrinks(act, task, events[0], vars);
      ExecuteFrame(act, next, w.On(vars), events[1..], x);
    }
  }

  lemma UnwrittenUnchanged(act: Activities, stmt: Statement, vars: Vars, events: seq<Event>, x: string)
    requires Execute(act, Start(stmt), vars, events).Some? && !Writes(stmt, x)
    ensures SameAt(Execute(act, Start(stmt), vars, events).value.1, vars, x)
  {
    StartShape(stmt);
    ExecuteFrame(act, Start(stmt), vars, events, x);
  }
}
