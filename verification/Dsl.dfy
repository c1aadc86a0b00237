/**
 The statement language of the DSL workflow and its plain, left-to-right meaning.
 */
module Dsl {
  import opened Wrappers

  datatype Statement =
    | Activity(name: string, arguments: seq<string>, result: Option<string>)
    | Sequence(elements: seq<Statement>)
    | Parallel(branches: seq<Statement>)

  datatype Value = Text(text: string) | Number(number: int) | Flag(flag: bool) | Items(items: seq<Value>)

  type Vars = map<string, Value>

  /** What the activities compute; any function of name and arguments. */
  type Activities = (string, seq<Value>) -> Value

  datatype Write = NoWrite | Write(x: string, v: Value)
  {
    function On(vars: Vars): Vars {
      if NoWrite? then vars else vars[x := v]
    }
  }

  function Lookup(vars: Vars, x: string): Value {
    if x in vars then vars[x] else Text("")
  }

  function Arguments(vars: Vars, xs: seq<string>): seq<Value> {
    seq(|xs|, i requires 0 <= i < |xs| => Lookup(vars, xs[i]))
  }

  /** The result is stored only under a name that is given and not empty. */
  function Store(result: Option<string>, v: Value): Write {
    if result.Some? && result.value != "" then Write(result.value, v) else NoWrite
  }

  function Eval(act: Activities, stmt: Statement, vars: Vars): Vars
    decreases stmt, 1
  {
    match stmt
    case Activity(name, arguments, result) => Store(result, act(name, Arguments(vars, arguments))).On(vars)
    case Sequence(elements) => EvalAll(act, elements, vars)
    case Parallel(branches) => EvalAll(act, branches, vars)
  }

  function EvalAll(act: Activities, stmts: seq<Statement>, vars: Vars): Vars
    decreases stmts, 0
  {
    if stmts == [] then vars else EvalAll(act, stmts[1..], Eval(act, stmts[0], vars))
  }

  /** The arguments of an activity are the values of its names, in their order; a name that is not a
      variable stands for the empty text. */
  lemma ArgumentsInOrder(vars: Vars, xs: seq<string>, ys: seq<string>, x: string)
    ensures Arguments(vars, xs + ys) == Arguments(vars, xs) + Arguments(vars, ys)
    ensures Arguments(vars, [x]) == [if x in vars then vars[x] else Text("")]
    ensures Arguments(vars, []) == []
  {}

  /** Statements one after the other. */
  lemma {:induction false} EvalAllInOrder(act: Activities, xs: seq<Statement>, ys: seq<Statement>, vars: Vars)
    ensures EvalAll(act, xs + ys, vars) == EvalAll(act, ys, EvalAll(act, xs, vars))
  {
    if xs == [] {
      assert xs + ys == ys;
    } else {
      assert (xs + ys)[1..] == xs[1..] + ys;
      EvalAllInOrder(act, xs[1..], ys, Eval(act, xs[0], vars));
    }
  }

  ghost predicate Reads(stmt: Statement, x: string) {
    match stmt
    case Activity(_, arguments, _) => x in arguments
    case Sequence(elements) => exists i :: 0 <= i < |elements| && Reads(elements[i], x)
    case Parallel(branches) => exists i :: 0 <= i < |branches| && Reads(branches[i], x)
  }

  ghost predicate Writes(stmt: Statement, x: string) {
    match stmt
    case Activity(_, _, result) => result == Some(x) && x != ""
    case Sequence(elements) => exists i :: 0 <= i < |elements| && Writes(elements[i], x)
    case Parallel(branches) => exists i :: 0 <= i < |branches| && Writes(branches[i], x)
  }

  /** In every Parallel, no branch writes what another branch reads or writes. */
  ghost predicate RaceFree(stmt: Statement) {
    match stmt
    case Activity(_, _, _) => true
    case Sequence(elements) => forall i :: 0 <= i < |elements| ==> RaceFree(elements[i])
    case Parallel(branches) =>
      && (forall i :: 0 <= i < |branches| ==> RaceFree(branches[i]))
      && (forall i, j, x :: 0 <= i < |branches| && 0 <= j < |branches| && i != j && Writes(branches[i], x) ==>
            !Reads(branches[j], x) && !Writes(branches[j], x))
  }

  ghost predicate SameAt(a: Vars, b: Vars, x: string) {
    (x in a <==> x in b) && (x in a ==> a[x] == b[x])
  }

  // ----- Effects of the plain meaning -----

  lemma {:induction false} EvalFrame(act: Activities, stmt: Statement, vars: Vars, x: string)
    requires !Writes(stmt, x)
    ensures SameAt(Eval(act, stmt, vars), vars, x)
    decreases stmt, 1
  {
    match stmt
    case Activity(_, _, _) =>
    case Sequence(elements) => EvalAllFrame(act, elements, vars, x);
    case Parallel(branches) => EvalAllFrame(act, branches, vars, x);
  }

  lemma {:induction false} EvalAllFrame(act: Activities, stmts: seq<Statement>, vars: Vars, x: string)
    requires forall i :: 0 <= i < |stmts| ==> !Writes(stmts[i], x)
    ensures SameAt(EvalAll(act, stmts, vars), vars, x)
    decreases stmts, 0
  {
    if stmts != [] {
      EvalFrame(act, stmts[0], vars, x);
      EvalAllFrame(act, stmts[1..], Eval(act, stmts[0], vars), x);
    }
  }

  lemma {:induction false} EvalCommutes(act: Activities, stmt: Statement, vars: Vars, x: string, v: Value)
    requires !Reads(stmt, x) && !Writes(stmt, x)
    ensures Eval(act, stmt, vars[x := v]) == Eval(act, stmt, vars)[x := v]
    decreases stmt, 1
  {
    match stmt
    case Activity(_, arguments, _) =>
      assert Arguments(vars[x := v], arguments) == Arguments(vars, arguments);
    case Sequence(elements) => EvalAllCommutes(act, elements, vars, x, v);
    case Parallel(branches) => EvalAllCommutes(act, branches, vars, x, v);
  }

  lemma {:induction false} EvalAllCommutes(act: Activities, stmts: seq<Statement>, vars: Vars, x: string, v: Value)
    requires forall i :: 0 <= i < |stmts| ==> !Reads(stmts[i], x) && !Writes(stmts[i], x)
    ensures EvalAll(act, stmts, vars[x := v]) == EvalAll(act, stmts, vars)[x := v]
    decreases stmts, 0
  {
    if stmts != [] {
      EvalCommutes(act, stmts[0], vars, x, v);
      EvalAllCommutes(act, stmts[1..], Eval(act, stmts[0], vars), x, v);
    }
  }

  // ----- The workflow object -----

  /** The interpreter as written, for the schedule that runs the branches of a Parallel in order;
      module DslSchedules treats all the others. */
  class DSLWorkflow {
    const activities: Activities
    var variables: Vars

    constructor (activities: Activities)
      ensures this.activities == activities
    {
      this.activities, variables := activities, map[];
    }

    method Run(root: Statement, input: Vars) returns (result: Vars)
      modifies this
      ensures result == variables == Eval(activities, root, input)
    {
      variables := input;
      ExecuteStatement(root);
      return variables;
    }

    method ExecuteStatement(stmt: Statement)
      modifies this
      ensures variables == Eval(activities, stmt, old(variables))
      decreases stmt
    {
      match stmt
      case Activity(name, arguments, result) =>
        var value := activities(name, Arguments(variables, arguments));
        if result.Some? && result.value != "" {
          variables := variables[result.value := value];
        }
      case Sequence(elements) =>
        for i := 0 to |elements|
          invariant EvalAll(activities, elements, old(variables)) == EvalAll(activities, elements[i..], variables)
        {
          assert elements[i..][1..] == elements[i+1..];
          ExecuteStatement(elements[i]);
        }
      case Parallel(branches) =>
        for i := 0 to |branches|
          invariant EvalAll(activities, branches, old(variables)) == EvalAll(activities, branches[i..], variables)
        {
          assert branches[i..][1..] == branches[i+1..];
          ExecuteStatement(branches[i]);
        }
    }
  }
}
