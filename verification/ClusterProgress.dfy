/**
 The cluster manager can always be brought to its end, every handler answered.
 */
module ClusterProgress {
  import opened Wrappers
  import opened ClusterManager
  import opened ClusterSchedules

  lemma Once(s: System, step: Step)
    requires Enabled(s, step)
    ensures Reaches(s, [step], Apply(s, step))
  {
    assert [step][1..] == [];
  }

  lemma {:induction false} ReachesOn(s: System, first: seq<Step>, t: System, second: seq<Step>, u: System)
    requires Reaches(s, first, t) && Reaches(t, second, u)
    ensures Reaches(s, first + second, u)
    decreases |first|
  {
    if first == [] {
      assert first + second == second;
    } else {
      assert (first + second)[1..] == first[1..] + second;
      ReachesOn(Apply(s, first[0]), first[1..], t, second, u);
    }
  }

  function Pending(s: System): set<nat> {
    set id | id in s.handlers && !s.handlers[id].at.Over?
  }

  /** Between operations of a started cluster that has not returned. */
  ghost predicate Running(s: System) {
    Inv(s) && s.started && s.result.None?
  }

  /** What bringing one handler to its end leaves. */
  ghost predicate Finishes(s: System, id: nat, steps: seq<Step>, t: System) {
    Reaches(s, steps, t) && Running(t) && t.lock.None? && Pending(t) == Pending(s) - {id}
  }

  predicate StepOf(step: Step, id: nat) {
    step == Admit(id) || step == TakeLock(id) || (step.ActivityEnds? && step.id == id)
  }

  /** A step of one handler leaves the others where they are. */
  lemma OneHandler(s: System, step: Step, id: nat)
    requires Running(s) && Enabled(s, step) && StepOf(step, id)
    ensures var t := Apply(s, step);
      && Running(t) && Reaches(s, [step], t)
      && id in t.handlers && Pending(t) == if t.handlers[id].at.Over? then Pending(s) - {id} else Pending(s)
  {
    StepKeeps(s, step);
    Once(s, step);
    OthersStay(s, step, id);
  }

  lemma OthersStay(s: System, step: Step, id: nat)
    requires Enabled(s, step) && StepOf(step, id) && id in s.handlers && !s.handlers[id].at.Over?
    ensures var t := Apply(s, step);
      && t.handlers.Keys == s.handlers.Keys && t.started == s.started && t.result == s.result
      && Pending(t) == if t.handlers[id].at.Over? then Pending(s) - {id} else Pending(s)
  {
    var t := Apply(s, step);
    assert forall other :: other in s.handlers && other != id ==> t.handlers[other] == s.handlers[other];
  }

  lemma EndActivity(s: System, id: nat) returns (steps: seq<Step>, t: System)
    requires Running(s) && s.lock == Some(id)
    ensures Finishes(s, id, steps, t)
  {
    assert id in s.handlers && s.handlers[id].at.InActivity?;
    OneHandler(s, ActivityEnds(id, Failure), id);
    steps, t := [ActivityEnds(id, Failure)], Apply(s, ActivityEnds(id, Failure));
  }

  lemma UseLock(s: System, id: nat) returns (steps: seq<Step>, t: System)
    requires Running(s) && s.lock.None? && id in s.handlers && s.handlers[id].at.WaitingForLock?
    ensures Finishes(s, id, steps, t)
  {
    OneHandler(s, TakeLock(id), id);
    var taken := Apply(s, TakeLock(id));
    if taken.lock.None? {
      steps, t := [TakeLock(id)], taken;
    } else {
      var rest;
      rest, t := EndActivity(taken, id);
      ReachesOn(s, [TakeLock(id)], taken, rest, t);
      steps := [TakeLock(id)] + rest;
    }
  }

  lemma FinishOne(s: System, id: nat) returns (steps: seq<Step>, t: System)
    requires Running(s) && s.lock.None? && id in Pending(s)
    ensures Finishes(s, id, steps, t)
  {
    if s.handlers[id].at.WaitingForLock? {
      steps, t := UseLock(s, id);
    } else {
      assert s.handlers[id].at.WaitingForStart?;
      OneHandler(s, Admit(id), id);
      var admitted := Apply(s, Admit(id));
      if admitted.handlers[id].at.Over? {
        steps, t := [Admit(id)], admitted;
      } else {
        var rest;
        rest, t := UseLock(admitted, id);
        ReachesOn(s, [Admit(id)], admitted, rest, t);
        steps := [Admit(id)] + rest;
      }
    }
  }

  lemma {:induction false} FinishAll(s: System) returns (steps: seq<Step>, t: System)
    requires Running(s)
    ensures Reaches(s, steps, t) && Running(t) && Pending(t) == {}
    decreases |Pending(s)|
  {
    if Pending(s) == {} {
      return [], s;
    }
    var first, next;
    if s.lock.Some? {
      assert s.lock.value in Pending(s);
      first, next := EndActivity(s, s.lock.value);
    } else {
      assert (forall id :: id !in Pending(s)) ==> Pending(s) == {};
      var id :| id in Pending(s);
      first, next := FinishOne(s, id);
    }
    var rest;
    rest, t := FinishAll(next);
    ReachesOn(s, first, next, rest, t);
    steps := first + rest;
  }

  lemma Begin(s: System) returns (steps: seq<Step>, t: System)
    requires Inv(s) && s.result.None?
    ensures Reaches(s, steps, t) && Running(t)
  {
    if s.started {
      return [], s;
    }
    Once(s, StartCluster([]));
    StepKeeps(s, StartCluster([]));
    steps, t := [StartCluster([])], Apply(s, StartCluster([]));
  }

  /** From every reachable state in which the workflow has not returned, some continuation answers
      every handler and returns. */
  lemma CanReturn(before: seq<Step>, s: System) returns (steps: seq<Step>, t: System)
    requires Reaches(INITIAL, before, s) && s.result.None?
    ensures Reaches(s, steps, t) && t.result.Some?
    ensures forall id :: id in s.handlers ==> id in t.handlers && t.handlers[id].at.Over?
  {
    RunKeeps(INITIAL, before, s);
    var first, started := Begin(s);
    var second, quiet := FinishAll(started);
    Once(quiet, Shutdown);
    var down := Apply(quiet, Shutdown);
    forall id | id in down.handlers ensures down.handlers[id].at.Over? {
      assert id !in Pending(quiet);
    }
    Once(down, ReturnResult);
    t := Apply(down, ReturnResult);
    ReachesOn(s, first, started, second, quiet);
    ReachesOn(s, first + second, quiet, [Shutdown], down);
    ReachesOn(s, first + second + [Shutdown], down, [ReturnResult], t);
    steps := first + second + [Shutdown] + [ReturnResult];
    HandlersStay(s, steps, t);
  }

  lemma {:induction false} HandlersStay(s: System, steps: seq<Step>, t: System)
    requires Reaches(s, steps, t)
    ensures s.handlers.Keys <= t.handlers.Keys
    decreases |steps|
  {
    if steps != [] {
      HandlersStay(Apply(s, steps[0]), steps[1..], t);
    }
  }
}
