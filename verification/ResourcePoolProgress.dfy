/**
 The pool is never stuck: unless a signal failed for good, every request that is waiting can still
 be served, if need be with one more resource.
 */
module ResourcePoolProgress {
  import opened Wrappers
  import opened ResourcePool
  import opened ResourceUser
  import opened ResourcePoolSystem

  lemma {:induction false} LongerThanAll(names: set<string>) returns (bound: nat)
    ensures forall n :: n in names ==> |n| < bound
  {
    if names == {} {
      return 0;
    }
    assert (forall n :: n !in names) ==> names == {};
    var n :| n in names;
    var rest := LongerThanAll(names - {n});
    bound := if |n| < rest then rest else |n| + 1;
    assert names == (names - {n}) + {n};
  }

  lemma FreshName(names: set<string>) returns (name: string)
    ensures name !in names
  {
    var bound := LongerThanAll(names);
    name := seq(bound, _ => '-');
  }

  /** A signal on its way can arrive, or be refused, and be acknowledged or settled as such. */
  lemma SettleSignal(s: System) returns (steps: seq<Step>, t: System)
    requires Inv(s) && s.pool.phase.Awaiting?
    ensures Reaches(s, steps, t) && Inv(t) && t.pool.phase.Idle? && t.pool.waiters == s.pool.waiters
    ensures t.received == s.received
    ensures forall w :: UserOf(t, w).phase == UserOf(s, w).phase && UserOf(s, w).queue <= UserOf(t, w).queue
  {
    if s.delivery.InTransit? {
      var arrived := Apply(s, SignalArrives);
      StepKeeps(s, SignalArrives);
      Once(s, SignalArrives);
      StepKeeps(arrived, SignalSettles);
      Once(arrived, SignalSettles);
      t := Apply(arrived, SignalSettles);
      ReachesOn(s, [SignalArrives], arrived, [SignalSettles], t);
      steps := [SignalArrives] + [SignalSettles];
    } else {
      StepKeeps(s, SignalSettles);
      Once(s, SignalSettles);
      steps, t := [SignalSettles], Apply(s, SignalSettles);
    }
  }

  /** A free resource, there already or added. */
  lemma MakeRoom(s: System) returns (steps: seq<Step>, t: System)
    requires Inv(s) && s.pool.phase.Idle? && s.pool.waiters != []
    ensures Reaches(s, steps, t) && Inv(t) && CanAssign(t.pool) && t.pool.phase.Idle?
    ensures t.pool.waiters == s.pool.waiters && t.received == s.received && t.issued == s.issued
  {
    if CanAssign(s.pool) {
      return [], s;
    }
    var r := FreshName(s.pool.resources.Keys);
    var step := ResourcesArrive([r]);
    StepKeeps(s, step);
    Once(s, step);
    AddKeeps(s.pool, [r]);
    steps, t := [step], Apply(s, step);
    assert r in t.pool.resources && t.pool.resources[r].None? && r in t.pool.order;
  }

  lemma ServeNext(s: System) returns (steps: seq<Step>, t: System)
    requires Inv(s) && s.pool.phase.Idle? && s.pool.waiters != []
    ensures Reaches(s, steps, t) && Inv(t) && t.pool.phase.Idle?
    ensures t.pool.waiters == s.pool.waiters[1..] && t.received == s.received
  {
    var first, ready := MakeRoom(s);
    var key := FreshName(ready.issued);
    var pass := PoolPass(false, key);
    StepKeeps(ready, pass);
    Once(ready, pass);
    var sent := Apply(ready, pass);
    var rest;
    rest, t := SettleSignal(sent);
    ReachesOn(s, first, ready, [pass], sent);
    ReachesOn(s, first + [pass], sent, rest, t);
    steps := first + [pass] + rest;
  }

  lemma {:induction false} ServeIdle(s: System) returns (steps: seq<Step>, t: System)
    requires Inv(s) && s.pool.phase.Idle?
    ensures Reaches(s, steps, t) && Inv(t) && t.pool.phase.Idle? && t.pool.waiters == [] && t.received == s.received
    decreases |s.pool.waiters|
  {
    if s.pool.waiters == [] {
      return [], s;
    }
    var first, served := ServeNext(s);
    var rest;
    rest, t := ServeIdle(served);
    ReachesOn(s, first, served, rest, t);
    steps := first + rest;
  }

  /** From every reachable state in which the pool has not failed, some continuation pops every
      request received so far, in order, and leaves the pool at its wait. */
  lemma AllServed(start: System, steps: seq<Step>, s: System) returns (more: seq<Step>, t: System)
    requires Initial(start) && Reaches(start, steps, s) && !s.pool.phase.Failed?
    ensures Reaches(s, more, t) && t.pool.phase.Idle?
    ensures t.pool.waiters == [] && t.served == t.received == s.received
  {
    InitialInv(start);
    RunKeeps(start, steps, s);
    if s.pool.phase.Idle? {
      more, t := ServeIdle(s);
    } else {
      var first, idle := SettleSignal(s);
      var rest;
      rest, t := ServeIdle(idle);
      ReachesOn(s, first, idle, rest, t);
      more := first + rest;
    }
  }
}
