/**
 Who a grant is for. Every request comes from a user that asked, a grant is recorded and received
 under the workflow id that requested it, and whoever holds one can still hand it back.
 */
module ResourcePoolRequests {
  import opened Wrappers
  import opened ResourcePool
  import opened ResourceUser
  import opened ResourcePoolSystem
  import opened ResourcePoolProgress

  // ----- No request is lost, none is invented -----

  /** The workflow ids of the runs that begin along these steps without a grant of their own. */
  function Asked(s: System, steps: seq<Step>): multiset<WorkflowId>
    decreases |steps|
  {
    if steps == [] || !Enabled(s, steps[0]) then multiset{}
    else
      var rest := Asked(Apply(s, steps[0]), steps[1..]);
      match steps[0]
      case BeginUser(w) => if UserOf(s, w).phase.input.acquired.None? then rest + multiset{w} else rest
      case _ => rest
  }

  function Ids(requests: seq<Request>): multiset<WorkflowId> {
    if requests == [] then multiset{}
    else Ids(requests[..|requests| - 1]) + multiset{requests[|requests| - 1].workflowId}
  }

  lemma IdsGrow(requests: seq<Request>, r: Request)
    ensures Ids(requests + [r]) == Ids(requests) + multiset{r.workflowId}
  {
    assert (requests + [r])[..|requests|] == requests;
  }

  lemma StepAsks(s: System, step: Step)
    requires Enabled(s, step)
    ensures var t := Apply(s, step);
      Ids(t.received) + t.acquires == Ids(s.received) + s.acquires + Asked(s, [step])
  {
    var t := Apply(s, step);
    AskedOnce(s, step);
    match step
    case BeginUser(w) =>
    case AcquireArrives(w) => ArrivalMoves(s, w);
    case _ => OthersAskNothing(s, step);
  }

  lemma AskedOnce(s: System, step: Step)
    requires Enabled(s, step)
    ensures Asked(s, [step]) ==
      if step.BeginUser? && UserOf(s, step.w).phase.input.acquired.None? then multiset{step.w} else multiset{}
  {
    assert [step][1..] == [] && Asked(Apply(s, step), []) == multiset{};
  }

  lemma ArrivalMoves(s: System, w: WorkflowId)
    requires Enabled(s, AcquireArrives(w))
    ensures var t := Apply(s, AcquireArrives(w)); Ids(t.received) + t.acquires == Ids(s.received) + s.acquires
  {
    IdsGrow(s.received, Request(w, None));
    assert multiset{w} + (s.acquires - multiset{w}) == s.acquires;
  }

  lemma OthersAskNothing(s: System, step: Step)
    requires Enabled(s, step) && !step.BeginUser? && !step.AcquireArrives?
    ensures Apply(s, step).received == s.received && Apply(s, step).acquires == s.acquires
  {}

  /** Requests received and requests on their way are those of the runs that began without a grant,
      each once, under the id of its workflow. */
  lemma {:induction false} RequestsConserved(s: System, steps: seq<Step>, t: System)
    requires Reaches(s, steps, t)
    ensures Ids(t.received) + t.acquires == Ids(s.received) + s.acquires + Asked(s, steps)
    decreases |steps|
  {
    if steps != [] {
      var next := Apply(s, steps[0]);
      StepAsks(s, steps[0]);
      RequestsConserved(next, steps[1..], t);
      assert [steps[0]][1..] == [] && Asked(next, []) == multiset{};
      assert Asked(s, steps) == Asked(s, [steps[0]]) + Asked(next, steps[1..]);
    }
  }

  // ----- A grant is with the one who requested it -----

  predicate Concerns(p: Place, w: WorkflowId) {
    match p
    case OnTheWire => false
    case Queued(v, _) => v == w
    case OwnedBy(v) => v == w
  }

  /** The pool has the grant down for this workflow id, recorded or about to be. */
  predicate DownFor(pool: Pool, g: Grant, w: WorkflowId) {
    || (pool.HasSignal(g.resource, g.key) && pool.resources[g.resource].value.workflowId == w)
    || (Awaits(pool, g) && pool.phase.request.workflowId == w)
  }

  ghost predicate WithRequester(s: System) {
    forall p, w :: Concerns(p, w) && GrantAt(s, p).Some? ==> DownFor(s.pool, GrantAt(s, p).value, w)
  }

  /** Grants that stay with their workflow id while the pool stands still. */
  lemma UserStepKeepsRequester(s: System, step: Step)
    requires WithRequester(s) && Enabled(s, step)
    requires step.OpenUser? || step.BeginUser? || step.TakeGrant? || step.TimeOut? || step.ActivityDone? || step.CloseUser?
    ensures WithRequester(Apply(s, step))
  {
    var t := Apply(s, step);
    forall p, w | Concerns(p, w) && GrantAt(t, p).Some? ensures DownFor(t.pool, GrantAt(t, p).value, w) {
      if step.ActivityDone? {
        OwnershipHandedOn(UserOf(s, step.w), step.succeeded);
      }
      if step.TakeGrant? && w == step.w {
        var from := if p.OwnedBy? then Queued(w, 0) else Queued(w, p.i + 1);
        assert GrantAt(t, p) == GrantAt(s, from) && Concerns(from, w);
      } else {
        assert GrantAt(t, p) == GrantAt(s, p);
      }
    }
  }

  lemma PoolKeepsRequester(s: System, t: System)
    requires WithRequester(s)
    requires forall p :: p != OnTheWire ==> GrantAt(t, p) == GrantAt(s, p)
    requires forall p, w :: Concerns(p, w) && GrantAt(s, p).Some? && DownFor(s.pool, GrantAt(s, p).value, w) ==>
      DownFor(t.pool, GrantAt(s, p).value, w)
    ensures WithRequester(t)
  {
    forall p, w | Concerns(p, w) && GrantAt(t, p).Some? ensures DownFor(t.pool, GrantAt(t, p).value, w) {
      assert GrantAt(t, p) == GrantAt(s, p);
    }
  }

  lemma ReleaseKeepsRequester(s: System, step: Step)
    requires Inv(s) && WithRequester(s) && Enabled(s, step) && (step.ReleaseArrives? || step.DuplicateRelease?)
    ensures WithRequester(Apply(s, step))
  {
    ReleaseFrees(s.pool, step.k);
    PoolKeepsRequester(s, Apply(s, step));
  }

  lemma ArrivalKeepsRequester(s: System, step: Step)
    requires Inv(s) && WithRequester(s) && Enabled(s, step)
    requires step.AcquireArrives? || step.ResourcesArrive? || step.PoolPass?
    ensures WithRequester(Apply(s, step))
  {
    if step.ResourcesArrive? {
      AddKeeps(s.pool, step.rs);
    } else if step.PoolPass? {
      LoopConserves(s.pool, step.suggested, step.newKey);
    }
    PoolKeepsRequester(s, Apply(s, step));
  }

  lemma SignalArrivesKeepsRequester(s: System)
    requires Inv(s) && WithRequester(s) && Enabled(s, SignalArrives)
    ensures WithRequester(Apply(s, SignalArrives))
  {
    var t := Apply(s, SignalArrives);
    var v := s.pool.phase.request.workflowId;
    var last := Queued(v, |UserOf(s, v).queue|);
    forall p, w | Concerns(p, w) && GrantAt(t, p).Some? ensures DownFor(t.pool, GrantAt(t, p).value, w) {
      if p != last {
        assert GrantAt(t, p) == GrantAt(s, p);
      }
    }
  }

  lemma SettleKeepsRequester(s: System, step: Step)
    requires Inv(s) && WithRequester(s) && Enabled(s, step) && (step.SignalSettles? || step.SignalBreaks?)
    ensures WithRequester(Apply(s, step))
  {
    var outcome := if step.SignalBreaks? then OtherError else if s.delivery.Delivered? then Acknowledged else NotFound;
    SettleKeeps(s.pool, outcome);
    forall p | GrantAt(s, p).Some? && p != OnTheWire && !s.delivery.Delivered?
      ensures GrantAt(s, p).value.key != s.pool.phase.key
    {
      if s.delivery.InTransit? {
        assert GrantAt(s, OnTheWire).Some?;
      } else {
        assert Live(s, GrantAt(s, p).value.key);
      }
    }
    PoolKeepsRequester(s, Apply(s, step));
  }

  lemma StepKeepsRequester(s: System, step: Step)
    requires Inv(s) && WithRequester(s) && Enabled(s, step)
    ensures WithRequester(Apply(s, step))
  {
    match step
    case AcquireArrives(_) => ArrivalKeepsRequester(s, step);
    case ResourcesArrive(_) => ArrivalKeepsRequester(s, step);
    case PoolPass(_, _) => ArrivalKeepsRequester(s, step);
    case ReleaseArrives(_) => ReleaseKeepsRequester(s, step);
    case DuplicateRelease(_) => ReleaseKeepsRequester(s, step);
    case SignalArrives => SignalArrivesKeepsRequester(s);
    case SignalSettles => SettleKeepsRequester(s, step);
    case SignalBreaks => SettleKeepsRequester(s, step);
    case _ => UserStepKeepsRequester(s, step);
  }

  lemma {:induction false} RunKeepsRequester(s: System, steps: seq<Step>, t: System)
    requires Inv(s) && WithRequester(s) && Reaches(s, steps, t)
    ensures Inv(t) && WithRequester(t)
    decreases |steps|
  {
    if steps != [] {
      StepKeeps(s, steps[0]);
      StepKeepsRequester(s, steps[0]);
      RunKeepsRequester(Apply(s, steps[0]), steps[1..], t);
    }
  }

  /** Over every run, each grant that a workflow has queued, uses or carries to its next run is one
      that the pool records, or is recording, for that very workflow id. */
  lemma GrantsReachRequesters(s: System, steps: seq<Step>, t: System)
    requires Initial(s) && Reaches(s, steps, t)
    ensures WithRequester(t)
  {
    InitialInv(s);
    RunKeepsRequester(s, steps, t);
  }

  // ----- Whoever holds a grant can hand it back -----

  /** The grant a workflow owns, or is about to take. */
  function Held(u: User): Option<Grant> {
    if u.phase.Waiting? && u.queue != [] then Some(u.queue[0]) else u.Owned()
  }

  /** The workflow gets to the block and its activity fails. */
  lemma LeaveBlock(s: System, w: WorkflowId) returns (steps: seq<Step>, t: System)
    requires Inv(s) && Held(UserOf(s, w)).Some?
    ensures Reaches(s, steps, t) && Inv(t) && t.pool == s.pool
    ensures UserOf(t, w).phase.Releasing? && Held(UserOf(s, w)).value.key in t.releases
  {
    var u := UserOf(s, w);
    var first, ready;
    if u.phase.Using? {
      first, ready := [], s;
    } else {
      var step := if u.phase.Starting? then BeginUser(w) else TakeGrant(w);
      Once(s, step);
      StepKeeps(s, step);
      first, ready := [step], Apply(s, step);
    }
    assert UserOf(ready, w).phase.Using? && UserOf(ready, w).phase.held == Held(u).value;
    var fail := ActivityDone(w, false);
    Once(ready, fail);
    StepKeeps(ready, fail);
    t := Apply(ready, fail);
    ReachesOn(s, first, ready, [fail], t);
    steps := first + [fail];
  }

  lemma HandBackIdle(s: System, w: WorkflowId) returns (steps: seq<Step>, t: System)
    requires Inv(s) && s.pool.phase.Idle? && Held(UserOf(s, w)).Some?
    ensures Reaches(s, steps, t) && UserOf(t, w).phase.Closed?
    ensures var g := Held(UserOf(s, w)).value;
      g.key !in t.pool.keys && g.resource in t.pool.resources && t.pool.resources[g.resource].None?
  {
    var g := Held(UserOf(s, w)).value;
    var place := if UserOf(s, w).phase.Waiting? then Queued(w, 0) else OwnedBy(w);
    assert GrantAt(s, place) == Some(g);
    assert s.pool.HasSignal(g.resource, g.key);
    var first, left := LeaveBlock(s, w);
    var arrive := ReleaseArrives(g.key);
    Once(left, arrive);
    ReleaseFrees(left.pool, g.key);
    var freed := Apply(left, arrive);
    Once(freed, CloseUser(w));
    t := Apply(freed, CloseUser(w));
    ReachesOn(s, first, left, [arrive], freed);
    ReachesOn(s, first + [arrive], freed, [CloseUser(w)], t);
    steps := first + [arrive] + [CloseUser(w)];
  }

  /** From every reachable state in which the pool has not failed, a workflow that owns a grant, or has
      one waiting for it, can come to its end with the resource free again. */
  lemma CanHandBack(start: System, steps: seq<Step>, s: System, w: WorkflowId) returns (more: seq<Step>, t: System)
    requires Initial(start) && Reaches(start, steps, s) && !s.pool.phase.Failed? && Held(UserOf(s, w)).Some?
    ensures Reaches(s, more, t) && UserOf(t, w).phase.Closed?
    ensures var g := Held(UserOf(s, w)).value;
      g.key !in t.pool.keys && g.resource in t.pool.resources && t.pool.resources[g.resource].None?
  {
    InitialInv(start);
    RunKeeps(start, steps, s);
    if s.pool.phase.Idle? {
      more, t := HandBackIdle(s, w);
    } else {
      var first, idle := SettleSignal(s);
      assert Held(UserOf(idle, w)) == Held(UserOf(s, w));
      var rest;
      rest, t := HandBackIdle(idle, w);
      ReachesOn(s, first, idle, rest, t);
      more := first + rest;
    }
  }
}
