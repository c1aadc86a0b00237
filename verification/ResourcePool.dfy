/**
 The pool side of the lock protocol: `ResourcePoolWorkflow`.

 Each handler, and each stretch of the run loop between two awaits, is a function from pool
 value to pool value; the class below updates its fields in place and is proved to do exactly
 that. A Python dict is a map together with its insertion order, because `get_free_resource`
 takes the first free entry in that order.
 */
module ResourcePool {
  import opened Wrappers

  type WorkflowId = string
  type Resource = string
  type Key = string

  datatype Request = Request(workflowId: WorkflowId, releaseSignal: Option<Key>)

  /** Where the run loop stands: at its wait condition, inside `assign_resource` waiting for the
      signal to be acknowledged, or dead after an error other than "workflow not found". */
  datatype Phase = Idle | Awaiting(resource: Resource, request: Request, key: Key) | Failed

  datatype Pool = Pool(
    order: seq<Resource>,
    resources: map<Resource, Option<Request>>,
    waiters: seq<Request>,
    keys: map<Key, Resource>,
    phase: Phase)
  {
    predicate HasSignal(r: Resource, k: Key) {
      r in resources && resources[r].Some? && resources[r].value.releaseSignal == Some(k)
    }
  }

  /** The insertion order lists every entry of the dict once. */
  ghost predicate Ordered(order: seq<Resource>, resources: map<Resource, Option<Request>>) {
    && (forall i, j :: 0 <= i < j < |order| ==> order[i] != order[j])
    && (forall r :: r in order <==> r in resources)
  }

  /** `release_key_to_resource` is the inverse of the held part of `resources`. */
  ghost predicate TableInverse(p: Pool) {
    && (forall k :: k in p.keys ==> p.HasSignal(p.keys[k], k))
    && (forall r :: r in p.resources && p.resources[r].Some? ==>
          && p.resources[r].value.releaseSignal.Some?
          && p.resources[r].value.releaseSignal.value in p.keys
          && p.keys[p.resources[r].value.releaseSignal.value] == r)
  }

  // ----- The handlers as functions -----

  function RebuildKeys(order: seq<Resource>, resources: map<Resource, Option<Request>>): map<Key, Resource> {
    if order == [] then map[] else
      var m := RebuildKeys(order[..|order|-1], resources);
      var r := order[|order|-1];
      if r in resources && resources[r].Some? && resources[r].value.releaseSignal.Some?
      then m[resources[r].value.releaseSignal.value := r] else m
  }

  function Init(order: seq<Resource>, resources: map<Resource, Option<Request>>, waiters: seq<Request>): Pool {
    Pool(order, resources, waiters, RebuildKeys(order, resources), Idle)
  }

  function AddOne(p: Pool, r: Resource): Pool {
    if r in p.resources then p
    else p.(order := p.order + [r], resources := p.resources[r := None])
  }

  function AddAll(p: Pool, rs: seq<Resource>): Pool {
    if rs == [] then p else AddOne(AddAll(p, rs[..|rs|-1]), rs[|rs|-1])
  }

  function Acquire(p: Pool, w: WorkflowId): Pool {
    p.(waiters := p.waiters + [Request(w, None)])
  }

  function Release(p: Pool, k: Key): Pool {
    if k !in p.keys then p
    else if p.keys[k] !in p.resources || p.resources[p.keys[k]].None? then p
    else p.(resources := p.resources[p.keys[k] := None], keys := p.keys - {k})
  }

  function FirstFree(order: seq<Resource>, resources: map<Resource, Option<Request>>): (free: Option<Resource>)
    ensures free.Some? ==> free.value in order && free.value in resources && resources[free.value].None?
    ensures free.None? ==> forall r :: r in order && r in resources ==> resources[r].Some?
  {
    if order == [] then None
    else if order[0] in resources && resources[order[0]].None? then Some(order[0])
    else FirstFree(order[1..], resources)
  }

  lemma {:induction false} FirstFreeIsFirst(order: seq<Resource>, resources: map<Resource, Option<Request>>) returns (i: nat)
    requires FirstFree(order, resources).Some?
    ensures i < |order| && order[i] == FirstFree(order, resources).value
    ensures forall j :: 0 <= j < i ==> order[j] !in resources || resources[order[j]].Some?
  {
    if order[0] in resources && resources[order[0]].None? {
      return 0;
    }
    var k := FirstFreeIsFirst(order[1..], resources);
    forall j | 0 <= j < k + 1 ensures order[j] !in resources || resources[order[j]].Some? {
      if j > 0 {
        assert order[j] == order[1..][j - 1];
      }
    }
    return k + 1;
  }

  predicate CanAssign(p: Pool) {
    p.waiters != [] && FirstFree(p.order, p.resources).Some?
  }

  /** What one pass of the run loop comes to, from one wait to the next. */
  datatype LoopOutcome = Blocked | Signalled | ContinuedAsNew

  function LoopPass(p: Pool, suggested: bool, newKey: Key): (Pool, LoopOutcome) {
    if CanAssign(p) then
      (p.(waiters := p.waiters[1..],
          phase := Awaiting(FirstFree(p.order, p.resources).value, p.waiters[0], newKey)), Signalled)
    else if suggested then (Init(p.order, p.resources, p.waiters), ContinuedAsNew)
    else (p, Blocked)
  }

  /** How the awaited signal ends: delivered, no such workflow, or any other error. */
  datatype SignalResult = Acknowledged | NotFound | OtherError

  function Settle(p: Pool, outcome: SignalResult): Pool
    requires p.phase.Awaiting?
  {
    match outcome
    case Acknowledged =>
      p.(resources := p.resources[p.phase.resource := Some(p.phase.request.(releaseSignal := Some(p.phase.key)))],
         order := if p.phase.resource in p.resources then p.order else p.order + [p.phase.resource],
         keys := p.keys[p.phase.key := p.phase.resource],
         phase := Idle)
    case NotFound => p.(phase := Idle)
    case OtherError => p.(phase := Failed)
  }

  // ----- What the handlers keep -----

  lemma {:induction false} RebuildContents(order: seq<Resource>, resources: map<Resource, Option<Request>>)
    ensures forall k :: k in RebuildKeys(order, resources) ==>
      var r := RebuildKeys(order, resources)[k];
      r in order && r in resources && resources[r].Some? && resources[r].value.releaseSignal == Some(k)
    ensures forall r :: r in order && r in resources && resources[r].Some? && resources[r].value.releaseSignal.Some? ==>
      resources[r].value.releaseSignal.value in RebuildKeys(order, resources)
  {
    if order != [] {
      var init, last := order[..|order|-1], order[|order|-1];
      RebuildContents(init, resources);
      assert order == init + [last];
    }
  }

  /** A pool that continues as new finds its table again. */
  lemma RebuildReproduces(p: Pool)
    requires Ordered(p.order, p.resources) && TableInverse(p)
    ensures RebuildKeys(p.order, p.resources) == p.keys
  {
    RebuildContents(p.order, p.resources);
    var m := RebuildKeys(p.order, p.resources);
    forall k | k in p.keys ensures k in m && m[k] == p.keys[k] {
      assert p.HasSignal(p.keys[k], k);
    }
    forall k | k in m ensures k in p.keys {}
  }

  /** The table is empty exactly when nothing is held, and two resources never share a key. */
  lemma TableCounts(p: Pool)
    requires TableInverse(p)
    ensures p.keys == map[] <==> forall r :: r in p.resources ==> p.resources[r].None?
    ensures forall k, r, r' :: p.HasSignal(r, k) && p.HasSignal(r', k) ==> r == r'
  {
    if p.keys != map[] {
      var k :| k in p.keys;
      assert p.HasSignal(p.keys[k], k);
    }
  }

  /** The branch for a key whose resource is not held is never taken: a known key always frees
      the one resource recorded under it, and an unknown key changes nothing. */
  lemma ReleaseFrees(p: Pool, k: Key)
    requires Ordered(p.order, p.resources) && TableInverse(p)
    ensures var q := Release(p, k);
      && Ordered(q.order, q.resources) && TableInverse(q)
      && k !in q.keys
      && (k !in p.keys ==> q == p)
      && (k in p.keys ==> q.resources == p.resources[p.keys[k] := None] && q.resources != p.resources)
      && (forall r :: r in p.resources && !p.HasSignal(r, k) ==> q.resources[r] == p.resources[r])
  {
    if k in p.keys {
      assert p.HasSignal(p.keys[k], k);
      assert Release(p, k).resources[p.keys[k]].None?;
    }
  }

  lemma AddOneKeeps(p: Pool, r: Resource)
    requires Ordered(p.order, p.resources) && TableInverse(p)
    ensures var q := AddOne(p, r);
      && Ordered(q.order, q.resources) && TableInverse(q)
      && q.keys == p.keys && q.waiters == p.waiters && q.phase == p.phase
      && q.resources.Keys == p.resources.Keys + {r}
      && (forall x :: x in q.resources ==> q.resources[x] == if x in p.resources then p.resources[x] else None)
  {
    var q := AddOne(p, r);
    forall k | k in q.keys ensures q.HasSignal(q.keys[k], k) {
      assert p.HasSignal(p.keys[k], k);
    }
  }

  lemma {:induction false} AddKeeps(p: Pool, rs: seq<Resource>)
    requires Ordered(p.order, p.resources) && TableInverse(p)
    ensures var q := AddAll(p, rs);
      && Ordered(q.order, q.resources) && TableInverse(q)
      && q.keys == p.keys && q.waiters == p.waiters && q.phase == p.phase
      && q.resources.Keys == p.resources.Keys + (set r | r in rs)
      && (forall r :: r in q.resources ==> q.resources[r] == if r in p.resources then p.resources[r] else None)
  {
    if rs != [] {
      AddKeeps(p, rs[..|rs|-1]);
      AddOneKeeps(AddAll(p, rs[..|rs|-1]), rs[|rs|-1]);
      assert rs == rs[..|rs|-1] + [rs[|rs|-1]];
    }
  }

  lemma SettleKeeps(p: Pool, outcome: SignalResult)
    requires Ordered(p.order, p.resources) && TableInverse(p) && p.phase.Awaiting?
    requires p.phase.resource in p.resources && p.resources[p.phase.resource].None? && p.phase.key !in p.keys
    ensures var q := Settle(p, outcome);
      && Ordered(q.order, q.resources) && TableInverse(q) && q.order == p.order && q.waiters == p.waiters
      && (outcome.Acknowledged? ==> q.HasSignal(p.phase.resource, p.phase.key))
      && (forall r, k :: p.HasSignal(r, k) ==> q.HasSignal(r, k))
      && (outcome.Acknowledged? ==>
            q.resources[p.phase.resource].value.workflowId == p.phase.request.workflowId
            && forall r :: r in p.resources && r != p.phase.resource ==> q.resources[r] == p.resources[r])
      && (!outcome.Acknowledged? ==> q.resources == p.resources && q.keys == p.keys)
      && (if outcome.OtherError? then q.phase.Failed? else q.phase.Idle?)
  {
    var q := Settle(p, outcome);
    forall k | k in q.keys ensures q.HasSignal(q.keys[k], k) {
      if k in p.keys { assert p.HasSignal(p.keys[k], k); }
    }
  }

  /** Work conservation: the loop blocks, or continues as new, exactly when there is no waiter or
      no free resource; and when it serves, it serves the first waiter with a free resource. */
  lemma LoopConserves(p: Pool, suggested: bool, newKey: Key)
    requires Ordered(p.order, p.resources) && TableInverse(p) && p.phase.Idle?
    ensures var (q, outcome) := LoopPass(p, suggested, newKey);
      && Ordered(q.order, q.resources) && TableInverse(q)
      && q.resources == p.resources && q.order == p.order && q.keys == p.keys
      && (outcome != Signalled <==> p.waiters == [] || forall r :: r in p.resources ==> p.resources[r].Some?)
      && (outcome == Signalled ==>
            && p.waiters == [q.phase.request] + q.waiters
            && q.phase.key == newKey
            && q.phase.resource in p.resources && p.resources[q.phase.resource].None?)
      && (outcome != Signalled ==> q == p && (outcome == ContinuedAsNew <==> suggested))
  {
    RebuildReproduces(p);
    if !CanAssign(p) && p.waiters != [] {
      assert forall r :: r in p.resources ==> r in p.order;
    }
  }

  // ----- The workflow object -----

  class ResourcePoolWorkflow {
    var order: seq<Resource>
    var resources: map<Resource, Option<Request>>
    var waiters: seq<Request>
    var releaseKeyToResource: map<Key, Resource>
    var phase: Phase

    ghost function View(): Pool
      reads this
    {
      Pool(order, resources, waiters, releaseKeyToResource, phase)
    }

    constructor (order: seq<Resource>, resources: map<Resource, Option<Request>>, waiters: seq<Request>)
      ensures View() == Init(order, resources, waiters)
    {
      this.order, this.resources, this.waiters := order, resources, waiters;
      phase := Idle;
      releaseKeyToResource := map[];
      new;
      for i := 0 to |order|
        invariant this.order == order && this.resources == resources && this.waiters == waiters && phase == Idle
        invariant releaseKeyToResource == RebuildKeys(order[..i], resources)
      {
        assert order[..i+1][..i] == order[..i];
        var r := order[i];
        if r in resources && resources[r].Some? && resources[r].value.releaseSignal.Some? {
          releaseKeyToResource := releaseKeyToResource[resources[r].value.releaseSignal.value := r];
        }
      }
      assert order[..|order|] == order;
    }

    method AddResources(rs: seq<Resource>)
      modifies this
      ensures View() == AddAll(old(View()), rs)
    {
      for i := 0 to |rs|
        invariant View() == AddAll(old(View()), rs[..i])
      {
        assert rs[..i+1][..i] == rs[..i];
        if rs[i] !in resources {
          order, resources := order + [rs[i]], resources[rs[i] := None];
        }
      }
      assert rs[..|rs|] == rs;
    }

    method AcquireResource(workflowId: WorkflowId)
      modifies this
      ensures View() == Acquire(old(View()), workflowId)
    {
      waiters := waiters + [Request(workflowId, None)];
    }

    method ReleaseResource(releaseKey: Key)
      modifies this
      ensures View() == Release(old(View()), releaseKey)
    {
      if releaseKey !in releaseKeyToResource {
        return;
      }
      var resource := releaseKeyToResource[releaseKey];
      if resource !in resources || resources[resource].None? {
        return;
      }
      resources := resources[resource := None];
      releaseKeyToResource := releaseKeyToResource - {releaseKey};
    }

    method GetFreeResource() returns (free: Option<Resource>)
      ensures free == FirstFree(order, resources)
    {
      var i := 0;
      while i < |order|
        invariant 0 <= i <= |order|
        invariant FirstFree(order, resources) == FirstFree(order[i..], resources)
      {
        if order[i] in resources && resources[order[i]].None? {
          return Some(order[i]);
        }
        assert order[i..][1..] == order[i+1..];
        i := i + 1;
      }
      return None;
    }

    /** `assign_next_resource` up to its await: the signal has been sent. */
    method AssignNextResource(newKey: Key) returns (served: bool)
      modifies this
      ensures served <==> CanAssign(old(View()))
      ensures served ==> View() == LoopPass(old(View()), false, newKey).0
      ensures !served ==> View() == old(View())
    {
      if |waiters| == 0 {
        return false;
      }
      var free := GetFreeResource();
      if free.None? {
        return false;
      }
      var next := waiters[0];
      waiters := waiters[1..];
      phase := Awaiting(free.value, next, newKey);
      return true;
    }

    /** One pass of the loop in `run`; continuing as new starts a run on the same contents. */
    method RunPass(suggested: bool, newKey: Key) returns (outcome: LoopOutcome)
      modifies this
      ensures (View(), outcome) == LoopPass(old(View()), suggested, newKey)
    {
      var served := AssignNextResource(newKey);
      if served {
        return Signalled;
      }
      if suggested {
        var next := new ResourcePoolWorkflow(order, resources, waiters);
        releaseKeyToResource, phase := next.releaseKeyToResource, next.phase;
        return ContinuedAsNew;
      }
      return Blocked;
    }

    /** `assign_resource` from its await on. */
    method SignalSettled(outcome: SignalResult)
      requires phase.Awaiting?
      modifies this
      ensures View() == Settle(old(View()), outcome)
    {
      match outcome
      case Acknowledged =>
        var request := phase.request.(releaseSignal := Some(phase.key));
        if phase.resource !in resources {
          order := order + [phase.resource];
        }
        resources := resources[phase.resource := Some(request)];
        releaseKeyToResource := releaseKeyToResource[phase.key := phase.resource];
        phase := Idle;
      case NotFound =>
        phase := Idle;
      case OtherError =>
        phase := Failed;
    }
  }
}
