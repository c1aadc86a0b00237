/**
 The whole lock protocol: one pool workflow, any number of user workflow ids, and the signals
 between them. A step is one atomic stretch of code or one delivery; a run is a list of steps, so
 a theorem about `Reaches` speaks about every interleaving.
 */
module ResourcePoolSystem {
  import opened Wrappers
  import opened ResourcePool
  import opened ResourceUser

  /** The assignment signal that the pool is awaiting: still travelling, handled by the user's
      run, or refused because the workflow id has no open run. */
  datatype Delivery = NoSignal | InTransit | Delivered | Undeliverable

  datatype System = System(
    pool: Pool,
    delivery: Delivery,
    users: map<WorkflowId, User>,
    acquires: multiset<WorkflowId>,   // acquire signals travelling to the pool
    releases: multiset<Key>,          // release signals travelling to the pool
    released: set<Key>,               // history: every key a release signal was sent for
    issued: set<Key>,                 // history: every key the pool has drawn
    received: seq<Request>,           // history: acquire requests in the order they arrived
    served: seq<Request>)             // history: requests in the order they were popped

  datatype Step =
    | OpenUser(w: WorkflowId, input: UserInput)
    | BeginUser(w: WorkflowId)
    | TakeGrant(w: WorkflowId)
    | TimeOut(w: WorkflowId)
    | ActivityDone(w: WorkflowId, succeeded: bool)
    | CloseUser(w: WorkflowId)
    | AcquireArrives(w: WorkflowId)
    | ReleaseArrives(k: Key)
    | DuplicateRelease(k: Key)
    | ResourcesArrive(rs: seq<Resource>)
    | PoolPass(suggested: bool, newKey: Key)
    | SignalArrives
    | SignalSettles
    | SignalBreaks

  function UserOf(s: System, w: WorkflowId): User {
    if w in s.users then s.users[w] else User(Closed, [])
  }

  predicate Enabled(s: System, step: Step) {
    match step
    case OpenUser(w, input) => UserOf(s, w).phase.Closed? && input.acquired.None?
    case BeginUser(w) => UserOf(s, w).phase.Starting?
    case TakeGrant(w) => UserOf(s, w).phase.Waiting? && UserOf(s, w).queue != []
    case TimeOut(w) => UserOf(s, w).phase.Waiting? && UserOf(s, w).queue == []
    case ActivityDone(w, _) => UserOf(s, w).phase.Using?
    case CloseUser(w) => UserOf(s, w).phase.Releasing?
    case AcquireArrives(w) => w in s.acquires && !s.pool.phase.Failed?
    case ReleaseArrives(k) => k in s.releases && !s.pool.phase.Failed?
    case DuplicateRelease(k) => k in s.released && !s.pool.phase.Failed?
    case ResourcesArrive(_) => !s.pool.phase.Failed?
    case PoolPass(_, newKey) => s.pool.phase.Idle? && newKey !in s.issued
    case SignalArrives => s.pool.phase.Awaiting? && s.delivery.InTransit?
    case SignalSettles => s.pool.phase.Awaiting? && (s.delivery.Delivered? || s.delivery.Undeliverable?)
    case SignalBreaks => s.pool.phase.Awaiting? && s.delivery.InTransit?
  }

  function Apply(s: System, step: Step): System
    requires Enabled(s, step)
  {
    match step
    case OpenUser(w, input) => s.(users := s.users[w := User(Starting(input), [])])
    case BeginUser(w) =>
      var (u, asks) := Begin(UserOf(s, w));
      s.(users := s.users[w := u], acquires := if asks then s.acquires + multiset{w} else s.acquires)
    case TakeGrant(w) => s.(users := s.users[w := Take(UserOf(s, w))])
    case TimeOut(w) => s.(users := s.users[w := User(Closed, [])])
    case ActivityDone(w, succeeded) =>
      var (u, release) := ActivityEnds(UserOf(s, w), succeeded);
      var t := s.(users := s.users[w := u]);
      if release.None? then t
      else t.(releases := s.releases + multiset{release.value.key}, released := s.released + {release.value.key})
    case CloseUser(w) => s.(users := s.users[w := User(Closed, [])])
    case AcquireArrives(w) =>
      s.(pool := Acquire(s.pool, w), acquires := s.acquires - multiset{w},
         received := s.received + [Request(w, None)])
    case ReleaseArrives(k) => s.(pool := Release(s.pool, k), releases := s.releases - multiset{k})
    case DuplicateRelease(k) => s.(pool := Release(s.pool, k))
    case ResourcesArrive(rs) => s.(pool := AddAll(s.pool, rs))
    case PoolPass(suggested, newKey) =>
      var (pool, outcome) := LoopPass(s.pool, suggested, newKey);
      if outcome == Signalled then
        s.(pool := pool, delivery := InTransit, issued := s.issued + {newKey},
           served := s.served + [pool.phase.request])
      else s.(pool := pool)
    case SignalArrives =>
      var w := s.pool.phase.request.workflowId;
      if UserOf(s, w).phase.Closed? then s.(delivery := Undeliverable)
      else s.(delivery := Delivered,
              users := s.users[w := Receive(UserOf(s, w), Grant(s.pool.phase.resource, s.pool.phase.key))])
    case SignalSettles =>
      s.(pool := Settle(s.pool, if s.delivery.Delivered? then Acknowledged else NotFound), delivery := NoSignal)
    case SignalBreaks => s.(pool := Settle(s.pool, OtherError), delivery := NoSignal)
  }

  predicate Reaches(s: System, steps: seq<Step>, t: System)
    decreases |steps|
  {
    if steps == [] then s == t
    else Enabled(s, steps[0]) && Reaches(Apply(s, steps[0]), steps[1..], t)
  }

  lemma {:induction false} ReachesOn(s: System, first: seq<Step>, t: System, second: seq<Step>, u: System)
    requires Reaches(s, first, t) && Reaches(t, second, u)
    ensures Reaches(s, first + second, u)
    decreases |first|
  {
    if first == [] {
      assert first + second == second;
    } else {
      assert (first + second)[1..] == first[1..] + second;
      ReachesOn(Apply(s, first[0]), first[1..], t, second, u);
    }
  }

  lemma Once(s: System, step: Step)
    requires Enabled(s, step)
    ensures Reaches(s, [step], Apply(s, step))
  {
    assert [step][1..] == [];
  }

  /** The pool as it is started: every resource free, some requests perhaps already waiting. */
  ghost predicate Initial(s: System) {
    && Ordered(s.pool.order, s.pool.resources)
    && (forall r :: r in s.pool.resources ==> s.pool.resources[r].None?)
    && s.pool == Init(s.pool.order, s.pool.resources, s.pool.waiters)
    && s == System(s.pool, NoSignal, map[], multiset{}, multiset{}, {}, {}, s.pool.waiters, [])
  }

  // ----- Live grants -----

  /** Where a live grant can be. */
  datatype Place = OnTheWire | Queued(w: WorkflowId, i: nat) | OwnedBy(w: WorkflowId)

  function GrantAt(s: System, p: Place): Option<Grant> {
    match p
    case OnTheWire =>
      if s.pool.phase.Awaiting? && s.delivery.InTransit?
      then Some(Grant(s.pool.phase.resource, s.pool.phase.key)) else None
    case Queued(w, i) => if i < |UserOf(s, w).queue| then Some(UserOf(s, w).queue[i]) else None
    case OwnedBy(w) => UserOf(s, w).Owned()
  }

  ghost predicate Live(s: System, k: Key) {
    exists p :: GrantAt(s, p).Some? && GrantAt(s, p).value.key == k
  }

  predicate Awaits(pool: Pool, g: Grant) {
    pool.phase.Awaiting? && pool.phase.resource == g.resource && pool.phase.key == g.key
  }

  ghost predicate MutualExclusion(s: System) {
    forall p, q :: (GrantAt(s, p).Some? && GrantAt(s, q).Some?
                    && GrantAt(s, p).value.resource == GrantAt(s, q).value.resource) ==> p == q
  }

  /** Whatever is granted, the pool knows: recorded under the same key, or being acknowledged. */
  ghost predicate Backed(s: System) {
    forall p :: GrantAt(s, p).Some? ==>
      var g := GrantAt(s, p).value;
      s.pool.HasSignal(g.resource, g.key) || Awaits(s.pool, g)
  }

  ghost predicate DistinctKeys(s: System) {
    forall p, q :: (GrantAt(s, p).Some? && GrantAt(s, q).Some?
                    && GrantAt(s, p).value.key == GrantAt(s, q).value.key) ==> p == q
  }

  /** Keys are drawn once: a key in the table, on a live grant or in a release was issued, and a
      released key is on no live grant. */
  ghost predicate KeysAccounted(s: System) {
    && (forall k :: k in s.pool.keys ==> k in s.issued)
    && (forall k :: k in s.releases ==> k in s.released)
    && s.released <= s.issued
    && (forall p :: GrantAt(s, p).Some? ==>
          GrantAt(s, p).value.key in s.issued && GrantAt(s, p).value.key !in s.released)
  }

  ghost predicate AwaitSound(s: System) {
    && (s.pool.phase.Awaiting? <==> !s.delivery.NoSignal?)
    && (s.pool.phase.Awaiting? ==>
          && s.pool.phase.resource in s.pool.resources && s.pool.resources[s.pool.phase.resource].None?
          && s.pool.phase.key !in s.pool.keys
          && s.pool.phase.key in s.issued
          && (s.delivery.Undeliverable? ==> !Live(s, s.pool.phase.key))
          && (!s.delivery.Delivered? ==> s.pool.phase.key !in s.released))
  }

  ghost predicate ClosedEmpty(s: System) {
    forall w :: w in s.users && s.users[w].phase.Closed? ==> s.users[w].queue == []
  }

  /** First come, first served, over all the runs of the pool. */
  ghost predicate Fifo(s: System) {
    s.received == s.served + s.pool.waiters
  }

  ghost predicate Inv(s: System) {
    && Ordered(s.pool.order, s.pool.resources)
    && TableInverse(s.pool)
    && Backed(s)
    && DistinctKeys(s)
    && KeysAccounted(s)
    && AwaitSound(s)
    && ClosedEmpty(s)
    && Fifo(s)
  }

  lemma InitialInv(s: System)
    requires Initial(s)
    ensures Inv(s)
  {
    RebuildContents(s.pool.order, s.pool.resources);
    assert forall k :: k in s.pool.keys ==> s.pool.HasSignal(s.pool.keys[k], k);
  }

  lemma InvExcludes(s: System)
    requires Inv(s)
    ensures MutualExclusion(s)
  {
    forall p, q | GrantAt(s, p).Some? && GrantAt(s, q).Some?
      && GrantAt(s, p).value.resource == GrantAt(s, q).value.resource
      ensures p == q
    {
      var g, h := GrantAt(s, p).value, GrantAt(s, q).value;
      assert s.pool.HasSignal(g.resource, g.key) || Awaits(s.pool, g);
      assert s.pool.HasSignal(h.resource, h.key) || Awaits(s.pool, h);
      assert g.key == h.key;
    }
  }

  // ----- Every step keeps the invariant -----

  /** A step that moves grants between places, the pool untouched: `from` names where each grant
      was before. */
  lemma MovedGrants(s: System, t: System, from: Place -> Place)
    requires Inv(s)
    requires t.pool == s.pool && t.delivery == s.delivery && t.issued == s.issued
    requires t.received == s.received && t.served == s.served
    requires ClosedEmpty(t)
    requires forall p :: GrantAt(t, p).Some? ==> GrantAt(t, p) == GrantAt(s, from(p))
    requires forall p, q :: GrantAt(t, p).Some? && GrantAt(t, q).Some? && from(p) == from(q) ==> p == q
    requires forall k :: k in t.releases ==> k in t.released
    requires forall k :: k in t.released ==> k in s.released || (!Live(t, k) && Live(s, k))
    requires s.pool.phase.Awaiting? && !s.delivery.Delivered? ==> s.pool.phase.key in t.released ==> s.pool.phase.key in s.released
    ensures Inv(t)
  {
    forall p, q | GrantAt(t, p).Some? && GrantAt(t, q).Some? && GrantAt(t, p).value.key == GrantAt(t, q).value.key
      ensures p == q
    {
      assert GrantAt(s, from(p)).Some? && GrantAt(s, from(q)).Some?;
      assert from(p) == from(q);
    }
    forall p | GrantAt(t, p).Some?
      ensures GrantAt(t, p).value.key in t.issued && GrantAt(t, p).value.key !in t.released
    {
      assert GrantAt(s, from(p)).Some?;
      assert Live(t, GrantAt(t, p).value.key);
    }
    forall p | GrantAt(t, p).Some?
      ensures t.pool.HasSignal(GrantAt(t, p).value.resource, GrantAt(t, p).value.key) || Awaits(t.pool, GrantAt(t, p).value)
    {
      assert GrantAt(s, from(p)).Some?;
    }
  }

  lemma TakeGrantKeeps(s: System, w: WorkflowId)
    requires Inv(s) && Enabled(s, TakeGrant(w))
    ensures Inv(Apply(s, TakeGrant(w)))
  {
    MovedGrants(s, Apply(s, TakeGrant(w)), (p: Place) =>
      match p
      case Queued(v, i) => if v == w then Queued(v, i + 1) else p
      case OwnedBy(v) => if v == w then Queued(v, 0) else p
      case OnTheWire => p);
  }

  lemma ActivityDoneKeeps(s: System, w: WorkflowId, succeeded: bool)
    requires Inv(s) && Enabled(s, ActivityDone(w, succeeded))
    ensures Inv(Apply(s, ActivityDone(w, succeeded)))
  {
    var t := Apply(s, ActivityDone(w, succeeded));
    var release := ActivityEnds(UserOf(s, w), succeeded).1;
    OnlyOwnerReleases(s, w, succeeded);
    if release.Some? {
      OwnedKeyRetired(s, t, w, release.value);
    }
    MovedGrants(s, t, (p: Place) => p);
  }

  lemma OnlyOwnerReleases(s: System, w: WorkflowId, succeeded: bool)
    requires Enabled(s, ActivityDone(w, succeeded))
    ensures var t := Apply(s, ActivityDone(w, succeeded));
      var release := ActivityEnds(UserOf(s, w), succeeded).1;
      && (forall p :: GrantAt(t, p).Some? ==> GrantAt(t, p) == GrantAt(s, p))
      && (release.Some? ==> GrantAt(s, OwnedBy(w)) == release && GrantAt(t, OwnedBy(w)).None?)
  {
    OwnershipHandedOn(UserOf(s, w), succeeded);
  }

  lemma OwnedKeyRetired(s: System, t: System, w: WorkflowId, g: Grant)
    requires Inv(s) && GrantAt(s, OwnedBy(w)) == Some(g)
    requires forall p :: GrantAt(t, p).Some? ==> GrantAt(t, p) == GrantAt(s, p)
    requires GrantAt(t, OwnedBy(w)).None?
    ensures Live(s, g.key) && !Live(t, g.key)
    ensures s.pool.phase.Awaiting? && !s.delivery.Delivered? ==> s.pool.phase.key != g.key
  {
    assert GrantAt(s, OnTheWire).Some? ==> GrantAt(s, OnTheWire).value.key != g.key;
  }

  lemma UserStepKeeps(s: System, step: Step)
    requires Inv(s) && Enabled(s, step)
    requires step.OpenUser? || step.BeginUser? || step.TimeOut? || step.CloseUser?
    ensures Inv(Apply(s, step))
  {
    var t := Apply(s, step);
    assert forall p :: GrantAt(t, p).Some? ==> GrantAt(t, p) == GrantAt(s, p);
    MovedGrants(s, t, (p: Place) => p);
  }

  lemma ReleaseKeeps(s: System, step: Step)
    requires Inv(s) && Enabled(s, step) && (step.ReleaseArrives? || step.DuplicateRelease?)
    ensures Inv(Apply(s, step))
  {
    var t := Apply(s, step);
    ReleaseFrees(s.pool, step.k);
    assert step.k in s.released;
    assert forall p :: GrantAt(t, p) == GrantAt(s, p);
    StillBacked(s, t, step.k);
    assert KeysAccounted(t);
    assert AwaitSound(t);
  }

  lemma StillBacked(s: System, t: System, k: Key)
    requires Ordered(s.pool.order, s.pool.resources) && TableInverse(s.pool)
    requires Backed(s) && KeysAccounted(s) && k in s.released
    requires t.pool == Release(s.pool, k) && forall p :: GrantAt(t, p) == GrantAt(s, p)
    ensures Backed(t)
  {
    ReleaseFrees(s.pool, k);
    forall p | GrantAt(t, p).Some?
      ensures t.pool.HasSignal(GrantAt(t, p).value.resource, GrantAt(t, p).value.key) || Awaits(t.pool, GrantAt(t, p).value)
    {
      assert GrantAt(s, p).Some? && GrantAt(s, p).value.key != k;
    }
  }

  lemma ArrivalKeeps(s: System, step: Step)
    requires Inv(s) && Enabled(s, step) && (step.AcquireArrives? || step.ResourcesArrive?)
    ensures Inv(Apply(s, step))
  {
    var t := Apply(s, step);
    if step.ResourcesArrive? {
      AddKeeps(s.pool, step.rs);
    } else {
      assert t.received == t.served + t.pool.waiters;
    }
    assert forall p :: GrantAt(t, p) == GrantAt(s, p);
  }

  lemma PoolPassKeeps(s: System, step: Step)
    requires Inv(s) && Enabled(s, step) && step.PoolPass?
    ensures Inv(Apply(s, step))
  {
    var t := Apply(s, step);
    LoopConserves(s.pool, step.suggested, step.newKey);
    if CanAssign(s.pool) {
      assert s.pool.waiters == [t.pool.phase.request] + t.pool.waiters;
      assert s.served + s.pool.waiters == t.served + t.pool.waiters;
      assert forall p :: GrantAt(t, p) == if p == OnTheWire then Some(Grant(t.pool.phase.resource, step.newKey)) else GrantAt(s, p);
      ServedKeeps(s, t, step.newKey);
    } else {
      assert t == s;
    }
  }

  lemma ServedKeeps(s: System, t: System, newKey: Key)
    requires Inv(s) && s.pool.phase.Idle? && newKey !in s.issued
    requires t.pool.phase.Awaiting? && t.pool.phase.key == newKey && t.delivery.InTransit?
    requires t.pool == s.pool.(phase := t.pool.phase, waiters := t.pool.waiters)
    requires t == s.(pool := t.pool, delivery := InTransit, issued := s.issued + {newKey}, served := t.served)
    requires t.pool.phase.resource in s.pool.resources && s.pool.resources[t.pool.phase.resource].None?
    requires forall p :: GrantAt(t, p) == if p == OnTheWire then Some(Grant(t.pool.phase.resource, newKey)) else GrantAt(s, p)
    requires Fifo(t)
    ensures Inv(t)
  {
    assert GrantAt(s, OnTheWire).None?;
    assert newKey !in s.released;
    assert Backed(t);
    assert DistinctKeys(t);
    assert KeysAccounted(t);
    assert AwaitSound(t);
    assert forall k :: k in t.pool.keys ==> s.pool.HasSignal(s.pool.keys[k], k);
  }

  lemma SignalArrivesKeeps(s: System)
    requires Inv(s) && Enabled(s, SignalArrives)
    ensures Inv(Apply(s, SignalArrives))
  {
    var t := Apply(s, SignalArrives);
    var w := s.pool.phase.request.workflowId;
    var last := Queued(w, |UserOf(s, w).queue|);
    assert GrantAt(s, OnTheWire).Some?;
    assert GrantAt(t, OnTheWire).None?;
    assert forall p :: p != OnTheWire && p != last ==> GrantAt(t, p) == GrantAt(s, p);
    assert GrantAt(t, last).Some? ==> GrantAt(t, last) == GrantAt(s, OnTheWire);
    assert GrantAt(s, last).None?;
  }

  lemma SignalSettlesKeeps(s: System, step: Step)
    requires Inv(s) && Enabled(s, step) && (step.SignalSettles? || step.SignalBreaks?)
    ensures Inv(Apply(s, step))
  {
    var t := Apply(s, step);
    var outcome := if step.SignalBreaks? then OtherError else if s.delivery.Delivered? then Acknowledged else NotFound;
    SettleKeeps(s.pool, outcome);
    assert GrantAt(t, OnTheWire).None?;
    assert forall p :: p != OnTheWire ==> GrantAt(t, p) == GrantAt(s, p);
    if outcome != Acknowledged {
      forall p | GrantAt(t, p).Some? ensures GrantAt(t, p).value.key != s.pool.phase.key {
        if step.SignalBreaks? {
          assert GrantAt(s, OnTheWire).Some?;
        } else {
          assert GrantAt(s, p).Some?;
        }
      }
    }
  }

  lemma StepKeeps(s: System, step: Step)
    requires Inv(s) && Enabled(s, step)
    ensures Inv(Apply(s, step))
  {
    match step
    case AcquireArrives(_) => ArrivalKeeps(s, step);
    case ReleaseArrives(_) => ReleaseKeeps(s, step);
    case DuplicateRelease(_) => ReleaseKeeps(s, step);
    case ResourcesArrive(_) => ArrivalKeeps(s, step);
    case PoolPass(_, _) => PoolPassKeeps(s, step);
    case SignalArrives => SignalArrivesKeeps(s);
    case SignalSettles => SignalSettlesKeeps(s, step);
    case SignalBreaks => SignalSettlesKeeps(s, step);
    case TakeGrant(w) => TakeGrantKeeps(s, w);
    case ActivityDone(w, succeeded) => ActivityDoneKeeps(s, w, succeeded);
    case _ => UserStepKeeps(s, step);
  }

  lemma {:induction false} RunKeeps(s: System, steps: seq<Step>, t: System)
    requires Inv(s) && Reaches(s, steps, t)
    ensures Inv(t)
    decreases |steps|
  {
    if steps != [] {
      StepKeeps(s, steps[0]);
      RunKeeps(Apply(s, steps[0]), steps[1..], t);
    }
  }

  /** Safety over every run, whatever is early, late, repeated, refused or continued as new: one
      live grant per resource, known to the pool; the key table inverts the held resources; and
      requests are served in the order they came. */
  lemma Safety(s: System, steps: seq<Step>, t: System)
    requires Initial(s) && Reaches(s, steps, t)
    ensures MutualExclusion(t) && Backed(t)
    ensures TableInverse(t.pool) && RebuildKeys(t.pool.order, t.pool.resources) == t.pool.keys
    ensures t.received == t.served + t.pool.waiters
  {
    InitialInv(s);
    RunKeeps(s, steps, t);
    InvExcludes(t);
    RebuildReproduces(t.pool);
  }

  /** A release signal for a key that was released before, arriving at any time, takes no resource
      from whoever holds it now. */
  lemma StaleReleaseHarmless(s: System, steps: seq<Step>, t: System, k: Key, p: Place)
    requires Initial(s) && Reaches(s, steps, t)
    requires k in t.released && GrantAt(t, p).Some?
    ensures var g := GrantAt(t, p).value; var q := Release(t.pool, k);
      && g.key != k
      && (t.pool.HasSignal(g.resource, g.key) ==> q.HasSignal(g.resource, g.key) && g.key in q.keys)
      && (Awaits(t.pool, g) ==> Awaits(q, g) && g.resource in q.resources && q.resources[g.resource].None?)
  {
    InitialInv(s);
    RunKeeps(s, steps, t);
    ReleaseFrees(t.pool, k);
  }

  // ----- Leaks: which keys can never be freed, and which steps make them so -----

  /** A key the pool records, or is about to record, that nobody holds and nobody is releasing. */
  ghost predicate Doomed(s: System, k: Key) {
    && (k in s.pool.keys || (s.pool.phase.Awaiting? && s.pool.phase.key == k && s.delivery.Delivered?))
    && !Live(s, k)
    && k !in s.releases
  }

  /** Keys lost by a step: a release that beats the acknowledgement and is ignored; grants that a
      run never took and that vanish with it when it closes or continues as new. */
  function Lost(s: System, step: Step): set<Key>
    requires Enabled(s, step)
  {
    match step
    case ReleaseArrives(k) =>
      if s.pool.phase.Awaiting? && s.pool.phase.key == k && s.releases[k] == 1 then {k} else {}
    case ActivityDone(w, succeeded) =>
      if ActivityEnds(UserOf(s, w), succeeded).0.phase.Starting? then set g | g in UserOf(s, w).queue :: g.key else {}
    case CloseUser(w) => set g | g in UserOf(s, w).queue :: g.key
    case _ => {}
  }

  /** A repeated release may still free a key whose first release was ignored. */
  function Recovered(s: System, step: Step): set<Key> {
    if step.DuplicateRelease? && step.k in s.pool.keys then {step.k} else {}
  }

  ghost predicate Accounted(s: System, step: Step)
    requires Enabled(s, step)
  {
    forall k :: Doomed(Apply(s, step), k) <==> (Doomed(s, k) && k !in Recovered(s, step)) || k in Lost(s, step)
  }

  /** Nobody waits, holds or sends anything, and the pool is at its wait condition. */
  ghost predicate Quiescent(s: System) {
    && s.pool.phase.Idle?
    && s.releases == multiset{}
    && (forall k :: !Live(s, k))
  }

  lemma SameLive(s: System, t: System, there: Place -> Place, back: Place -> Place)
    requires forall p :: GrantAt(t, p).Some? ==> GrantAt(t, p) == GrantAt(s, there(p))
    requires forall p :: GrantAt(s, p).Some? ==> GrantAt(s, p) == GrantAt(t, back(p))
    ensures forall k :: Live(s, k) <==> Live(t, k)
  {
    forall k | Live(s, k) ensures Live(t, k) {
      var p :| GrantAt(s, p).Some? && GrantAt(s, p).value.key == k;
      assert GrantAt(t, back(p)).Some?;
    }
    forall k | Live(t, k) ensures Live(s, k) {
      var p :| GrantAt(t, p).Some? && GrantAt(t, p).value.key == k;
      assert GrantAt(s, there(p)).Some?;
    }
  }

  /** A queued key is recorded, or its delivery is being acknowledged; it is not being released. */
  lemma QueuedIsKnown(s: System, w: WorkflowId, i: nat)
    requires Inv(s) && i < |UserOf(s, w).queue|
    ensures var k := UserOf(s, w).queue[i].key;
      && (k in s.pool.keys || (s.pool.phase.Awaiting? && s.pool.phase.key == k && s.delivery.Delivered?))
      && k !in s.releases
  {
    var p := Queued(w, i);
    var g := UserOf(s, w).queue[i];
    assert GrantAt(s, p) == Some(g);
    assert Live(s, g.key);
    assert GrantAt(s, OnTheWire).Some? ==> GrantAt(s, OnTheWire).value.key != g.key;
    assert s.pool.HasSignal(g.resource, g.key) || Awaits(s.pool, g);
  }

  /** The run of `w` ends or restarts, and its queue goes with it. */
  lemma QueueDropped(s: System, t: System, w: WorkflowId)
    requires Inv(s)
    requires t.pool == s.pool && t.delivery == s.delivery && t.releases == s.releases
    requires forall p :: GrantAt(t, p) == if p.Queued? && p.w == w then None else GrantAt(s, p)
    ensures forall k :: Doomed(t, k) <==> Doomed(s, k) || k in (set g | g in UserOf(s, w).queue :: g.key)
  {
    var lost := set g | g in UserOf(s, w).queue :: g.key;
    forall k ensures Live(t, k) <==> Live(s, k) && k !in lost {
      if Live(t, k) {
        var p :| GrantAt(t, p).Some? && GrantAt(t, p).value.key == k;
        assert GrantAt(s, p).Some?;
        forall i: nat | i < |UserOf(s, w).queue| ensures UserOf(s, w).queue[i].key != k {
          assert GrantAt(s, Queued(w, i)).Some? && p != Queued(w, i);
        }
      }
      if Live(s, k) && k !in lost {
        var p :| GrantAt(s, p).Some? && GrantAt(s, p).value.key == k;
        assert !(p.Queued? && p.w == w);
        assert GrantAt(t, p).Some?;
      }
    }
    forall k | k in lost ensures Doomed(t, k) {
      var i: nat :| i < |UserOf(s, w).queue| && UserOf(s, w).queue[i].key == k;
      QueuedIsKnown(s, w, i);
    }
  }

  lemma TakeGrantAccounted(s: System, w: WorkflowId)
    requires Enabled(s, TakeGrant(w))
    ensures Accounted(s, TakeGrant(w))
  {
    SameLive(s, Apply(s, TakeGrant(w)),
      (p: Place) =>
        match p
        case Queued(v, i) => if v == w then Queued(v, i + 1) else p
        case OwnedBy(v) => if v == w then Queued(v, 0) else p
        case OnTheWire => p,
      (p: Place) =>
        match p
        case Queued(v, i) => if v != w then p else if i == 0 then OwnedBy(v) else Queued(v, i - 1)
        case _ => p);
  }

  lemma UserStepAccounted(s: System, step: Step)
    requires ClosedEmpty(s) && Enabled(s, step)
    requires step.OpenUser? || step.BeginUser? || step.TimeOut?
    ensures Accounted(s, step)
  {
    var t := Apply(s, step);
    assert forall p :: GrantAt(t, p) == GrantAt(s, p);
    SameLive(s, t, (p: Place) => p, (p: Place) => p);
  }

  lemma OwnerReleasesAccounted(s: System, w: WorkflowId, succeeded: bool)
    requires KeysAccounted(s) && DistinctKeys(s) && Enabled(s, ActivityDone(w, succeeded))
    requires ActivityEnds(UserOf(s, w), succeeded).1.Some?
    ensures Accounted(s, ActivityDone(w, succeeded))
  {
    var t := Apply(s, ActivityDone(w, succeeded));
    OwnershipHandedOn(UserOf(s, w), succeeded);
    var g := ActivityEnds(UserOf(s, w), succeeded).1.value;
    assert GrantAt(s, OwnedBy(w)) == Some(g);
    assert Live(s, g.key);
    assert forall p :: GrantAt(t, p) == if p == OwnedBy(w) then None else GrantAt(s, p);
    forall k | k != g.key ensures Live(s, k) <==> Live(t, k) {
      if Live(s, k) {
        var p :| GrantAt(s, p).Some? && GrantAt(s, p).value.key == k;
        assert GrantAt(t, p).Some?;
      }
    }
    assert t.releases == s.releases + multiset{g.key};
  }

  lemma ActivityDoneAccounted(s: System, w: WorkflowId, succeeded: bool)
    requires Inv(s) && Enabled(s, ActivityDone(w, succeeded))
    ensures Accounted(s, ActivityDone(w, succeeded))
  {
    var t := Apply(s, ActivityDone(w, succeeded));
    var (u, release) := ActivityEnds(UserOf(s, w), succeeded);
    if release.Some? {
      OwnerReleasesAccounted(s, w, succeeded);
    } else if u.phase.Starting? {
      assert forall p :: GrantAt(t, p) == if p.Queued? && p.w == w then None else GrantAt(s, p);
      QueueDropped(s, t, w);
    } else {
      SameLive(s, t, (p: Place) => p, (p: Place) => p);
    }
  }

  lemma CloseUserAccounted(s: System, w: WorkflowId)
    requires Inv(s) && Enabled(s, CloseUser(w))
    ensures Accounted(s, CloseUser(w))
  {
    var t := Apply(s, CloseUser(w));
    assert forall p :: GrantAt(t, p) == if p.Queued? && p.w == w then None else GrantAt(s, p);
    QueueDropped(s, t, w);
  }

  lemma SameGrants(s: System, t: System)
    requires t.users == s.users && t.delivery == s.delivery && t.pool.phase == s.pool.phase
    ensures forall k :: Live(t, k) <==> Live(s, k)
  {
    assert forall p :: GrantAt(t, p) == GrantAt(s, p);
  }

  lemma ReleaseAccounted(s: System, step: Step)
    requires Inv(s) && Enabled(s, step) && (step.ReleaseArrives? || step.DuplicateRelease?)
    ensures Accounted(s, step)
  {
    var t := Apply(s, step);
    ReleaseFrees(s.pool, step.k);
    ReleaseDooms(s, step, t);
  }

  lemma ReleaseDooms(s: System, step: Step, t: System)
    requires KeysAccounted(s) && AwaitSound(s)
    requires Enabled(s, step) && (step.ReleaseArrives? || step.DuplicateRelease?) && t == Apply(s, step)
    requires t.pool.keys == s.pool.keys - {step.k}
    ensures forall k :: Doomed(t, k) <==> (Doomed(s, k) && k !in Recovered(s, step)) || k in Lost(s, step)
  {
    SameGrants(s, t);
    assert step.k in s.released && !Live(s, step.k);
    assert forall k :: k != step.k ==> (k in t.releases <==> k in s.releases);
  }

  lemma OtherArrivalAccounted(s: System, step: Step)
    requires Inv(s) && Enabled(s, step)
    requires step.AcquireArrives? || step.ResourcesArrive?
    ensures Accounted(s, step)
  {
    if step.ResourcesArrive? {
      AddKeeps(s.pool, step.rs);
    }
    SameGrants(s, Apply(s, step));
  }

  lemma PoolPassAccounted(s: System, step: Step)
    requires Inv(s) && Enabled(s, step) && step.PoolPass?
    ensures Accounted(s, step)
  {
    var t := Apply(s, step);
    LoopConserves(s.pool, step.suggested, step.newKey);
    assert GrantAt(s, OnTheWire).None?;
    assert forall p :: p != OnTheWire ==> GrantAt(t, p) == GrantAt(s, p);
    forall k ensures Live(t, k) <==> Live(s, k) || (t != s && k == step.newKey) {
      if Live(s, k) {
        var p :| GrantAt(s, p).Some? && GrantAt(s, p).value.key == k;
        assert GrantAt(t, p).Some?;
      }
      if Live(t, k) {
        var p :| GrantAt(t, p).Some? && GrantAt(t, p).value.key == k;
        assert p == OnTheWire || GrantAt(s, p).Some?;
      }
      if t != s {
        assert GrantAt(t, OnTheWire) == Some(Grant(t.pool.phase.resource, step.newKey));
      }
    }
  }

  lemma SignalArrivesAccounted(s: System)
    requires DistinctKeys(s) && KeysAccounted(s) && Enabled(s, SignalArrives)
    requires s.pool.phase.key !in s.pool.keys
    ensures Accounted(s, SignalArrives)
  {
    var t := Apply(s, SignalArrives);
    var w, key := s.pool.phase.request.workflowId, s.pool.phase.key;
    var last := Queued(w, |UserOf(s, w).queue|);
    assert GrantAt(s, OnTheWire) == Some(Grant(s.pool.phase.resource, key));
    assert GrantAt(t, OnTheWire).None?;
    assert forall p :: p != OnTheWire && p != last ==> GrantAt(t, p) == GrantAt(s, p);
    if t.delivery.Delivered? {
      assert GrantAt(t, last) == GrantAt(s, OnTheWire);
      SameLive(s, t, (p: Place) => if p == last then OnTheWire else p, (p: Place) => if p == OnTheWire then last else p);
    } else {
      assert forall p :: p != OnTheWire ==> GrantAt(t, p) == GrantAt(s, p);
      forall k | k != key ensures Live(s, k) <==> Live(t, k) {
        if Live(s, k) {
          var p :| GrantAt(s, p).Some? && GrantAt(s, p).value.key == k;
          assert GrantAt(t, p).Some?;
        }
      }
    }
  }

  lemma SignalSettlesAccounted(s: System, step: Step)
    requires DistinctKeys(s) && AwaitSound(s) && Enabled(s, step) && (step.SignalSettles? || step.SignalBreaks?)
    ensures Accounted(s, step)
  {
    var t := Apply(s, step);
    var key := s.pool.phase.key;
    assert GrantAt(t, OnTheWire).None?;
    assert forall p :: p != OnTheWire ==> GrantAt(t, p) == GrantAt(s, p);
    forall k | k != key || step.SignalSettles? ensures Live(s, k) <==> Live(t, k) {
      if Live(s, k) {
        var p :| GrantAt(s, p).Some? && GrantAt(s, p).value.key == k;
        assert GrantAt(t, p).Some?;
      }
    }
  }

  /** Exact accounting of leaks, step by step. */
  lemma StepAccounted(s: System, step: Step)
    requires Inv(s) && Enabled(s, step)
    ensures Accounted(s, step)
  {
    match step
    case TakeGrant(w) => TakeGrantAccounted(s, w);
    case ActivityDone(w, succeeded) => ActivityDoneAccounted(s, w, succeeded);
    case CloseUser(w) => CloseUserAccounted(s, w);
    case ReleaseArrives(_) => ReleaseAccounted(s, step);
    case DuplicateRelease(_) => ReleaseAccounted(s, step);
    case AcquireArrives(_) => OtherArrivalAccounted(s, step);
    case ResourcesArrive(_) => OtherArrivalAccounted(s, step);
    case PoolPass(_, _) => PoolPassAccounted(s, step);
    case SignalArrives => SignalArrivesAccounted(s);
    case SignalSettles => SignalSettlesAccounted(s, step);
    case SignalBreaks => SignalSettlesAccounted(s, step);
    case _ => UserStepAccounted(s, step);
  }

  /** The keys lost along a run and not recovered since. */
  function LostAlong(s: System, steps: seq<Step>, lost: set<Key>): set<Key>
    decreases |steps|
  {
    if steps == [] || !Enabled(s, steps[0]) then lost
    else LostAlong(Apply(s, steps[0]), steps[1..], lost - Recovered(s, steps[0]) + Lost(s, steps[0]))
  }

  lemma {:induction false} RunAccounted(s: System, steps: seq<Step>, t: System, lost: set<Key>)
    requires Inv(s) && Reaches(s, steps, t)
    requires forall k :: Doomed(s, k) <==> k in lost
    ensures Inv(t) && forall k :: Doomed(t, k) <==> k in LostAlong(s, steps, lost)
    decreases |steps|
  {
    if steps != [] {
      StepKeeps(s, steps[0]);
      StepAccounted(s, steps[0]);
      RunAccounted(Apply(s, steps[0]), steps[1..], t, lost - Recovered(s, steps[0]) + Lost(s, steps[0]));
    }
  }

  /** No leak, exactly: at rest, a resource is held just when the key it is held under was lost;
      so all resources are free and the table is empty if and only if no key was lost. */
  lemma NoLeak(s: System, steps: seq<Step>, t: System)
    requires Initial(s) && Reaches(s, steps, t) && Quiescent(t)
    ensures forall k :: k in t.pool.keys <==> k in LostAlong(s, steps, {})
    ensures LostAlong(s, steps, {}) == {} <==>
      t.pool.keys == map[] && forall r :: r in t.pool.resources ==> t.pool.resources[r].None?
  {
    InitialInv(s);
    assert s.pool.keys == map[] by {
      TableCounts(s.pool);
    }
    RunAccounted(s, steps, t, {});
    TableCounts(t.pool);
    assert forall k :: Doomed(t, k) <==> k in t.pool.keys;
    if t.pool.keys == map[] {
      assert LostAlong(s, steps, {}) == {};
    }
  }
}
