/**
 Any number of updates and health checks of the cluster manager, interleaved at every await. The
 lock makes each of them take effect as if done in one step, in the order the lock was taken.
 */
module ClusterSchedules {
  import opened Wrappers
  import opened ClusterManager

  /** An operation waits for the cluster to start, then for the lock, then for its activity. */
  datatype Progress =
    | WaitingForStart
    | WaitingForLock
    | InActivity(nodes: seq<string>)
    | Over(response: Response)

  datatype Handler = Handler(op: Op, at: Progress)

  /** One entry per operation that took the lock and let it go: who, what, how its activity ended. */
  datatype Entry = Entry(id: nat, op: Op, outcome: Outcome)

  datatype System = System(
    origin: Cluster,           // the cluster as it was started
    cluster: Cluster,
    started: bool,
    shutdown: bool,
    lock: Option<nat>,
    handlers: map<nat, Handler>,
    taken: seq<nat>,           // history: who took the lock, in order
    log: seq<Entry>,           // history: who let it go, in order
    result: Option<(nat, nat)>)

  datatype Step =
    | Submit(id: nat, op: Op)
    | StartCluster(nodeIds: seq<string>)
    | Shutdown
    | Admit(id: nat)
    | TakeLock(id: nat)
    | ActivityEnds(id: nat, outcome: Outcome)
    | ReturnResult

  predicate At(s: System, id: nat, at: Progress) {
    id in s.handlers && s.handlers[id].at == at
  }

  predicate Enabled(s: System, step: Step) {
    s.result.None? &&
    match step
    case Submit(id, _) => id !in s.handlers
    case StartCluster(nodeIds) => !s.started && forall i, j :: 0 <= i < j < |nodeIds| ==> nodeIds[i] != nodeIds[j]
    case Shutdown => s.started
    case Admit(id) => s.started && At(s, id, WaitingForStart)
    case TakeLock(id) => s.lock.None? && At(s, id, WaitingForLock)
    case ActivityEnds(id, _) => s.lock == Some(id) && id in s.handlers && s.handlers[id].at.InActivity?
    case ReturnResult => s.shutdown && forall id :: id in s.handlers ==> s.handlers[id].at.Over?
  }

  function Move(s: System, id: nat, at: Progress): map<nat, Handler>
    requires id in s.handlers
  {
    s.handlers[id := s.handlers[id].(at := at)]
  }

  function Apply(s: System, step: Step): System
    requires Enabled(s, step)
  {
    match step
    case Submit(id, op) => s.(handlers := s.handlers[id := Handler(op, WaitingForStart)])
    case StartCluster(nodeIds) => s.(origin := Start(nodeIds), cluster := Start(nodeIds), started := true)
    case Shutdown => s.(shutdown := true)
    case Admit(id) =>
      if s.shutdown && !s.handlers[id].op.HealthCheck? then s.(handlers := Move(s, id, Over(AlreadyShutDown)))
      else s.(handlers := Move(s, id, WaitingForLock))
    case TakeLock(id) =>
      (match Choose(s.cluster, s.handlers[id].op)
       case Return(response) =>
         s.(handlers := Move(s, id, Over(response)), taken := s.taken + [id],
            log := s.log + [Entry(id, s.handlers[id].op, Failure)])
       case Await(nodes) =>
         s.(handlers := Move(s, id, InActivity(nodes)), taken := s.taken + [id], lock := Some(id)))
    case ActivityEnds(id, outcome) =>
      var (cluster, response) := Commit(s.cluster, s.handlers[id].op, s.handlers[id].at.nodes, outcome);
      s.(cluster := cluster, lock := None, handlers := Move(s, id, Over(response)),
         log := s.log + [Entry(id, s.handlers[id].op, outcome)])
    case ReturnResult => s.(result := Some((|ToSet(AllAssigned(s.cluster))|, |ToSet(OwnedBy(s.cluster, BAD))|)))
  }

  predicate Reaches(s: System, steps: seq<Step>, t: System)
    decreases |steps|
  {
    if steps == [] then s == t
    else Enabled(s, steps[0]) && Reaches(Apply(s, steps[0]), steps[1..], t)
  }

  const EMPTY := Cluster([], map[], {})
  const INITIAL := System(EMPTY, EMPTY, false, false, None, map[], [], [], None)

  // ----- The same operations, one after the other -----

  function Replay(c: Cluster, log: seq<Entry>): Cluster {
    if log == [] then c
    else Atomic(Replay(c, log[..|log| - 1]), log[|log| - 1].op, log[|log| - 1].outcome).0
  }

  /** What the i-th operation of the log answers when the log is done one after the other. */
  function Answer(c: Cluster, log: seq<Entry>, i: nat): Response
    requires i < |log|
  {
    Atomic(Replay(c, log[..i]), log[i].op, log[i].outcome).1
  }

  function Ids(log: seq<Entry>): seq<nat> {
    seq(|log|, i requires 0 <= i < |log| => log[i].id)
  }

  ghost predicate Logged(log: seq<Entry>, id: nat) {
    exists i :: 0 <= i < |log| && log[i].id == id
  }

  ghost predicate BeforeStart(s: System) {
    !s.started ==>
      && s.log == [] && s.taken == [] && s.lock == None && s.cluster == s.origin == EMPTY && !s.shutdown
      && forall id :: id in s.handlers ==> s.handlers[id].at.WaitingForStart?
  }

  /** Only the lock holder is inside its activity, and what it chose is what it would choose now. */
  ghost predicate LockSound(s: System) {
    && (forall id :: id in s.handlers && s.handlers[id].at.InActivity? <==> s.lock == Some(id))
    && (s.lock.Some? ==> Choose(s.cluster, s.handlers[s.lock.value].op) == Await(s.handlers[s.lock.value].at.nodes))
    && s.taken == Ids(s.log) + (if s.lock.Some? then [s.lock.value] else [])
  }

  /** Each logged operation has answered what it answers when the log is done in order. */
  ghost predicate AnswersSound(origin: Cluster, log: seq<Entry>, handlers: map<nat, Handler>) {
    forall i :: 0 <= i < |log| ==>
      log[i].id in handlers && handlers[log[i].id] == Handler(log[i].op, Over(Answer(origin, log, i)))
  }

  /** An operation is logged once, and one that is over without being logged was turned away. */
  ghost predicate LogComplete(log: seq<Entry>, handlers: map<nat, Handler>) {
    && (forall i, j :: 0 <= i < j < |log| ==> log[i].id != log[j].id)
    && (forall id :: id in handlers && handlers[id].at.Over? ==>
          Logged(log, id) || handlers[id].at.response.AlreadyShutDown?)
  }

  /** The interleaved run and the one-after-the-other run agree, state and answers. */
  ghost predicate LogSound(s: System) {
    && s.cluster == Replay(s.origin, s.log)
    && AnswersSound(s.origin, s.log, s.handlers)
    && LogComplete(s.log, s.handlers)
  }

  ghost predicate Inv(s: System) {
    && Sound(s.cluster) && s.cluster.order == s.origin.order && s.cluster.owner.Keys == s.origin.owner.Keys
    && BeforeStart(s)
    && LockSound(s)
    && LogSound(s)
    && (s.result.Some? ==>
          && s.shutdown && s.lock.None?
          && (forall id :: id in s.handlers ==> s.handlers[id].at.Over?)
          && s.result.value == (|ToSet(AllAssigned(s.cluster))|, |ToSet(OwnedBy(s.cluster, BAD))|))
  }

  lemma AppendAnswers(c: Cluster, log: seq<Entry>, e: Entry)
    ensures var longer := log + [e];
      && Replay(c, longer) == Atomic(Replay(c, log), e.op, e.outcome).0
      && (forall i :: 0 <= i < |log| ==> Answer(c, longer, i) == Answer(c, log, i))
      && Answer(c, longer, |log|) == Atomic(Replay(c, log), e.op, e.outcome).1
  {
    var longer := log + [e];
    assert longer[..|longer| - 1] == log;
    forall i | 0 <= i < |log| ensures longer[..i] == log[..i] {}
    assert longer[..|log|] == log;
  }

  lemma AnswersGrow(origin: Cluster, log: seq<Entry>, handlers: map<nat, Handler>, e: Entry, response: Response)
    requires AnswersSound(origin, log, handlers) && e.id in handlers && !handlers[e.id].at.Over?
    requires response == Answer(origin, log + [e], |log|)
    requires forall i :: 0 <= i < |log| ==> Answer(origin, log + [e], i) == Answer(origin, log, i)
    ensures AnswersSound(origin, log + [e], handlers[e.id := Handler(e.op, Over(response))])
  {
    var longer := log + [e];
    forall i | 0 <= i < |longer|
      ensures var h := handlers[e.id := Handler(e.op, Over(response))];
        longer[i].id in h && h[longer[i].id] == Handler(longer[i].op, Over(Answer(origin, longer, i)))
    {
      if i < |log| { assert longer[i] == log[i]; }
    }
  }

  lemma CompleteGrows(log: seq<Entry>, handlers: map<nat, Handler>, e: Entry, response: Response)
    requires LogComplete(log, handlers) && !Logged(log, e.id)
    ensures LogComplete(log + [e], handlers[e.id := Handler(e.op, Over(response))])
  {
    var longer := log + [e];
    var after := handlers[e.id := Handler(e.op, Over(response))];
    forall id | id in after && after[id].at.Over?
      ensures Logged(longer, id) || after[id].at.response.AlreadyShutDown?
    {
      if id == e.id {
        assert longer[|log|].id == id;
      } else if Logged(log, id) {
        var i :| 0 <= i < |log| && log[i].id == id;
        assert longer[i].id == id;
      }
    }
    forall i, j | 0 <= i < j < |longer| ensures longer[i].id != longer[j].id {
      assert longer[i] == log[i];
      if j < |log| { assert longer[j] == log[j]; }
    }
  }

  /** An operation that ends with what the atomic operation gives extends the log soundly. */
  lemma LogGrows(s: System, t: System, e: Entry)
    requires LogSound(s) && e.id in s.handlers && !s.handlers[e.id].at.Over?
    requires t.origin == s.origin && t.log == s.log + [e]
    requires t.cluster == Atomic(s.cluster, e.op, e.outcome).0
    requires t.handlers == s.handlers[e.id := Handler(e.op, Over(Atomic(s.cluster, e.op, e.outcome).1))]
    ensures LogSound(t) && Ids(t.log) == Ids(s.log) + [e.id]
  {
    AppendAnswers(s.origin, s.log, e);
    AnswersGrow(s.origin, s.log, s.handlers, e, Atomic(s.cluster, e.op, e.outcome).1);
    CompleteGrows(s.log, s.handlers, e, Atomic(s.cluster, e.op, e.outcome).1);
  }

  /** A handler that is not over moves on; nothing logged is touched. */
  lemma LogStays(s: System, t: System, id: nat, h: Handler)
    requires LogSound(s) && t.origin == s.origin && t.log == s.log && t.cluster == s.cluster
    requires id in s.handlers ==> !s.handlers[id].at.Over?
    requires t.handlers == s.handlers[id := h] && (h.at.Over? ==> h.at.response.AlreadyShutDown?)
    ensures LogSound(t)
  {}

  lemma OutsideStepKeeps(s: System, step: Step)
    requires Inv(s) && Enabled(s, step)
    requires step.StartCluster? || step.Shutdown? || step.ReturnResult?
    ensures Inv(Apply(s, step))
  {}

  lemma ArrivalKeeps(s: System, step: Step)
    requires Inv(s) && Enabled(s, step) && (step.Submit? || step.Admit?)
    ensures Inv(Apply(s, step))
  {
    var t := Apply(s, step);
    match step
    case Submit(id, op) => LogStays(s, t, id, Handler(op, WaitingForStart));
    case Admit(id) => LogStays(s, t, id, t.handlers[id]);
  }

  lemma GuardAnswers(s: System, id: nat)
    requires Inv(s) && Enabled(s, TakeLock(id)) && Choose(s.cluster, s.handlers[id].op).Return?
    ensures Inv(Apply(s, TakeLock(id)))
  {
    var t := Apply(s, TakeLock(id));
    LogGrows(s, t, Entry(id, s.handlers[id].op, Failure));
    LockPassed(s, t, id);
  }

  /** The lock taken and let go in one step. */
  lemma LockPassed(s: System, t: System, id: nat)
    requires LockSound(s) && s.lock.None? && t.lock.None?
    requires Ids(t.log) == Ids(s.log) + [id] && t.taken == s.taken + [id]
    requires id in t.handlers && t.handlers == s.handlers[id := t.handlers[id]] && t.handlers[id].at.Over?
    ensures LockSound(t)
  {}

  lemma ActivityStarts(s: System, id: nat)
    requires Inv(s) && Enabled(s, TakeLock(id)) && Choose(s.cluster, s.handlers[id].op).Await?
    ensures Inv(Apply(s, TakeLock(id)))
  {
    var t := Apply(s, TakeLock(id));
    LogStays(s, t, id, t.handlers[id]);
    assert LockSound(t);
  }

  lemma ActivityEndsKeeps(s: System, id: nat, outcome: Outcome)
    requires Inv(s) && Enabled(s, ActivityEnds(id, outcome))
    ensures Inv(Apply(s, ActivityEnds(id, outcome)))
  {
    AtomicKeeps(s.cluster, s.handlers[id].op, outcome);
    AtomicOwners(s.cluster, s.handlers[id].op, outcome);
    LogGrows(s, Apply(s, ActivityEnds(id, outcome)), Entry(id, s.handlers[id].op, outcome));
  }

  lemma StepKeeps(s: System, step: Step)
    requires Inv(s) && Enabled(s, step)
    ensures Inv(Apply(s, step))
  {
    match step
    case TakeLock(id) => if Choose(s.cluster, s.handlers[id].op).Return? { GuardAnswers(s, id); } else { ActivityStarts(s, id); }
    case ActivityEnds(id, outcome) => ActivityEndsKeeps(s, id, outcome);
    case Submit(_, _) => ArrivalKeeps(s, step);
    case Admit(_) => ArrivalKeeps(s, step);
    case _ => OutsideStepKeeps(s, step);
  }

  lemma {:induction false} RunKeeps(s: System, steps: seq<Step>, t: System)
    requires Inv(s) && Reaches(s, steps, t)
    ensures Inv(t)
    decreases |steps|
  {
    if steps != [] {
      StepKeeps(s, steps[0]);
      RunKeeps(Apply(s, steps[0]), steps[1..], t);
    }
  }

  /** Atomicity: whatever the interleaving, the cluster and every answer are those of doing the
      operations one after the other, in the order in which they took the lock. */
  lemma Atomicity(steps: seq<Step>, t: System)
    requires Reaches(INITIAL, steps, t)
    ensures t.cluster == Replay(t.origin, t.log)
    ensures t.taken == Ids(t.log) + (if t.lock.Some? then [t.lock.value] else [])
    ensures forall i :: 0 <= i < |t.log| ==>
      t.log[i].id in t.handlers && t.handlers[t.log[i].id] == Handler(t.log[i].op, Over(Answer(t.origin, t.log, i)))
    ensures forall id :: id in t.handlers && t.handlers[id].at.Over? && !Logged(t.log, id) ==>
      t.handlers[id].at.response == AlreadyShutDown
  {
    RunKeeps(INITIAL, steps, t);
  }

  /** In every reachable state the node set is the one the cluster was started with, each node is
      free, bad or owned by a known job, and the nodes a handler chose before its activity are
      still as it found them: free for an assignment, the job's own for a deletion. */
  lemma NodesSafe(steps: seq<Step>, t: System)
    requires Reaches(INITIAL, steps, t)
    ensures Sound(t.cluster) && t.cluster.order == t.origin.order && t.cluster.owner.Keys == t.origin.owner.Keys
    ensures t.lock.Some? ==>
      && t.lock.value in t.handlers && t.handlers[t.lock.value].at.InActivity?
      && forall k :: k in t.handlers[t.lock.value].at.nodes ==>
           k in t.cluster.owner &&
           match t.handlers[t.lock.value].op
           case Assign(_, _) => t.cluster.owner[k] == None
           case Delete(job) => t.cluster.owner[k] == Some(job)
           case HealthCheck => t.cluster.owner[k] != None && t.cluster.owner[k] != Some(BAD)
  {
    RunKeeps(INITIAL, steps, t);
    if t.lock.Some? && t.handlers[t.lock.value].op.Assign? {
      PrefixWithin(Unassigned(t.cluster), t.handlers[t.lock.value].op.count);
    }
  }

  /** The workflow returns only after a shutdown, when every handler is over, and with the counts of
      the whole log done in order. */
  lemma FinalCounts(steps: seq<Step>, t: System)
    requires Reaches(INITIAL, steps, t) && t.result.Some?
    ensures t.shutdown && t.lock.None? && forall id :: id in t.handlers ==> t.handlers[id].at.Over?
    ensures var c := Replay(t.origin, t.log);
      t.result.value == (|ToSet(AllAssigned(c))|, |ToSet(OwnedBy(c, BAD))|)
  {
    RunKeeps(INITIAL, steps, t);
  }

  // ----- What the cluster starts with -----

  lemma {:induction false} OriginStays(s: System, steps: seq<Step>, t: System)
    requires Reaches(s, steps, t) && s.started
    ensures t.started && t.origin == s.origin && forall ids :: StartCluster(ids) !in steps
    decreases |steps|
  {
    if steps != [] {
      assert steps == [steps[0]] + steps[1..];
      OriginStays(Apply(s, steps[0]), steps[1..], t);
    }
  }

  lemma {:induction false} OriginSet(s: System, steps: seq<Step>, t: System, nodeIds: seq<string>)
    requires Reaches(s, steps, t) && !s.started && StartCluster(nodeIds) in steps
    ensures t.started && t.origin == Start(nodeIds)
    decreases |steps|
  {
    assert steps == [steps[0]] + steps[1..];
    if steps[0].StartCluster? {
      OriginStays(Apply(s, steps[0]), steps[1..], t);
    } else {
      OriginSet(Apply(s, steps[0]), steps[1..], t, nodeIds);
    }
  }

  /** Once the start activity has reported its nodes, the nodes of the cluster are those, for good; and
      the log begins from all of them free and no job assigned. */
  lemma StartedWith(steps: seq<Step>, t: System, nodeIds: seq<string>)
    requires Reaches(INITIAL, steps, t) && StartCluster(nodeIds) in steps
    ensures t.cluster.order == nodeIds && forall k :: k in t.cluster.owner <==> k in nodeIds
    ensures t.origin.jobs == {} && forall k :: k in nodeIds ==> k in t.origin.owner && t.origin.owner[k].None?
  {
    OriginSet(INITIAL, steps, t, nodeIds);
    StartFree(nodeIds);
    RunKeeps(INITIAL, steps, t);
  }

  // ----- Who is turned away -----

  predicate TurnedAway(s: System, id: nat) {
    id in s.handlers && s.handlers[id].at == Over(AlreadyShutDown)
  }

  predicate Admitted(s: System, id: nat) {
    id in s.handlers && !s.handlers[id].at.WaitingForStart?
  }

  /** A handler passes the wait for the start once. */
  lemma {:induction false} AdmittedOnce(s: System, steps: seq<Step>, t: System, id: nat)
    requires Reaches(s, steps, t) && Admitted(s, id)
    ensures Admit(id) !in steps && Admitted(t, id) && t.handlers[id].op == s.handlers[id].op
    decreases |steps|
  {
    if steps != [] {
      assert steps == [steps[0]] + steps[1..];
      AdmittedOnce(Apply(s, steps[0]), steps[1..], t, id);
    }
  }

  /** Whoever is admitted and not turned away then is not turned away later. */
  lemma {:induction false} LetInForGood(s: System, steps: seq<Step>, t: System, id: nat)
    requires Reaches(s, steps, t) && Admitted(s, id)
    ensures TurnedAway(t, id) <==> TurnedAway(s, id)
    decreases |steps|
  {
    if steps != [] {
      LetInForGood(Apply(s, steps[0]), steps[1..], t, id);
    }
  }

  /** Among these steps the handler is admitted, the cluster being shut down before that. */
  ghost predicate AdmittedLate(shutdown: bool, steps: seq<Step>, id: nat) {
    exists j: nat :: AdmittedLateAt(shutdown, steps, id, j)
  }

  predicate AdmittedLateAt(shutdown: bool, steps: seq<Step>, id: nat, j: nat) {
    j < |steps| && steps[j] == Admit(id) && (shutdown || Shutdown in steps[..j])
  }

  lemma LateShifts(shutdown: bool, steps: seq<Step>, id: nat)
    requires steps != []
    ensures AdmittedLate(shutdown, steps, id) <==>
      || (steps[0] == Admit(id) && shutdown)
      || AdmittedLate(shutdown || steps[0] == Shutdown, steps[1..], id)
  {
    var rest, later := steps[1..], shutdown || steps[0] == Shutdown;
    if AdmittedLate(shutdown, steps, id) {
      var j: nat :| AdmittedLateAt(shutdown, steps, id, j);
      if j > 0 {
        assert steps[..j] == [steps[0]] + rest[..j - 1];
        assert AdmittedLateAt(later, rest, id, j - 1);
      }
    }
    if AdmittedLate(later, rest, id) {
      var j: nat :| AdmittedLateAt(later, rest, id, j);
      assert steps[..j + 1] == [steps[0]] + rest[..j];
      assert AdmittedLateAt(shutdown, steps, id, j + 1);
    }
    if steps[0] == Admit(id) && shutdown {
      assert AdmittedLateAt(shutdown, steps, id, 0);
    }
  }

  lemma NeverLate(shutdown: bool, steps: seq<Step>, id: nat)
    requires Admit(id) !in steps
    ensures !AdmittedLate(shutdown, steps, id)
  {
    forall j: nat ensures !AdmittedLateAt(shutdown, steps, id, j) {
      if j < |steps| {
        assert steps[j] in steps;
      }
    }
  }

  lemma {:induction false} TurnedAwayFrom(s: System, steps: seq<Step>, t: System, id: nat)
    requires Reaches(s, steps, t) && id in t.handlers && !Admitted(s, id)
    ensures TurnedAway(t, id) <==> !t.handlers[id].op.HealthCheck? && AdmittedLate(s.shutdown, steps, id)
    decreases |steps|
  {
    if steps != [] {
      var next := Apply(s, steps[0]);
      LateShifts(s.shutdown, steps, id);
      if steps[0] == Admit(id) {
        LetInForGood(next, steps[1..], t, id);
        AdmittedOnce(next, steps[1..], t, id);
        NeverLate(next.shutdown, steps[1..], id);
      } else {
        assert next.shutdown == (s.shutdown || steps[0] == Shutdown);
        TurnedAwayFrom(next, steps[1..], t, id);
      }
    }
  }

  /** In every reachable state, a handler was answered that the cluster is shut down if and only if it
      is an update that passed the wait for the start after a shutdown. Every other handler that
      passed it waits for the lock, is in its activity, or is in the log. */
  lemma Admission(steps: seq<Step>, t: System, id: nat)
    requires Reaches(INITIAL, steps, t) && id in t.handlers
    ensures TurnedAway(t, id) <==> !t.handlers[id].op.HealthCheck? && AdmittedLate(false, steps, id)
    ensures Admit(id) in steps <==> Admitted(t, id)
    ensures Admit(id) in steps && !TurnedAway(t, id) ==>
      t.handlers[id].at.WaitingForLock? || t.lock == Some(id) || Logged(t.log, id)
  {
    TurnedAwayFrom(INITIAL, steps, t, id);
    AdmittedBySteps(INITIAL, steps, t, id);
    RunKeeps(INITIAL, steps, t);
  }

  lemma {:induction false} AdmittedBySteps(s: System, steps: seq<Step>, t: System, id: nat)
    requires Reaches(s, steps, t) && !Admitted(s, id)
    ensures Admit(id) in steps <==> Admitted(t, id)
    decreases |steps|
  {
    if steps != [] {
      assert steps == [steps[0]] + steps[1..];
      var next := Apply(s, steps[0]);
      if steps[0] == Admit(id) {
        AdmittedOnce(next, steps[1..], t, id);
      } else {
        AdmittedBySteps(next, steps[1..], t, id);
      }
    }
  }

  // ----- What an assigned job can still get -----

  /** Operations done one after the other keep the cluster sound and forget no job. */
  lemma {:induction false} ReplayKeeps(c: Cluster, log: seq<Entry>)
    requires Sound(c)
    ensures var d := Replay(c, log); Sound(d) && c.jobs <= d.jobs && d.owner.Keys == c.owner.Keys
  {
    if log != [] {
      var init, last := log[..|log| - 1], log[|log| - 1];
      ReplayKeeps(c, init);
      AtomicKeeps(Replay(c, init), last.op, last.outcome);
      AtomicOwners(Replay(c, init), last.op, last.outcome);
    }
  }

  /** Over any later operations, a job that was assigned once never gains a node; only `BAD!` does. */
  lemma {:induction false} NeverGains(c: Cluster, log: seq<Entry>, job: string, k: string)
    requires Sound(c) && job in c.jobs && job != BAD && k in c.owner
    ensures var d := Replay(c, log); k in d.owner && (d.owner[k] == Some(job) ==> c.owner[k] == Some(job))
  {
    if log != [] {
      var init, last := log[..|log| - 1], log[|log| - 1];
      ReplayKeeps(c, init);
      NeverGains(c, init, job, k);
      var d := Replay(c, init);
      if d.owner[k] == Some(job) {
        AtomicOwners(d, last.op, last.outcome);
      } else {
        GainsIff(d, last.op, last.outcome, job, k);
      }
    }
  }

  /** What matches a name has to be found somewhere in the cluster. */
  lemma NothingMatches(c: Cluster, job: string)
    requires Sound(c)
    ensures AssignedNodes(c, job) == {} <==>
      forall k :: k in c.owner ==> if job != "" then c.owner[k] != Some(job) else c.owner[k] == None || c.owner[k] == Some(BAD)
  {
    var found := if job != "" then OwnedBy(c, job) else AllAssigned(c);
    assert AssignedNodes(c, job) == {} <==> forall k :: k !in found by {
      assert forall k :: k in found <==> k in AssignedNodes(c, job);
    }
  }

  lemma StaysUnmatched(c: Cluster, log: seq<Entry>, job: string)
    requires Sound(c) && job in c.jobs && job != BAD && forall k :: k in c.owner ==> c.owner[k] != Some(job)
    ensures var d := Replay(c, log); forall k :: k in d.owner ==> d.owner[k] != Some(job)
  {
    ReplayKeeps(c, log);
    var d := Replay(c, log);
    forall k | k in d.owner ensures d.owner[k] != Some(job) {
      NeverGains(c, log, job, k);
    }
  }

  lemma DeletedUnmatched(c: Cluster, job: string, bad: set<string>)
    requires Sound(c)
    ensures var d := Atomic(c, Delete(job), Success(bad)).0;
      Sound(d) && d.jobs == c.jobs && forall k :: k in d.owner ==> d.owner[k] != Some(job)
  {
    AtomicKeeps(c, Delete(job), Success(bad));
    AtomicOwners(c, Delete(job), Success(bad));
  }

  /** After a job is deleted, and any operations after that, assigning it again assigns no node and
      is answered by the guard. The answer is empty for every name but two: for the empty name it
      lists the nodes of all jobs, for `BAD!` the bad nodes. */
  lemma AfterDelete(c: Cluster, job: string, bad: set<string>, log: seq<Entry>, count: int, outcome: Outcome)
    requires Sound(c) && job in c.jobs
    ensures var d := Replay(Atomic(c, Delete(job), Success(bad)).0, log);
      var (e, response) := Atomic(d, Assign(job, count), outcome);
      && e == d && response == Nodes(AssignedNodes(d, job))
      && (response.nodes == {} <==>
            || (job != "" && job != BAD)
            || (job == BAD && forall k :: k in d.owner ==> d.owner[k] != Some(BAD))
            || (job == "" && forall k :: k in d.owner ==> d.owner[k] == None || d.owner[k] == Some(BAD)))
  {
    var deleted := Atomic(c, Delete(job), Success(bad)).0;
    DeletedUnmatched(c, job, bad);
    ReplayKeeps(deleted, log);
    var d := Replay(deleted, log);
    NoResize(d, job, count, outcome);
    NothingMatches(d, job);
    if job != BAD {
      StaysUnmatched(deleted, log, job);
    }
  }
}
