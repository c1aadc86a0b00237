/**
 The cluster manager: the node map, the three operations on it, and their atomic meaning.
 */
module ClusterManager {
  import opened Wrappers

  const BAD := "BAD!"

  /** `nodes` is a dict, so it has an insertion order, which the list queries follow. */
  datatype Cluster = Cluster(order: seq<string>, owner: map<string, Option<string>>, jobs: set<string>)

  datatype Op = Assign(job: string, count: int) | Delete(job: string) | HealthCheck

  /** How the activity of an operation ends. `bad` says which nodes a health check finds bad; the
      activity reports those of them that it was asked to check. */
  datatype Outcome = Failure | Success(bad: set<string>)

  datatype Response =
    | Nodes(nodes: set<string>)
    | NotEnough
    | ActivityFailed
    | Finished
    | AlreadyShutDown

  /** What the list queries look for in a node's entry. */
  datatype Query = Free | Of(job: string) | OfAnyJob
  {
    predicate Matches(v: Option<string>) {
      match this
      case Free => v == None
      case Of(job) => v == Some(job)
      case OfAnyJob => v != None && v != Some(BAD)
    }
  }

  function Where(order: seq<string>, owner: map<string, Option<string>>, q: Query): (found: seq<string>)
    ensures forall k :: k in found <==> k in order && k in owner && q.Matches(owner[k])
  {
    if order == [] then []
    else
      var rest := Where(order[1..], owner, q);
      if order[0] in owner && q.Matches(owner[order[0]]) then [order[0]] + rest else rest
  }

  function Unassigned(c: Cluster): seq<string> {
    Where(c.order, c.owner, Free)
  }

  function OwnedBy(c: Cluster, job: string): seq<string> {
    Where(c.order, c.owner, Of(job))
  }

  function AllAssigned(c: Cluster): seq<string> {
    Where(c.order, c.owner, OfAnyJob)
  }

  function ToSet(s: seq<string>): set<string> {
    set k | k in s
  }

  /** `get_assigned_nodes`: an empty job name asks for the nodes of every job. */
  function AssignedNodes(c: Cluster, job: string): set<string> {
    if job != "" then ToSet(OwnedBy(c, job)) else ToSet(AllAssigned(c))
  }

  /** `s[:n]` in Python; a negative bound counts from the end. */
  function Prefix(s: seq<string>, n: int): seq<string> {
    if n >= |s| then s
    else if n >= 0 then s[..n]
    else if |s| + n >= 0 then s[..|s| + n]
    else []
  }

  function SetAll(owner: map<string, Option<string>>, nodes: seq<string>, v: Option<string>): map<string, Option<string>> {
    if nodes == [] then owner
    else SetAll(owner, nodes[..|nodes| - 1], v)[nodes[|nodes| - 1] := v]
  }

  /** An operation from the moment it holds the lock up to its activity, if it gets that far. */
  datatype Choice = Return(response: Response) | Await(nodes: seq<string>)

  function Choose(c: Cluster, op: Op): Choice {
    match op
    case Assign(job, count) =>
      if job in c.jobs then Return(Nodes(AssignedNodes(c, job)))
      else if |Unassigned(c)| < count then Return(NotEnough)
      else Await(Prefix(Unassigned(c), count))
    case Delete(job) => Await(OwnedBy(c, job))
    case HealthCheck => Await(AllAssigned(c))
  }

  /** The operation after its activity, writing to whatever the cluster is then. */
  function Commit(c: Cluster, op: Op, nodes: seq<string>, outcome: Outcome): (Cluster, Response) {
    match outcome
    case Failure => (c, if op.HealthCheck? then Finished else ActivityFailed)
    case Success(bad) =>
      match op
      case Assign(job, _) =>
        var d := c.(owner := SetAll(c.owner, nodes, Some(job)), jobs := c.jobs + {job});
        (d, Nodes(AssignedNodes(d, job)))
      case Delete(_) => (c.(owner := SetAll(c.owner, nodes, None)), Finished)
      case HealthCheck => (c.(owner := MarkBad(c.owner, nodes, bad)), Finished)
  }

  function MarkBad(owner: map<string, Option<string>>, nodes: seq<string>, bad: set<string>): map<string, Option<string>> {
    if nodes == [] then owner
    else
      var m := MarkBad(owner, nodes[..|nodes| - 1], bad);
      if nodes[|nodes| - 1] in bad then m[nodes[|nodes| - 1] := Some(BAD)] else m
  }

  /** The operation done in one indivisible step. */
  function Atomic(c: Cluster, op: Op, outcome: Outcome): (Cluster, Response) {
    match Choose(c, op)
    case Return(response) => (c, response)
    case Await(nodes) => Commit(c, op, nodes, outcome)
  }

  function Start(nodeIds: seq<string>): Cluster {
    Cluster(nodeIds, map k | k in nodeIds :: None, {})
  }

  // ----- What the operations keep -----

  ghost predicate Sound(c: Cluster) {
    && (forall i, j :: 0 <= i < j < |c.order| ==> c.order[i] != c.order[j])
    && (forall k :: k in c.order <==> k in c.owner)
    && (forall k :: k in c.owner && c.owner[k].Some? && c.owner[k].value != BAD ==> c.owner[k].value in c.jobs)
  }

  lemma {:induction false} SetAllContents(owner: map<string, Option<string>>, nodes: seq<string>, v: Option<string>)
    ensures var m := SetAll(owner, nodes, v);
      && m.Keys == owner.Keys + ToSet(nodes)
      && (forall k :: k in m ==> m[k] == if k in nodes then v else owner[k])
  {
    if nodes != [] {
      SetAllContents(owner, nodes[..|nodes| - 1], v);
      assert nodes == nodes[..|nodes| - 1] + [nodes[|nodes| - 1]];
    }
  }

  lemma {:induction false} MarkBadContents(owner: map<string, Option<string>>, nodes: seq<string>, bad: set<string>)
    requires forall k :: k in nodes ==> k in owner
    ensures var m := MarkBad(owner, nodes, bad);
      && m.Keys == owner.Keys
      && (forall k :: k in m ==> m[k] == if k in nodes && k in bad then Some(BAD) else owner[k])
  {
    if nodes != [] {
      MarkBadContents(owner, nodes[..|nodes| - 1], bad);
      assert nodes == nodes[..|nodes| - 1] + [nodes[|nodes| - 1]];
    }
  }

  lemma PrefixWithin(s: seq<string>, n: int)
    ensures forall k :: k in Prefix(s, n) ==> k in s
    ensures 0 <= n <= |s| ==> Prefix(s, n) == s[..n]
    ensures n < 0 ==> Prefix(s, n) == s[..if |s| + n >= 0 then |s| + n else 0]
  {}

  function NewOwner(op: Op, bad: set<string>, k: string, was: Option<string>): Option<string> {
    match op
    case Assign(job, _) => Some(job)
    case Delete(_) => None
    case HealthCheck => if k in bad then Some(BAD) else was
  }

  /** The owner of every node after an operation, node by node. */
  lemma AtomicOwners(c: Cluster, op: Op, outcome: Outcome)
    requires Sound(c)
    ensures var d := Atomic(c, op, outcome).0;
      && d.order == c.order && d.owner.Keys == c.owner.Keys
      && (Choose(c, op).Return? || outcome.Failure? ==> d == c)
      && (Choose(c, op).Await? && outcome.Success? ==>
            (forall k :: k in c.owner ==>
               d.owner[k] == if k in Choose(c, op).nodes then NewOwner(op, outcome.bad, k, c.owner[k]) else c.owner[k]))
  {
    if Choose(c, op).Await? && outcome.Success? {
      var nodes := Choose(c, op).nodes;
      if op.Assign? {
        PrefixWithin(Unassigned(c), op.count);
        SetAllContents(c.owner, nodes, Some(op.job));
      } else if op.Delete? {
        SetAllContents(c.owner, nodes, None);
      } else {
        MarkBadContents(c.owner, nodes, outcome.bad);
      }
    }
  }

  /** What a name matches: for a job its nodes, for the empty name the nodes of all jobs. */
  lemma AssignedExactly(c: Cluster, job: string, k: string)
    requires Sound(c)
    ensures k in AssignedNodes(c, job) <==>
      k in c.owner && (if job != "" then c.owner[k] == Some(job) else c.owner[k].Some? && c.owner[k] != Some("BAD!"))
  {}

  /** Each operation in full, node by node and with its answer, and what a failed activity leaves. */
  lemma Effects(c: Cluster, op: Op, outcome: Outcome)
    requires Sound(c)
    ensures var (d, response) := Atomic(c, op, outcome);
      && d.order == c.order && d.owner.Keys == c.owner.Keys
      && match op
         case Delete(job) =>
           && d.jobs == c.jobs && response == (if outcome.Success? then Finished else ActivityFailed)
           && forall k :: k in c.owner ==>
                d.owner[k] == if outcome.Success? && c.owner[k] == Some(job) then None else c.owner[k]
         case HealthCheck =>
           && d.jobs == c.jobs && response == Finished
           && forall k :: k in c.owner ==>
                d.owner[k] == if outcome.Success? && c.owner[k].Some? && k in outcome.bad then Some("BAD!") else c.owner[k]
         case Assign(job, count) =>
           if job in c.jobs then d == c && response.Nodes?
           else if count > |Unassigned(c)| then d == c && response == NotEnough
           else if outcome.Failure? then d == c && response == ActivityFailed
           else
             && d.jobs == c.jobs + {job} && response.Nodes?
             && forall k :: k in c.owner ==>
                  d.owner[k] == if k in Prefix(Unassigned(c), count) then Some(job) else c.owner[k]
  {
    AtomicOwners(c, op, outcome);
    if op.Assign? {
      PrefixWithin(Unassigned(c), op.count);
    }
  }

  lemma StartFree(nodeIds: seq<string>)
    ensures var c := Start(nodeIds);
      && c.order == nodeIds && c.jobs == {}
      && (forall k :: k in c.owner <==> k in nodeIds) && forall k :: k in c.owner ==> c.owner[k].None?
  {}

  /** Every operation, on every job name: the node set stays, and each node stays free, bad, or
      owned by a job in `jobs_assigned`. */
  lemma AtomicKeeps(c: Cluster, op: Op, outcome: Outcome)
    requires Sound(c)
    ensures Sound(Atomic(c, op, outcome).0)
    ensures c.jobs <= Atomic(c, op, outcome).0.jobs
  {
    AtomicOwners(c, op, outcome);
  }

  /** A bad node is freed exactly by deleting the job called `BAD!`, and otherwise stays bad. */
  lemma BadAbsorbing(c: Cluster, op: Op, outcome: Outcome, k: string)
    requires Sound(c) && k in c.owner && c.owner[k] == Some(BAD)
    ensures var d := Atomic(c, op, outcome).0;
      k in d.owner && d.owner[k] == if op == Delete(BAD) && outcome.Success? then None else Some(BAD)
  {
    AtomicOwners(c, op, outcome);
    if op.Assign? { PrefixWithin(Unassigned(c), op.count); }
  }

  /** A free node turns bad only by being assigned to a job called `BAD!`. */
  lemma FreeNeverBad(c: Cluster, op: Op, outcome: Outcome, k: string)
    requires Sound(c) && k in c.owner && c.owner[k].None?
    ensures var d := Atomic(c, op, outcome).0;
      k in d.owner && (d.owner[k].Some? <==>
        op.Assign? && outcome.Success? && Choose(c, op).Await? && k in Choose(c, op).nodes)
    ensures var d := Atomic(c, op, outcome).0; k in d.owner && (d.owner[k] == Some(BAD) ==> op.Assign? && op.job == BAD)
  {
    AtomicOwners(c, op, outcome);
  }

  lemma {:induction false} DistinctSize(s: seq<string>)
    requires forall i, j :: 0 <= i < j < |s| ==> s[i] != s[j]
    ensures |ToSet(s)| == |s|
  {
    if s != [] {
      DistinctSize(s[1..]);
      assert s[0] !in s[1..];
      assert ToSet(s) == ToSet(s[1..]) + {s[0]};
    }
  }

  lemma {:induction false} WhereDistinct(order: seq<string>, owner: map<string, Option<string>>, q: Query)
    requires forall i, j :: 0 <= i < j < |order| ==> order[i] != order[j]
    ensures forall i, j :: 0 <= i < j < |Where(order, owner, q)| ==> Where(order, owner, q)[i] != Where(order, owner, q)[j]
  {
    if order != [] {
      WhereDistinct(order[1..], owner, q);
      assert order[0] !in order[1..];
      assert order[0] !in Where(order[1..], owner, q);
    }
  }

  /** What an assignment reports: the chosen nodes, and whatever matched the name before. */
  lemma AssignmentReports(c: Cluster, job: string, nodes: seq<string>)
    requires Sound(c) && forall k :: k in nodes ==> k in c.owner && c.owner[k].None?
    ensures var d := c.(owner := SetAll(c.owner, nodes, Some(job)), jobs := c.jobs + {job});
      && AssignedNodes(d, job) == ToSet(nodes) + AssignedNodes(c, job)
      && ToSet(nodes) !! AssignedNodes(c, job)
  {
    SetAllContents(c.owner, nodes, Some(job));
  }

  /** A first assignment, for every name and count. Too large a count is refused and changes
      nothing. Otherwise the answer is `count` formerly free nodes, a negative count leaving that
      many of them out, and also, for the names `""` and `BAD!` alone, whatever matched the name
      before. So the answer has the requested size exactly when nothing matched before and the
      count is not negative. */
  lemma FirstAssignment(c: Cluster, job: string, count: int, bad: set<string>)
    requires Sound(c) && job !in c.jobs
    ensures var (d, response) := Atomic(c, Assign(job, count), Success(bad));
      var free := Unassigned(c);
      var chosen := ToSet(Prefix(free, count));
      if count > |free| then d == c && response == NotEnough
      else
        && |chosen| == (if count >= 0 then count else if |free| + count >= 0 then |free| + count else 0)
        && chosen <= ToSet(free) && d.jobs == c.jobs + {job}
        && response == Nodes(chosen + AssignedNodes(c, job))
        && |response.nodes| == |chosen| + |AssignedNodes(c, job)|
        && (job != BAD && job != "" ==> AssignedNodes(c, job) == {})
        && (|response.nodes| == count <==> AssignedNodes(c, job) == {} && count >= 0)
  {
    var free := Unassigned(c);
    if count <= |free| {
      TakesChosen(c, job, count, bad);
      ChosenSize(c, count);
      DisjointSize(ToSet(Prefix(free, count)), AssignedNodes(c, job));
      if job != BAD && job != "" {
        assert forall k :: k !in OwnedBy(c, job);
      }
    }
  }

  /** The new cluster and the answer of a first assignment that is not refused. */
  lemma TakesChosen(c: Cluster, job: string, count: int, bad: set<string>)
    requires Sound(c) && job !in c.jobs && count <= |Unassigned(c)|
    ensures var (d, response) := Atomic(c, Assign(job, count), Success(bad));
      var chosen := ToSet(Prefix(Unassigned(c), count));
      d.jobs == c.jobs + {job} && response == Nodes(chosen + AssignedNodes(c, job)) && chosen !! AssignedNodes(c, job)
  {
    var chosen := Prefix(Unassigned(c), count);
    PrefixWithin(Unassigned(c), count);
    AssignmentReports(c, job, chosen);
    assert Choose(c, Assign(job, count)) == Await(chosen);
  }

  lemma ChosenSize(c: Cluster, count: int)
    requires Sound(c)
    ensures var free := Unassigned(c); var chosen := Prefix(free, count);
      && |ToSet(chosen)| == |chosen| && ToSet(chosen) <= ToSet(free)
      && (count <= |free| ==> |chosen| == if count >= 0 then count else if |free| + count >= 0 then |free| + count else 0)
  {
    var free := Unassigned(c);
    PrefixWithin(free, count);
    WhereDistinct(c.order, c.owner, Free);
    assert free == Where(c.order, c.owner, Free);
    forall i, j | 0 <= i < j < |Prefix(free, count)| ensures Prefix(free, count)[i] != Prefix(free, count)[j] {
      assert free[i] != free[j];
    }
    DistinctSize(Prefix(free, count));
  }

  lemma DisjointSize(a: set<string>, b: set<string>)
    requires a !! b
    ensures |a + b| == |a| + |b|
    ensures |b| == 0 <==> b == {}
  {}

  /** Assigning again is no resize: whatever the count and however the activity would end, the
      guard answers with what the name matches now and changes nothing. So the answer has the
      requested size exactly when the job already matches that many nodes. */
  lemma NoResize(c: Cluster, job: string, count: int, outcome: Outcome)
    requires Sound(c) && job in c.jobs
    ensures Atomic(c, Assign(job, count), outcome) == (c, Nodes(AssignedNodes(c, job)))
    ensures |Atomic(c, Assign(job, count), outcome).1.nodes| == count <==> count == |AssignedNodes(c, job)|
  {}

  const TWO_NODES := ["m", "n"]
  const ONE_ASSIGNED := Cluster(TWO_NODES, map["m" := Some("j"), "n" := None], {"j"})

  lemma OneAssigned()
    ensures Atomic(Start(TWO_NODES), Assign("j", 1), Success({})).0 == ONE_ASSIGNED
  {
    var s := Start(TWO_NODES);
    assert TWO_NODES[1..] == ["n"] && ["n"][1..] == [];
    assert Where(["n"], s.owner, Free) == ["n"];
    assert Unassigned(s) == TWO_NODES;
    assert Prefix(TWO_NODES, 1) == ["m"] && ["m"][..0] == [];
    assert SetAll(s.owner, [], Some("j")) == s.owner;
    assert s.owner["m" := Some("j")] == ONE_ASSIGNED.owner;
  }

  /** A job with one node of a cluster of two asks for both; the other one is free, and stays so. */
  lemma ResizeFails()
    ensures Atomic(Start(TWO_NODES), Assign("j", 1), Success({})).0 == ONE_ASSIGNED
    ensures Unassigned(ONE_ASSIGNED) == ["n"]
    ensures Atomic(ONE_ASSIGNED, Assign("j", 2), Success({})) == (ONE_ASSIGNED, Nodes({"m"}))
  {
    OneAssigned();
    assert TWO_NODES[1..] == ["n"];
    assert Where(["n"], ONE_ASSIGNED.owner, Of("j")) == [] && OwnedBy(ONE_ASSIGNED, "j") == ["m"];
    assert ToSet(["m"]) == {"m"};
  }

  /** A node comes to a job that was assigned before in just one way: the job is called `BAD!` and a
      health check finds the node bad. */
  lemma GainsIff(c: Cluster, op: Op, outcome: Outcome, job: string, k: string)
    requires Sound(c) && job in c.jobs && k in c.owner && c.owner[k] != Some(job)
    ensures var d := Atomic(c, op, outcome).0;
      k in d.owner && (d.owner[k] == Some(job) <==>
        && job == BAD && op.HealthCheck? && outcome.Success?
        && k in Choose(c, op).nodes && k in outcome.bad)
  {
    AtomicOwners(c, op, outcome);
  }

  // ----- The workflow object -----

  class ClusterManagerWorkflow {
    var order: seq<string>
    var nodes: map<string, Option<string>>
    var jobsAssigned: set<string>

    ghost function View(): Cluster
      reads this
    {
      Cluster(order, nodes, jobsAssigned)
    }

    constructor (nodeIds: seq<string>)
      ensures View() == Start(nodeIds)
    {
      order, nodes, jobsAssigned := nodeIds, map k | k in nodeIds :: None, {};
    }

    /** `_assign_nodes_to_job` and the rest of the update, after a successful activity. */
    method AssignAfterActivity(assignedNodes: seq<string>, job: string, count: int, ghost bad: set<string>)
      returns (response: Response)
      modifies this
      ensures (View(), response) == Commit(old(View()), Assign(job, count), assignedNodes, Success(bad))
    {
      for i := 0 to |assignedNodes|
        invariant View() == old(View()).(owner := SetAll(old(nodes), assignedNodes[..i], Some(job)))
      {
        assert assignedNodes[..i + 1][..i] == assignedNodes[..i];
        nodes := nodes[assignedNodes[i] := Some(job)];
      }
      assert assignedNodes[..|assignedNodes|] == assignedNodes;
      jobsAssigned := jobsAssigned + {job};
      response := Nodes(ToSet(Where(order, nodes, if job != "" then Of(job) else OfAnyJob)));
    }

    method UnassignAfterActivity(nodesToUnassign: seq<string>, job: string, ghost bad: set<string>)
      modifies this
      ensures (View(), Finished) == Commit(old(View()), Delete(job), nodesToUnassign, Success(bad))
    {
      for i := 0 to |nodesToUnassign|
        invariant View() == old(View()).(owner := SetAll(old(nodes), nodesToUnassign[..i], None))
      {
        assert nodesToUnassign[..i + 1][..i] == nodesToUnassign[..i];
        nodes := nodes[nodesToUnassign[i] := None];
      }
      assert nodesToUnassign[..|nodesToUnassign|] == nodesToUnassign;
    }

    method HealthCheckAfterActivity(checked: seq<string>, bad: set<string>)
      modifies this
      ensures (View(), Finished) == Commit(old(View()), HealthCheck, checked, Success(bad))
    {
      for i := 0 to |checked|
        invariant View() == old(View()).(owner := MarkBad(old(nodes), checked[..i], bad))
      {
        assert checked[..i + 1][..i] == checked[..i];
        if checked[i] in bad {
          nodes := nodes[checked[i] := Some(BAD)];
        }
      }
      assert checked[..|checked|] == checked;
    }
  }
}
