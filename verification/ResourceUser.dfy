/**
 The user side of the lock protocol: `ResourcePoolClient`, `AcquiredResource` and
 `ResourceUserWorkflow`. A user is what one workflow id is doing, over all the runs it has.
 */
module ResourceUser {
  import opened Wrappers
  import opened ResourcePool

  datatype Grant = Grant(resource: Resource, key: Key)

  datatype UserInput = UserInput(failAfter: Option<string>, continueAsNew: bool, acquired: Option<Grant>)

  /** The awaits of one run: not yet begun (a detached grant may wait in its input), waiting for a
      grant, inside the block that owns a grant, waiting for the release signal to be sent. */
  datatype UserPhase =
    | Closed
    | Starting(input: UserInput)
    | Waiting(input: UserInput)
    | Using(input: UserInput, held: Grant, iteration: string)
    | Releasing

  /** `queue` is `acquired_resources`; it belongs to the run and is gone when the run ends. */
  datatype User = User(phase: UserPhase, queue: seq<Grant>)
  {
    /** The grant this user owns: in use, or detached and waiting for the next run. */
    function Owned(): Option<Grant> {
      match phase
      case Using(_, held, _) => Some(held)
      case Starting(input) => input.acquired
      case _ => None
    }
  }

  const FIRST := "first"
  const SECOND := "second"

  /** The signal handler `_handle_acquire_response`. */
  function Receive(u: User, g: Grant): User {
    u.(queue := u.queue + [g])
  }

  /** A run begins: it reattaches to the grant in its input, or asks for one (the flag). */
  function Begin(u: User): (User, bool)
    requires u.phase.Starting?
  {
    var input := u.phase.input;
    match input.acquired
    case None => (u.(phase := Waiting(input)), true)
    case Some(g) => (u.(phase := Using(input, g, FIRST)), false)
  }

  function Take(u: User): User
    requires u.phase.Waiting? && u.queue != []
  {
    User(Using(u.phase.input, u.queue[0], FIRST), u.queue[1..])
  }

  /** An activity of the block ends. The second part is the release signal sent on the way out. */
  function ActivityEnds(u: User, succeeded: bool): (User, Option<Grant>)
    requires u.phase.Using?
  {
    var Using(input, held, iteration) := u.phase;
    if !succeeded || input.failAfter == Some(iteration) then (u.(phase := Releasing), Some(held))
    else if iteration == FIRST then (u.(phase := Using(input, held, SECOND)), None)
    else if input.continueAsNew then
      (User(Starting(UserInput(input.failAfter, false, Some(held))), []), None)
    else (u.(phase := Releasing), Some(held))
  }

  /** Ownership leaves a user only with a release signal for the very grant it owned; a user that
      detaches on continuing as new owns the same grant in its next run. */
  lemma OwnershipHandedOn(u: User, succeeded: bool)
    requires u.phase.Using?
    ensures var (v, release) := ActivityEnds(u, succeeded);
      && (release.Some? <==> v.Owned().None?)
      && (release.Some? ==> release == u.Owned())
      && (release.None? ==> v.Owned() == u.Owned())
      && (v.phase.Starting? ==> !v.phase.input.continueAsNew && Begin(v).0.Owned() == u.Owned() && !Begin(v).1)
  {}

  // ----- From the first activity to the release -----

  /** What became of a user: its last state, the release signals it sent, how many activities ended
      and how many further runs began. */
  datatype Story = Story(user: User, releases: seq<Grant>, activities: nat, begun: nat)

  /** The user's own steps while it owns a grant; `outcomes` says of each activity whether it succeeds. */
  function Drive(u: User, outcomes: seq<bool>): Story
    decreases |outcomes|, if u.phase.Starting? then 1 else 0
  {
    if u.phase.Starting? && u.phase.input.acquired.Some? then
      var story := Drive(Begin(u).0, outcomes);
      story.(begun := story.begun + 1)
    else if u.phase.Using? && outcomes != [] then
      var (v, release) := ActivityEnds(u, outcomes[0]);
      var story := Drive(v, outcomes[1..]);
      story.(activities := story.activities + 1,
             releases := (if release.Some? then [release.value] else []) + story.releases)
    else Story(u, [], 0, 0)
  }

  /** Whether the `k`-th activity under a grant, counted over both runs, ends the block by failing. */
  predicate Fails(input: UserInput, outcomes: seq<bool>, k: nat)
    requires k < |outcomes|
  {
    !outcomes[k] || input.failAfter == Some(if k % 2 == 0 then "first" else "second")
  }

  /** The first of the activities from `k` on that fails, or `n`. */
  function FirstFailure(input: UserInput, outcomes: seq<bool>, k: nat, n: nat): nat
    requires n <= |outcomes|
    decreases n - k
  {
    if k >= n then n else if Fails(input, outcomes, k) then k else FirstFailure(input, outcomes, k + 1, n)
  }

  /** The last run under a grant: two activities, or fewer if one fails. */
  lemma LastRun(u: User, outcomes: seq<bool>)
    requires u.phase.Using? && u.phase.iteration == "first" && !u.phase.input.continueAsNew && |outcomes| >= 2
    ensures var failure := FirstFailure(u.phase.input, outcomes, 0, 2);
      Drive(u, outcomes) == Story(u.(phase := Releasing), [u.phase.held], if failure == 0 then 1 else 2, 0)
  {
    var v := ActivityEnds(u, outcomes[0]).0;
    assert FirstFailure(u.phase.input, outcomes, 1, 2) >= 1;
    if v.phase.Using? {
      var w := ActivityEnds(v, outcomes[1]).0;
      assert outcomes[1..][0] == outcomes[1];
      assert Drive(w, outcomes[1..][1..]) == Story(w, [], 0, 0);
    } else {
      assert Drive(v, outcomes[1..]) == Story(v, [], 0, 0);
    }
  }

  /** A workflow that continues as new after two activities that did not fail is using the same grant
      in its next run, which will not continue as new. */
  lemma FirstRun(u: User, outcomes: seq<bool>)
    requires u.phase.Using? && u.phase.iteration == "first" && u.phase.input.continueAsNew && |outcomes| >= 4
    ensures var input, failure := u.phase.input, FirstFailure(u.phase.input, outcomes, 0, 2);
      if failure < 2 then Drive(u, outcomes) == Story(u.(phase := Releasing), [u.phase.held], failure + 1, 0)
      else
        var next := User(Using(UserInput(input.failAfter, false, Some(u.phase.held)), u.phase.held, "first"), []);
        var story := Drive(next, outcomes[2..]);
        Drive(u, outcomes) == Story(story.user, story.releases, story.activities + 2, story.begun + 1)
  {
    var v := ActivityEnds(u, outcomes[0]).0;
    if v.phase.Using? {
      var w := ActivityEnds(v, outcomes[1]).0;
      assert outcomes[1..][0] == outcomes[1] && outcomes[1..][1..] == outcomes[2..];
      if w.phase.Starting? {
        var story := Drive(Begin(w).0, outcomes[2..]);
        assert Drive(v, outcomes[1..]) == Story(story.user, [] + story.releases, story.activities + 1, story.begun + 1);
        assert [] + ([] + story.releases) == story.releases;
      } else {
        assert Drive(w, outcomes[2..]) == Story(w, [], 0, 0);
      }
    } else {
      assert Drive(v, outcomes[1..]) == Story(v, [], 0, 0);
    }
  }

  lemma LaterFailure(input: UserInput, next: UserInput, outcomes: seq<bool>)
    requires |outcomes| >= 4 && next.failAfter == input.failAfter && FirstFailure(input, outcomes, 0, 2) == 2
    ensures FirstFailure(input, outcomes, 0, 4) == FirstFailure(next, outcomes[2..], 0, 2) + 2
  {
    assert !Fails(input, outcomes, 0) && FirstFailure(input, outcomes, 1, 2) == 2 && !Fails(input, outcomes, 1);
    assert Fails(input, outcomes, 2) <==> Fails(next, outcomes[2..], 0);
    assert Fails(input, outcomes, 3) <==> Fails(next, outcomes[2..], 1);
    assert FirstFailure(input, outcomes, 4, 4) == 4 && FirstFailure(next, outcomes[2..], 2, 2) == 2;
    assert FirstFailure(input, outcomes, 0, 4) == FirstFailure(input, outcomes, 2, 4);
  }

  /** Under one grant a workflow ends at most four activities, two if it was not asked to continue as
      new, and none after one that fails; then it has sent exactly one release signal, for that grant.
      A second run under the same grant begins if and only if it was asked for and neither of the
      first two activities failed. */
  lemma OneRelease(u: User, outcomes: seq<bool>)
    requires u.phase.Using? && u.phase.iteration == "first" && |outcomes| >= 4
    ensures var story, input := Drive(u, outcomes), u.phase.input;
      var limit := if input.continueAsNew then 4 else 2;
      var failure := FirstFailure(input, outcomes, 0, limit);
      && story.user == User(Releasing, if story.begun == 1 then [] else u.queue)
      && story.releases == [u.phase.held]
      && story.activities == (if failure < limit then failure + 1 else limit)
      && story.begun == (if input.continueAsNew && FirstFailure(input, outcomes, 0, 2) == 2 then 1 else 0)
  {
    var input := u.phase.input;
    assert FirstFailure(input, outcomes, 2, 2) == 2;
    if !input.continueAsNew {
      LastRun(u, outcomes);
    } else {
      FirstRun(u, outcomes);
      if FirstFailure(input, outcomes, 0, 2) == 2 {
        var next := UserInput(input.failAfter, false, Some(u.phase.held));
        LaterFailure(input, next, outcomes);
        LastRun(User(Using(next, u.phase.held, "first"), []), outcomes[2..]);
      } else {
        assert FirstFailure(input, outcomes, 0, 4) == FirstFailure(input, outcomes, 0, 2);
      }
    }
  }

  /** A failed activity, at any point, leads to the release. */
  lemma FailureReleases(u: User)
    requires u.phase.Using?
    ensures ActivityEnds(u, false) == (User(Releasing, u.queue), Some(u.phase.held))
  {}

  class AcquiredResource {
    const resource: Resource
    const releaseKey: Key
    var detached: bool

    constructor (g: Grant)
      ensures this.resource == g.resource && this.releaseKey == g.key && !detached
    {
      resource, releaseKey, detached := g.resource, g.key, false;
    }

    method Detach() returns (d: Grant)
      modifies this
      ensures detached && d == Grant(resource, releaseKey)
    {
      detached := true;
      d := Grant(resource, releaseKey);
    }
  }

  datatype Position = NotOpen | AtStart | AtWait | InBlock(iteration: string) | AtRelease

  /** One workflow id; the methods are the stretches of `run` between awaits. */
  class ResourceUserWorkflow {
    var position: Position
    var input: UserInput
    var acquiredResources: seq<Grant>
    var current: AcquiredResource?

    ghost predicate Valid()
      reads this, current
    {
      position.InBlock? ==> current != null && !current.detached
    }

    ghost function View(): User
      requires Valid()
      reads this, current
    {
      User(match position
           case NotOpen => Closed
           case AtStart => Starting(input)
           case AtWait => Waiting(input)
           case InBlock(iteration) => Using(input, Grant(current.resource, current.releaseKey), iteration)
           case AtRelease => Releasing,
           acquiredResources)
    }

    constructor (input: UserInput)
      ensures Valid() && View() == User(Starting(input), [])
    {
      position, this.input, acquiredResources, current := AtStart, input, [], null;
    }

    method HandleAcquireResponse(g: Grant)
      requires Valid()
      modifies this`acquiredResources
      ensures Valid() && View() == Receive(old(View()), g)
    {
      acquiredResources := acquiredResources + [g];
    }

    method BeginRun() returns (sendAcquire: bool)
      requires Valid() && position.AtStart?
      modifies this
      ensures Valid() && (View(), sendAcquire) == Begin(old(View()))
    {
      match input.acquired
      case None =>
        position := AtWait;
        return true;
      case Some(g) =>
        current := new AcquiredResource(g);
        position := InBlock(FIRST);
        return false;
    }

    method TakeFirst()
      requires Valid() && position.AtWait? && acquiredResources != []
      modifies this
      ensures Valid() && View() == Take(old(View()))
    {
      current := new AcquiredResource(acquiredResources[0]);
      acquiredResources := acquiredResources[1..];
      position := InBlock(FIRST);
    }

    /** An activity ends; leaving the block runs its `finally`, which releases unless detached. */
    method ActivityEnded(succeeded: bool) returns (release: Option<Grant>)
      requires Valid() && position.InBlock?
      modifies this, current
      ensures Valid() && (View(), release) == ActivityEnds(old(View()), succeeded)
    {
      var iteration := position.iteration;
      if succeeded && input.failAfter != Some(iteration) {
        if iteration == FIRST {
          position := InBlock(SECOND);
          return None;
        }
        if input.continueAsNew {
          var detached := current.Detach();
          input := UserInput(input.failAfter, false, Some(detached));
        }
      }
      if !current.detached {
        position := AtRelease;
        return Some(Grant(current.resource, current.releaseKey));
      }
      position, acquiredResources := AtStart, [];
      return None;
    }
  }
}
