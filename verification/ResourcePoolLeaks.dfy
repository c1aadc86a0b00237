/**
 Two runs of the lock protocol that come to rest with the resource still held: a release that beats
 its acknowledgement, and a grant that a closing run never took.
 */
module ResourcePoolLeaks {
  import opened Wrappers
  import opened ResourcePool
  import opened ResourceUser
  import opened ResourcePoolSystem

  /** A user whose workflow fails after its first activity. */
  const FAILING := UserInput(Some(FIRST), false, None)

  function Fresh(waiters: seq<Request>): System {
    System(Pool(["r"], map["r" := None], waiters, map[], Idle),
           NoSignal, map[], multiset{}, multiset{}, {}, {}, waiters, [])
  }

  lemma FreshInitial(waiters: seq<Request>)
    ensures Initial(Fresh(waiters))
  {
    assert ["r"][..0] == [];
    assert RebuildKeys([], map["r" := None]) == map[];
    assert RebuildKeys(["r"], map["r" := None]) == map[];
  }

  lemma ClosedQuiescent(t: System)
    requires t.pool.phase.Idle? && t.releases == multiset{} && t.users == map["w" := User(Closed, [])]
    ensures Quiescent(t)
  {
    forall p ensures GrantAt(t, p).None? {}
  }

  const ASKED := Request("w", None)

  /** The pool's one resource as free, being granted, and held. */
  function FreePool(waiters: seq<Request>): Pool {
    Pool(["r"], map["r" := None], waiters, map[], Idle)
  }

  function GrantingPool(waiters: seq<Request>, k: Key): Pool {
    FreePool(waiters).(phase := Awaiting("r", ASKED, k))
  }

  function HoldingPool(waiters: seq<Request>, k: Key): Pool {
    Pool(["r"], map["r" := Some(Request("w", Some(k)))], waiters, map[k := "r"], Idle)
  }

  function OneUser(phase: UserPhase, queue: seq<Grant>): map<WorkflowId, User> {
    map["w" := User(phase, queue)]
  }

  // ----- A user that asks -----

  const ASKS: seq<Step> := [OpenUser("w", FAILING)] + [BeginUser("w")] + [AcquireArrives("w")]

  function Asking(before: seq<Request>): System {
    Fresh(before).(pool := FreePool(before + [ASKED]), users := OneUser(Waiting(FAILING), []), received := before + [ASKED])
  }

  lemma Asks(before: seq<Request>)
    ensures Reaches(Fresh(before), ASKS, Asking(before))
  {
    var s := Fresh(before);
    var s1 := s.(users := OneUser(Starting(FAILING), []));
    var s2 := s.(users := OneUser(Waiting(FAILING), []), acquires := multiset{"w"});
    Once(s, OpenUser("w", FAILING));
    assert s1.users["w" := User(Waiting(FAILING), [])] == s2.users;
    Once(s1, BeginUser("w"));
    Once(s2, AcquireArrives("w"));
    assert multiset{"w"} - multiset{"w"} == multiset{};
    ReachesOn(s, [OpenUser("w", FAILING)], s1, [BeginUser("w")], s2);
    ReachesOn(s, [OpenUser("w", FAILING)] + [BeginUser("w")], s2, [AcquireArrives("w")], Asking(before));
  }

  // ----- What grant, use and acknowledgement come to -----

  function Granted(s: System, waiters: seq<Request>, k: Key): System {
    s.(pool := GrantingPool(waiters, k), delivery := Delivered, issued := s.issued + {k}, served := s.served + [ASKED],
       users := s.users["w" := Receive(UserOf(s, "w"), Grant("r", k))])
  }

  lemma Grants(s: System, waiters: seq<Request>, k: Key)
    requires s.pool == FreePool([ASKED] + waiters) && k !in s.issued && !UserOf(s, "w").phase.Closed?
    ensures Reaches(s, [PoolPass(false, k), SignalArrives], Granted(s, waiters, k))
  {
    assert FirstFree(["r"], map["r" := None]) == Some("r");
    assert ([ASKED] + waiters)[1..] == waiters;
    var sent := Apply(s, PoolPass(false, k));
    assert sent == s.(pool := GrantingPool(waiters, k), delivery := InTransit, issued := s.issued + {k},
                      served := s.served + [ASKED]);
    assert Reaches(Apply(sent, SignalArrives), [], Granted(s, waiters, k));
    assert Reaches(sent, [SignalArrives], Granted(s, waiters, k));
    assert [PoolPass(false, k), SignalArrives][1..] == [SignalArrives];
  }

  lemma Settles(s: System, waiters: seq<Request>, k: Key)
    requires s.pool == GrantingPool(waiters, k) && s.delivery.Delivered?
    ensures Reaches(s, [SignalSettles], s.(pool := HoldingPool(waiters, k), delivery := NoSignal))
  {
    assert map["r" := None]["r" := Some(Request("w", Some(k)))] == HoldingPool(waiters, k).resources;
    assert Apply(s, SignalSettles) == s.(pool := HoldingPool(waiters, k), delivery := NoSignal);
    assert [SignalSettles][1..] == [];
  }

  function Used(s: System, k: Key): System {
    s.(users := s.users["w" := User(Releasing, [])], releases := s.releases + multiset{k}, released := s.released + {k})
  }

  lemma Uses(s: System, k: Key)
    requires UserOf(s, "w") == User(Waiting(FAILING), [Grant("r", k)])
    ensures Reaches(s, [TakeGrant("w"), ActivityDone("w", true)], Used(s, k))
  {
    var taken := Apply(s, TakeGrant("w"));
    assert UserOf(taken, "w") == User(Using(FAILING, Grant("r", k), FIRST), []);
    assert s.users["w" := UserOf(taken, "w")]["w" := User(Releasing, [])] == s.users["w" := User(Releasing, [])];
    assert Apply(taken, ActivityDone("w", true)) == Used(s, k);
    assert Reaches(taken, [ActivityDone("w", true)], Used(s, k));
    assert [TakeGrant("w"), ActivityDone("w", true)][1..] == [ActivityDone("w", true)];
  }

  // ----- A release that beats the acknowledgement -----

  const OVERTAKES: seq<Step> :=
    [PoolPass(false, "k"), SignalArrives] + [TakeGrant("w"), ActivityDone("w", true)] + [ReleaseArrives("k")] +
    [SignalSettles] + [CloseUser("w")]

  function Overtaken(): System {
    System(HoldingPool([], "k"), NoSignal, OneUser(Closed, []), multiset{}, multiset{}, {"k"}, {"k"}, [ASKED], [ASKED])
  }

  lemma Overtakes()
    ensures Reaches(Asking([]), OVERTAKES, Overtaken())
  {
    var s := Asking([]);
    assert [ASKED] + [] == [ASKED] == [] + [ASKED];
    Grants(s, [], "k");
    var s1 := Granted(s, [], "k");
    Uses(s1, "k");
    var s2 := Used(s1, "k");
    Once(s2, ReleaseArrives("k"));
    var s3 := s2.(releases := s2.releases - multiset{"k"});
    Settles(s3, [], "k");
    var s4 := s3.(pool := HoldingPool([], "k"), delivery := NoSignal);
    Once(s4, CloseUser("w"));
    var s5 := s4.(users := s4.users["w" := User(Closed, [])]);
    assert s5.users == OneUser(Closed, []);
    assert s5 == Overtaken();
    var p1, p2 := [PoolPass(false, "k"), SignalArrives], [TakeGrant("w"), ActivityDone("w", true)];
    ReachesOn(s, p1, s1, p2, s2);
    ReachesOn(s, p1 + p2, s2, [ReleaseArrives("k")], s3);
    ReachesOn(s, p1 + p2 + [ReleaseArrives("k")], s3, [SignalSettles], s4);
    ReachesOn(s, p1 + p2 + [ReleaseArrives("k")] + [SignalSettles], s4, [CloseUser("w")], s5);
  }

  /** The pool ignores the release, then records the grant, and nobody is left to release it. */
  lemma EarlyReleaseLeaks()
    ensures Initial(Fresh([])) && Reaches(Fresh([]), ASKS + OVERTAKES, Overtaken()) && Quiescent(Overtaken())
    ensures LostAlong(Fresh([]), ASKS + OVERTAKES, {}) == {"k"}
  {
    FreshInitial([]);
    Asks([]);
    Overtakes();
    ReachesOn(Fresh([]), ASKS, Asking([]), OVERTAKES, Overtaken());
    ClosedQuiescent(Overtaken());
    NoLeak(Fresh([]), ASKS + OVERTAKES, Overtaken());
  }

  // ----- A grant that a closing run never took -----

  const FIRST_GRANT: seq<Step> :=
    [PoolPass(false, "k"), SignalArrives] + [SignalSettles] + [TakeGrant("w"), ActivityDone("w", true)] +
    [ReleaseArrives("k")]
  const SECOND_GRANT: seq<Step> := [PoolPass(false, "l"), SignalArrives] + [SignalSettles] + [CloseUser("w")]

  function Released(): System {
    System(FreePool([ASKED]), NoSignal, OneUser(Releasing, []), multiset{}, multiset{}, {"k"}, {"k"},
           [ASKED, ASKED], [ASKED])
  }

  function Dropped(): System {
    System(HoldingPool([], "l"), NoSignal, OneUser(Closed, []), multiset{}, multiset{}, {"k"}, {"k", "l"},
           [ASKED, ASKED], [ASKED, ASKED])
  }

  function FirstHeld(): System {
    System(HoldingPool([ASKED], "k"), NoSignal, OneUser(Waiting(FAILING), [Grant("r", "k")]), multiset{}, multiset{},
           {}, {"k"}, [ASKED, ASKED], [ASKED])
  }

  lemma FirstTaken()
    ensures Reaches(Asking([ASKED]), [PoolPass(false, "k"), SignalArrives] + [SignalSettles], FirstHeld())
  {
    var s := Asking([ASKED]);
    assert [ASKED] + [ASKED] == [ASKED, ASKED];
    Grants(s, [ASKED], "k");
    var s1 := Granted(s, [ASKED], "k");
    Settles(s1, [ASKED], "k");
    assert Receive(User(Waiting(FAILING), []), Grant("r", "k")) == User(Waiting(FAILING), [Grant("r", "k")]);
    assert s1.users == FirstHeld().users;
    assert s1.(pool := HoldingPool([ASKED], "k"), delivery := NoSignal) == FirstHeld();
    ReachesOn(s, [PoolPass(false, "k"), SignalArrives], s1, [SignalSettles], FirstHeld());
  }

  lemma FirstReleased()
    ensures Reaches(FirstHeld(), [TakeGrant("w"), ActivityDone("w", true)] + [ReleaseArrives("k")], Released())
  {
    var s := FirstHeld();
    Uses(s, "k");
    var s1 := Used(s, "k");
    Once(s1, ReleaseArrives("k"));
    assert Release(s1.pool, "k") == FreePool([ASKED]) by {
      assert s1.pool.resources["r" := None] == map["r" := None] && s1.pool.keys - {"k"} == map[];
    }
    var s2 := s1.(releases := s1.releases - multiset{"k"}, pool := FreePool([ASKED]));
    assert s2.users == OneUser(Releasing, []);
    assert s2 == Released();
    ReachesOn(s, [TakeGrant("w"), ActivityDone("w", true)], s1, [ReleaseArrives("k")], s2);
  }

  lemma FirstGrant()
    ensures Reaches(Asking([ASKED]), FIRST_GRANT, Released())
  {
    FirstTaken();
    FirstReleased();
    var p1 := [PoolPass(false, "k"), SignalArrives] + [SignalSettles];
    var p2 := [TakeGrant("w"), ActivityDone("w", true)] + [ReleaseArrives("k")];
    ReachesOn(Asking([ASKED]), p1, FirstHeld(), p2, Released());
    assert p1 + p2 == FIRST_GRANT;
  }

  lemma SecondGrant()
    ensures Reaches(Released(), SECOND_GRANT, Dropped())
  {
    var s := Released();
    assert [ASKED] + [] == [ASKED];
    Grants(s, [], "l");
    var s1 := Granted(s, [], "l");
    Settles(s1, [], "l");
    var s2 := s1.(pool := HoldingPool([], "l"), delivery := NoSignal);
    Once(s2, CloseUser("w"));
    var s3 := s2.(users := s2.users["w" := User(Closed, [])]);
    assert s3.users == OneUser(Closed, []);
    assert s3 == Dropped();
    var p1 := [PoolPass(false, "l"), SignalArrives];
    ReachesOn(s, p1, s1, [SignalSettles], s2);
    ReachesOn(s, p1 + [SignalSettles], s2, [CloseUser("w")], s3);
  }

  /** A workflow id asked twice, once in an earlier run; the second grant reaches a run that is
      already on its way out. */
  lemma QueuedGrantLeaks()
    ensures Initial(Fresh([ASKED])) && Quiescent(Dropped())
    ensures Reaches(Fresh([ASKED]), ASKS + FIRST_GRANT + SECOND_GRANT, Dropped())
    ensures LostAlong(Fresh([ASKED]), ASKS + FIRST_GRANT + SECOND_GRANT, {}) == {"l"}
  {
    FreshInitial([ASKED]);
    Asks([ASKED]);
    FirstGrant();
    SecondGrant();
    ReachesOn(Fresh([ASKED]), ASKS, Asking([ASKED]), FIRST_GRANT, Released());
    ReachesOn(Fresh([ASKED]), ASKS + FIRST_GRANT, Released(), SECOND_GRANT, Dropped());
    ClosedQuiescent(Dropped());
    NoLeak(Fresh([ASKED]), ASKS + FIRST_GRANT + SECOND_GRANT, Dropped());
  }
}
