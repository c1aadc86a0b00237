/**
 `RedisStorageDriver.store` and `retrieve`: content-addressed writes that many store calls make
 concurrently, each set-if-absent being one atomic step.
 */
module RedisStore {
  import opened Wrappers
  import opened Payloads
  import opened RedisKey

  /** The driver's configuration and the library functions it relies on. */
  datatype Driver = Driver(
    prefix: string,
    maxPayloadSize: int,
    serialize: Payload -> Bytes,
    parse: Bytes -> Payload,
    sha256: Bytes -> string)

  /** Parsing undoes serializing, and a digest is hexadecimal text. */
  ghost predicate Faithful(driver: Driver) {
    && (forall p :: driver.parse(driver.serialize(p)) == p)
    && (forall b :: driver.sha256(b) != "" && ':' !in driver.sha256(b))
  }

  datatype Claim = Claim(key: string, hashAlgorithm: string, hashValue: string)

  datatype Error = NotFound | UnsupportedAlgorithm | IntegrityCheckFailed

  type Database = map<string, Bytes>

  function ClaimFor(driver: Driver, target: Target, p: Payload): Claim {
    var digest := driver.sha256(driver.serialize(p));
    Claim(Key(driver.prefix, target, digest), "sha256", digest)
  }

  function SetIfAbsent(db: Database, key: string, data: Bytes): Database {
    if key in db then db else db[key := data]
  }

  function RetrieveOne(driver: Driver, db: Database, claim: Claim): Result<Payload, Error> {
    if claim.key !in db then Err(NotFound)
    else if claim.hashValue != "" && claim.hashAlgorithm != "" && claim.hashAlgorithm != "sha256" then Err(UnsupportedAlgorithm)
    else if claim.hashValue != "" && claim.hashAlgorithm != "" && driver.sha256(db[claim.key]) != claim.hashValue then
      Err(IntegrityCheckFailed)
    else Ok(driver.parse(db[claim.key]))
  }

  /** One claim, in full: a missing value first, then, only for a claim with digest and algorithm, an
      algorithm other than SHA-256, then a value of another digest. */
  lemma RetrievesExactly(driver: Driver, db: Database, claim: Claim)
    ensures var result := RetrieveOne(driver, db, claim);
      var checked := claim.hashValue != "" && claim.hashAlgorithm != "";
      && (result == Err(NotFound) <==> claim.key !in db)
      && (result == Err(UnsupportedAlgorithm) <==> claim.key in db && checked && claim.hashAlgorithm != "sha256")
      && (result == Err(IntegrityCheckFailed) <==>
            claim.key in db && checked && claim.hashAlgorithm == "sha256" && driver.sha256(db[claim.key]) != claim.hashValue)
      && (result.Ok? ==> result == Ok(driver.parse(db[claim.key])))
  {}

  /** The payloads of all claims, in order, if every one can be fetched. Which of several failures a
      call reports depends on time; see `RetrieveAll`. */
  function Retrieve(driver: Driver, db: Database, claims: seq<Claim>): Result<seq<Payload>, Error> {
    if claims == [] then Ok([])
    else
      match Retrieve(driver, db, claims[..|claims| - 1])
      case Err(e) => Err(e)
      case Ok(payloads) =>
        match RetrieveOne(driver, db, claims[|claims| - 1])
        case Err(e) => Err(e)
        case Ok(p) => Ok(payloads + [p])
  }

  /** `arrival` is the order in time in which the fetches end; the first failure ends the call, and
      the results are put in the order of the claims. */
  method RetrieveAll(driver: Driver, db: Database, claims: seq<Claim>, arrival: seq<nat>)
    returns (result: Result<seq<Payload>, Error>)
    requires forall i: nat :: i < |claims| <==> i in arrival
    ensures result.Ok? <==> forall i :: 0 <= i < |claims| ==> RetrieveOne(driver, db, claims[i]).Ok?
    ensures result.Ok? ==> result == Retrieve(driver, db, claims)
    ensures result.Err? ==> exists k :: FailsFirst(driver, db, claims, arrival, k, result.error)
  {
    for k := 0 to |arrival|
      invariant forall j :: 0 <= j < k ==> arrival[j] < |claims| && RetrieveOne(driver, db, claims[arrival[j]]).Ok?
    {
      assert arrival[k] in arrival;
      var one := RetrieveOne(driver, db, claims[arrival[k]]);
      if one.Err? {
        assert FailsFirst(driver, db, claims, arrival, k, one.error);
        return Err(one.error);
      }
    }
    forall i: nat | i < |claims| ensures RetrieveOne(driver, db, claims[i]).Ok? {
      assert i in arrival;
      var j :| 0 <= j < |arrival| && arrival[j] == i;
    }
    RetrieveEach(driver, db, claims);
    var payloads := [];
    for i := 0 to |claims|
      invariant payloads == Retrieve(driver, db, claims).value[..i]
    {
      payloads := payloads + [RetrieveOne(driver, db, claims[i]).value];
    }
    assert payloads == Retrieve(driver, db, claims).value;
    return Ok(payloads);
  }

  /** Of the fetches that fail, the `k`-th to end is the first, with this error. */
  ghost predicate FailsFirst(driver: Driver, db: Database, claims: seq<Claim>, arrival: seq<nat>, k: nat, error: Error) {
    && k < |arrival| && arrival[k] < |claims| && RetrieveOne(driver, db, claims[arrival[k]]) == Err(error)
    && forall j :: 0 <= j < k ==> arrival[j] < |claims| && RetrieveOne(driver, db, claims[arrival[j]]).Ok?
  }

  lemma {:induction false} RetrieveEach(driver: Driver, db: Database, claims: seq<Claim>)
    ensures Retrieve(driver, db, claims).Ok? <==> forall i :: 0 <= i < |claims| ==> RetrieveOne(driver, db, claims[i]).Ok?
    ensures Retrieve(driver, db, claims).Ok? ==>
      && |Retrieve(driver, db, claims).value| == |claims|
      && forall i :: 0 <= i < |claims| ==> RetrieveOne(driver, db, claims[i]) == Ok(Retrieve(driver, db, claims).value[i])
  {
    if claims != [] {
      RetrieveEach(driver, db, claims[..|claims| - 1]);
      assert claims == claims[..|claims| - 1] + [claims[|claims| - 1]];
    }
  }

  predicate Honoured(driver: Driver, db: Database, claim: Claim) {
    claim.key in db && claim.hashAlgorithm == "sha256" && driver.sha256(db[claim.key]) == claim.hashValue
  }

  /** Whatever the database holds, claims that carry digests are retrieved exactly when each finds
      bytes of its digest, and every payload returned is parsed from bytes of its claim's digest. */
  lemma Integrity(driver: Driver, db: Database, claims: seq<Claim>)
    requires forall i :: 0 <= i < |claims| ==> claims[i].hashValue != "" && claims[i].hashAlgorithm != ""
    ensures Retrieve(driver, db, claims).Ok? <==> forall i :: 0 <= i < |claims| ==> Honoured(driver, db, claims[i])
    ensures Retrieve(driver, db, claims).Ok? ==>
      && |Retrieve(driver, db, claims).value| == |claims|
      && forall i :: 0 <= i < |claims| ==>
           exists bytes :: driver.sha256(bytes) == claims[i].hashValue
                           && Retrieve(driver, db, claims).value[i] == driver.parse(bytes)
  {
    RetrieveEach(driver, db, claims);
    forall i | 0 <= i < |claims|
      ensures RetrieveOne(driver, db, claims[i]).Ok? <==> Honoured(driver, db, claims[i])
    {}
    if Retrieve(driver, db, claims).Ok? {
      forall i | 0 <= i < |claims|
        ensures exists bytes :: driver.sha256(bytes) == claims[i].hashValue
                                && Retrieve(driver, db, claims).value[i] == driver.parse(bytes)
      {
        assert RetrieveOne(driver, db, claims[i]) == Ok(driver.parse(db[claims[i].key]));
      }
    }
  }

  // ----- Concurrent store calls -----

  /** One store call: a task per payload. A call fails when a task does; what its other tasks have
      written stays written, and they may still write until their cancellation is seen. */
  datatype Call = Call(target: Target, payloads: seq<Payload>, written: set<nat>, failed: bool)

  /** `offered` is history: what was ever handed to set-if-absent, and for which scope. */
  datatype System = System(db: Database, calls: map<nat, Call>, offered: set<(Target, Bytes)>)

  datatype Step =
    | BeginStore(call: nat, target: Target, payloads: seq<Payload>)
    | WriteOne(call: nat, i: nat)
    | FailOne(call: nat, i: nat)

  predicate Enabled(driver: Driver, s: System, step: Step) {
    match step
    case BeginStore(call, _, _) => call !in s.calls
    case WriteOne(call, i) =>
      && call in s.calls && i < |s.calls[call].payloads| && i !in s.calls[call].written
      && |driver.serialize(s.calls[call].payloads[i])| <= driver.maxPayloadSize
    case FailOne(call, i) => call in s.calls && i < |s.calls[call].payloads| && i !in s.calls[call].written
  }

  function Apply(driver: Driver, s: System, step: Step): System
    requires Enabled(driver, s, step)
  {
    match step
    case BeginStore(call, target, payloads) => s.(calls := s.calls[call := Call(target, payloads, {}, false)])
    case WriteOne(call, i) =>
      var c := s.calls[call];
      var bytes := driver.serialize(c.payloads[i]);
      System(SetIfAbsent(s.db, Key(driver.prefix, c.target, driver.sha256(bytes)), bytes),
             s.calls[call := c.(written := c.written + {i})],
             s.offered + {(c.target, bytes)})
    case FailOne(call, i) => s.(calls := s.calls[call := s.calls[call].(failed := true)])
  }

  predicate Reaches(driver: Driver, s: System, steps: seq<Step>, t: System)
    decreases |steps|
  {
    if steps == [] then s == t
    else Enabled(driver, s, steps[0]) && Reaches(driver, Apply(driver, s, steps[0]), steps[1..], t)
  }

  const EMPTY := System(map[], map[], {})

  /** The call has returned its claims: every task wrote and none failed. */
  predicate Succeeded(s: System, call: nat) {
    && call in s.calls && !s.calls[call].failed
    && forall i: nat :: i < |s.calls[call].payloads| ==> i in s.calls[call].written
  }

  function Claims(driver: Driver, target: Target, payloads: seq<Payload>): seq<Claim> {
    seq(|payloads|, i requires 0 <= i < |payloads| => ClaimFor(driver, target, payloads[i]))
  }

  /** `value` was offered under `key`, whose digest is therefore its hash. */
  ghost predicate OfferedAs(driver: Driver, offered: set<(Target, Bytes)>, key: string, value: Bytes) {
    exists target :: (target, value) in offered && key == Key(driver.prefix, target, driver.sha256(value))
  }

  ghost predicate Addressed(driver: Driver, s: System) {
    forall key :: key in s.db ==> OfferedAs(driver, s.offered, key, s.db[key])
  }

  ghost predicate TaskWritten(driver: Driver, s: System, c: Call, i: nat) {
    && i < |c.payloads|
    && ClaimFor(driver, c.target, c.payloads[i]).key in s.db
    && (c.target, driver.serialize(c.payloads[i])) in s.offered
  }

  ghost predicate Written(driver: Driver, s: System) {
    forall call, i :: call in s.calls && i in s.calls[call].written ==> TaskWritten(driver, s, s.calls[call], i)
  }

  /** `t` has everything `s` has, unchanged. */
  ghost predicate Extends(s: System, t: System) {
    && (forall key :: key in s.db ==> key in t.db && t.db[key] == s.db[key])
    && s.offered <= t.offered
  }

  lemma AddressedGrows(driver: Driver, s: System, target: Target, bytes: Bytes, t: System)
    requires Addressed(driver, s)
    requires t.db == SetIfAbsent(s.db, Key(driver.prefix, target, driver.sha256(bytes)), bytes)
    requires t.offered == s.offered + {(target, bytes)}
    ensures Addressed(driver, t)
  {
    forall key | key in t.db ensures OfferedAs(driver, t.offered, key, t.db[key]) {
      if key in s.db {
        var who :| (who, s.db[key]) in s.offered && key == Key(driver.prefix, who, driver.sha256(s.db[key]));
        assert (who, t.db[key]) in t.offered;
      } else {
        assert (target, bytes) in t.offered;
      }
    }
  }

  lemma StepKeeps(driver: Driver, s: System, step: Step)
    requires Addressed(driver, s) && Written(driver, s) && Enabled(driver, s, step)
    ensures var t := Apply(driver, s, step); Addressed(driver, t) && Written(driver, t) && Extends(s, t)
  {
    var t := Apply(driver, s, step);
    if step.WriteOne? {
      var c := s.calls[step.call];
      AddressedGrows(driver, s, c.target, driver.serialize(c.payloads[step.i]), t);
      forall call, i | call in t.calls && i in t.calls[call].written ensures TaskWritten(driver, t, t.calls[call], i) {
        if call != step.call || i != step.i {
          assert TaskWritten(driver, s, s.calls[call], i);
        }
      }
    } else {
      forall call, i | call in t.calls && i in t.calls[call].written ensures TaskWritten(driver, t, t.calls[call], i) {
        assert TaskWritten(driver, s, s.calls[call], i);
      }
    }
  }

  /** Stores only ever add: no interleaving changes a value, and every key's digest stays the hash
      of its value. */
  lemma {:induction false} RunKeeps(driver: Driver, s: System, steps: seq<Step>, t: System)
    requires Addressed(driver, s) && Written(driver, s) && Reaches(driver, s, steps, t)
    ensures Addressed(driver, t) && Written(driver, t) && Extends(s, t)
    decreases |steps|
  {
    if steps != [] {
      StepKeeps(driver, s, steps[0]);
      RunKeeps(driver, Apply(driver, s, steps[0]), steps[1..], t);
    }
  }

  /** No other bytes offered in the payload's own scope have the payload's digest; what other scopes
      hold does not matter. */
  ghost predicate NoCollision(driver: Driver, offered: set<(Target, Bytes)>, target: Target, p: Payload) {
    forall a :: a in offered && Normal(a.0) == Normal(target) && driver.sha256(a.1) == driver.sha256(driver.serialize(p))
      ==> a.1 == driver.serialize(p)
  }

  ghost predicate NoneCollides(driver: Driver, offered: set<(Target, Bytes)>, target: Target, payloads: seq<Payload>) {
    forall i :: 0 <= i < |payloads| ==> NoCollision(driver, offered, target, payloads[i])
  }

  /** Under a claim's key there is a value with the claim's digest, offered in the claim's scope. */
  lemma ValueUnderClaim(driver: Driver, t: System, target: Target, p: Payload)
    requires Faithful(driver) && Addressed(driver, t) && ClaimFor(driver, target, p).key in t.db
    ensures var value := t.db[ClaimFor(driver, target, p).key];
      && driver.sha256(value) == driver.sha256(driver.serialize(p))
      && exists who :: (who, value) in t.offered && Normal(who) == Normal(target)
  {
    var key := ClaimFor(driver, target, p).key;
    assert OfferedAs(driver, t.offered, key, t.db[key]);
    var who :| (who, t.db[key]) in t.offered && key == Key(driver.prefix, who, driver.sha256(t.db[key]));
    KeysDetermine(driver.prefix, who, driver.sha256(t.db[key]), target, driver.sha256(driver.serialize(p)));
  }

  lemma RetrievesBack(driver: Driver, t: System, target: Target, p: Payload)
    requires Faithful(driver) && Addressed(driver, t) && ClaimFor(driver, target, p).key in t.db
    ensures RetrieveOne(driver, t.db, ClaimFor(driver, target, p)).Ok?
    ensures NoCollision(driver, t.offered, target, p) ==> RetrieveOne(driver, t.db, ClaimFor(driver, target, p)) == Ok(p)
  {
    ValueUnderClaim(driver, t, target, p);
    var value := t.db[ClaimFor(driver, target, p).key];
    var who :| (who, value) in t.offered && Normal(who) == Normal(target);
    assert NoCollision(driver, t.offered, target, p) ==> (who, value).1 == driver.serialize(p);
  }

  lemma {:induction false} WrittenStays(driver: Driver, s: System, steps: seq<Step>, t: System, call: nat)
    requires Reaches(driver, s, steps, t) && call in s.calls
    ensures call in t.calls && t.calls[call].target == s.calls[call].target && t.calls[call].payloads == s.calls[call].payloads
    ensures s.calls[call].written <= t.calls[call].written
    decreases |steps|
  {
    if steps != [] {
      WrittenStays(driver, Apply(driver, s, steps[0]), steps[1..], t, call);
    }
  }

  lemma ClaimsRetrieved(driver: Driver, t: System, target: Target, payloads: seq<Payload>)
    requires Faithful(driver) && Addressed(driver, t)
    requires forall i :: 0 <= i < |payloads| ==> ClaimFor(driver, target, payloads[i]).key in t.db
    ensures var result := Retrieve(driver, t.db, Claims(driver, target, payloads));
      result.Ok? && (NoneCollides(driver, t.offered, target, payloads) ==> result == Ok(payloads))
  {
    var claims := Claims(driver, target, payloads);
    forall i | 0 <= i < |claims|
      ensures RetrieveOne(driver, t.db, claims[i]).Ok?
      ensures NoCollision(driver, t.offered, target, payloads[i]) ==> RetrieveOne(driver, t.db, claims[i]) == Ok(payloads[i])
    {
      RetrievesBack(driver, t, target, payloads[i]);
    }
    RetrieveEach(driver, t.db, claims);
    if NoneCollides(driver, t.offered, target, payloads) {
      assert Retrieve(driver, t.db, claims).value == payloads;
    }
  }

  /** A store call that succeeded can be retrieved after any further stores, in order, unless other
      bytes offered in its own scope collide with one of its payloads. Collision or not, retrieval
      never fails. */
  lemma StoreThenRetrieve(driver: Driver, before: seq<Step>, s: System, call: nat, after: seq<Step>, t: System)
    requires Faithful(driver)
    requires Reaches(driver, EMPTY, before, s) && Succeeded(s, call) && Reaches(driver, s, after, t)
    ensures var c := s.calls[call];
      var result := Retrieve(driver, t.db, Claims(driver, c.target, c.payloads));
      && result.Ok?
      && (NoneCollides(driver, t.offered, c.target, c.payloads) ==> result == Ok(c.payloads))
  {
    RunKeeps(driver, EMPTY, before, s);
    RunKeeps(driver, s, after, t);
    WrittenStays(driver, s, after, t, call);
    var c := s.calls[call];
    forall i: nat | i < |c.payloads| ensures ClaimFor(driver, c.target, c.payloads[i]).key in t.db {
      assert i in t.calls[call].written;
      assert TaskWritten(driver, t, t.calls[call], i);
    }
    ClaimsRetrieved(driver, t, c.target, c.payloads);
  }

  // ----- Which calls can succeed -----

  ghost predicate Fits(driver: Driver, payloads: seq<Payload>) {
    forall i :: 0 <= i < |payloads| ==> |driver.serialize(payloads[i])| <= driver.maxPayloadSize
  }

  ghost predicate WrittenFits(driver: Driver, s: System) {
    forall call, i :: call in s.calls && i in s.calls[call].written ==>
      i < |s.calls[call].payloads| && |driver.serialize(s.calls[call].payloads[i])| <= driver.maxPayloadSize
  }

  lemma {:induction false} OnlyFittingWritten(driver: Driver, s: System, steps: seq<Step>, t: System)
    requires WrittenFits(driver, s) && Reaches(driver, s, steps, t)
    ensures WrittenFits(driver, t)
    decreases |steps|
  {
    if steps != [] {
      OnlyFittingWritten(driver, Apply(driver, s, steps[0]), steps[1..], t);
    }
  }

  /** The tasks of a call that has written its first `k` payloads. */
  lemma {:induction false} WriteRest(driver: Driver, s: System, call: nat, k: nat) returns (steps: seq<Step>, t: System)
    requires call in s.calls && !s.calls[call].failed && k <= |s.calls[call].payloads|
    requires Fits(driver, s.calls[call].payloads) && forall i: nat :: i in s.calls[call].written <==> i < k
    ensures Reaches(driver, s, steps, t) && Succeeded(t, call) && t.calls[call].payloads == s.calls[call].payloads
    decreases |s.calls[call].payloads| - k
  {
    if k == |s.calls[call].payloads| {
      return [], s;
    }
    var step := WriteOne(call, k);
    var next := Apply(driver, s, step);
    var rest;
    rest, t := WriteRest(driver, next, call, k + 1);
    steps := [step] + rest;
    assert steps[1..] == rest;
  }

  /** A new call, whatever was stored before, can succeed if and only if each of its payloads is within
      the size limit. */
  lemma StoreSucceedsIff(driver: Driver, before: seq<Step>, s: System, call: nat, target: Target, payloads: seq<Payload>)
    requires Reaches(driver, EMPTY, before, s) && call !in s.calls
    ensures CanSucceed(driver, s, call, target, payloads) <==> Fits(driver, payloads)
  {
    var begin := BeginStore(call, target, payloads);
    var begun := Apply(driver, s, begin);
    if CanSucceed(driver, s, call, target, payloads) {
      var steps, t :| Reaches(driver, begun, steps, t) && Succeeded(t, call);
      OnlyFittingWritten(driver, EMPTY, before, s);
      OnlyFittingWritten(driver, begun, steps, t);
      WrittenStays(driver, begun, steps, t, call);
    }
    if Fits(driver, payloads) {
      var steps, t := WriteRest(driver, begun, call, 0);
      assert Reaches(driver, begun, steps, t) && Succeeded(t, call);
    }
  }

  ghost predicate CanSucceed(driver: Driver, s: System, call: nat, target: Target, payloads: seq<Payload>)
    requires call !in s.calls
  {
    var begun := Apply(driver, s, BeginStore(call, target, payloads));
    exists steps, t :: Reaches(driver, begun, steps, t) && Succeeded(t, call)
  }
}
