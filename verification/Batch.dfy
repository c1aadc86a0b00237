/**
 `ProcessBatchWorkflow`: the division of a batch into partitions, and all the partition chains
 running side by side.
 */
module Batch {
  import opened Wrappers
  import opened SlidingWindow

  function Sum(xs: seq<int>): int {
    if xs == [] then 0 else Sum(xs[..|xs|-1]) + xs[|xs|-1]
  }

  datatype Error = WindowTooSmall | ZeroDivision

  /** Floor division as Python does it: a negative count of partitions gives an empty list. */
  function Divide(number: int, n: int): Result<seq<int>, Error> {
    if n == 0 then Err(ZeroDivision)
    else if n < 0 then Ok([])
    else Ok(seq(n, i => number / n + if i < number % n then 1 else 0))
  }

  method DivideIntoPartitions(number: int, n: int) returns (result: Result<seq<int>, Error>)
    ensures result == Divide(number, n)
  {
    if n == 0 {
      return Err(ZeroDivision);
    }
    if n < 0 {
      return Ok([]);
    }
    var base, remainder := number / n, number % n;
    var partitions := seq(n, _ => base);
    for i := 0 to remainder
      invariant partitions == seq(n, j => base + if j < i then 1 else 0)
    {
      partitions := partitions[i := partitions[i] + 1];
    }
    return Ok(partitions);
  }

  /** The inputs of the child workflows, in the order they are started. */
  function Children(parts: seq<int>, windows: seq<int>, recordCount: int, pageSize: int): (cfgs: seq<Config>)
    requires |parts| == |windows|
    ensures |cfgs| == |parts|
  {
    seq(|parts|, i requires 0 <= i < |parts| =>
      Config(pageSize, windows[i], Sum(parts[..i]), Min(Sum(parts[..i]) + parts[i], recordCount), recordCount))
  }

  function Plan(recordCount: int, pageSize: int, window: int, partitions: int): Result<seq<Config>, Error> {
    if window < partitions then Err(WindowTooSmall)
    else
      match Divide(recordCount, partitions)
      case Err(e) => Err(e)
      case Ok(parts) => Ok(Children(parts, Divide(window, partitions).value, recordCount, pageSize))
  }

  method StartChildren(recordCount: int, pageSize: int, window: int, partitions: int)
    returns (result: Result<seq<Config>, Error>)
    ensures result == Plan(recordCount, pageSize, window, partitions)
  {
    if window < partitions {
      return Err(WindowTooSmall);
    }
    var parts := DivideIntoPartitions(recordCount, partitions);
    var windows := DivideIntoPartitions(window, partitions);
    if parts.Err? {
      return Err(parts.error);
    }
    var tasks, offset := [], 0;
    ghost var children := Children(parts.value, windows.value, recordCount, pageSize);
    for i := 0 to |parts.value|
      invariant tasks == children[..i]
      invariant offset == Sum(parts.value[..i])
    {
      assert parts.value[..i + 1][..i] == parts.value[..i];
      var maximum := offset + parts.value[i];
      if maximum > recordCount {
        maximum := recordCount;
      }
      var child := Config(pageSize, windows.value[i], offset, maximum, recordCount);
      assert child == children[i] && children[..i + 1] == children[..i] + [child];
      tasks := tasks + [child];
      offset := offset + parts.value[i];
    }
    assert children[..|parts.value|] == children;
    return Ok(tasks);
  }

  // ----- The division -----

  lemma {:induction false} EvenSum(base: int, extra: int, xs: seq<int>)
    requires forall i :: 0 <= i < |xs| ==> xs[i] == base + if i < extra then 1 else 0
    requires 0 <= extra
    ensures Sum(xs) == base * |xs| + Min(|xs|, extra)
  {
    if xs != [] {
      EvenSum(base, extra, xs[..|xs|-1]);
      assert base * |xs| == base * (|xs| - 1) + base;
    }
  }

  /** As even as can be, and nothing lost. */
  lemma DivideFair(number: int, n: int)
    requires n >= 1
    ensures var parts := Divide(number, n).value;
      && |parts| == n
      && Sum(parts) == number
      && (forall i, j :: 0 <= i < j < n ==> parts[j] <= parts[i] <= parts[j] + 1)
      && (forall i :: 0 <= i < n ==> number / n <= parts[i] <= number / n + 1)
  {
    EvenSum(number / n, number % n, Divide(number, n).value);
  }

  lemma {:induction false} SumBounds(xs: seq<int>, i: nat, j: nat)
    requires forall k :: 0 <= k < |xs| ==> xs[k] >= 0
    requires i <= j <= |xs|
    ensures 0 <= Sum(xs[..i]) <= Sum(xs[..j])
    decreases j
  {
    if i < j {
      assert xs[..j][..j - 1] == xs[..j - 1];
      SumBounds(xs, i, j - 1);
    } else if 0 < j {
      assert xs[..j][..j - 1] == xs[..j - 1];
      SumBounds(xs, j - 1, j - 1);
    }
  }

  function Windows(cfgs: seq<Config>): seq<int> {
    seq(|cfgs|, i requires 0 <= i < |cfgs| => cfgs[i].window)
  }

  /** What the children are given, when there is at least one partition and a window for each. */
  ghost predicate Tiles(cfgs: seq<Config>, recordCount: int, window: int) {
    && cfgs != []
    && cfgs[0].offset == 0 && cfgs[|cfgs| - 1].maximum == recordCount
    && (forall i :: 0 <= i < |cfgs| - 1 ==> cfgs[i].maximum == cfgs[i + 1].offset)
    && (forall i :: 0 <= i < |cfgs| ==>
          cfgs[i].offset <= cfgs[i].maximum <= cfgs[i].recordCount == recordCount && cfgs[i].window >= 1)
    && Sum(Windows(cfgs)) == window
  }

  lemma QuotientPositive(window: int, partitions: int)
    requires 1 <= partitions <= window
    ensures window / partitions >= 1
  {}

  /** The clamp to the record count never changes a bound. */
  lemma ChildBounds(parts: seq<int>, windows: seq<int>, recordCount: int, pageSize: int, i: nat)
    requires |parts| == |windows| && i < |parts|
    requires forall k :: 0 <= k < |parts| ==> parts[k] >= 0
    requires Sum(parts) == recordCount
    ensures var cfg := Children(parts, windows, recordCount, pageSize)[i];
      && cfg.offset == Sum(parts[..i]) && cfg.maximum == Sum(parts[..i + 1]) && cfg.window == windows[i]
      && 0 <= cfg.offset <= cfg.maximum <= recordCount == cfg.recordCount
  {
    assert parts[..i + 1][..i] == parts[..i];
    assert parts[..|parts|] == parts;
    SumBounds(parts, i, i + 1);
    SumBounds(parts, i + 1, |parts|);
  }

  lemma ChildrenTile(parts: seq<int>, windows: seq<int>, recordCount: int, window: int, pageSize: int)
    requires |parts| == |windows| >= 1
    requires forall k :: 0 <= k < |parts| ==> parts[k] >= 0
    requires forall k :: 0 <= k < |windows| ==> windows[k] >= 1
    requires Sum(parts) == recordCount && Sum(windows) == window
    ensures Tiles(Children(parts, windows, recordCount, pageSize), recordCount, window)
  {
    var cfgs := Children(parts, windows, recordCount, pageSize);
    forall i | 0 <= i < |cfgs|
      ensures cfgs[i].offset <= cfgs[i].maximum <= cfgs[i].recordCount == recordCount && cfgs[i].window == windows[i]
    {
      ChildBounds(parts, windows, recordCount, pageSize, i);
    }
    forall i | 0 <= i < |cfgs| - 1 ensures cfgs[i].maximum == cfgs[i + 1].offset {
      ChildBounds(parts, windows, recordCount, pageSize, i);
      ChildBounds(parts, windows, recordCount, pageSize, i + 1);
    }
    ChildBounds(parts, windows, recordCount, pageSize, 0);
    ChildBounds(parts, windows, recordCount, pageSize, |parts| - 1);
    assert parts[..|parts|] == parts;
    assert Windows(cfgs) == windows;
  }

  lemma PlanTiles(recordCount: nat, pageSize: int, window: int, partitions: int)
    requires 1 <= partitions <= window
    ensures var plan := Plan(recordCount, pageSize, window, partitions);
      && plan.Ok? && |plan.value| == partitions && Tiles(plan.value, recordCount, window)
      && forall i :: 0 <= i < partitions ==>
           && plan.value[i].pageSize == pageSize
           && recordCount / partitions <= plan.value[i].maximum - plan.value[i].offset <= recordCount / partitions + 1
           && window / partitions <= plan.value[i].window <= window / partitions + 1
  {
    DivideFair(recordCount, partitions);
    DivideFair(window, partitions);
    QuotientPositive(window, partitions);
    var parts, windows := Divide(recordCount, partitions).value, Divide(window, partitions).value;
    ChildrenTile(parts, windows, recordCount, window, pageSize);
    forall i | 0 <= i < partitions
      ensures var cfg := Children(parts, windows, recordCount, pageSize)[i];
        cfg.pageSize == pageSize && cfg.maximum - cfg.offset == parts[i] && cfg.window == windows[i]
    {
      ChildSizes(parts, windows, recordCount, pageSize, i);
    }
  }

  lemma ChildSizes(parts: seq<int>, windows: seq<int>, recordCount: int, pageSize: int, i: nat)
    requires |parts| == |windows| && i < |parts|
    requires forall k :: 0 <= k < |parts| ==> parts[k] >= 0
    requires Sum(parts) == recordCount
    ensures var cfg := Children(parts, windows, recordCount, pageSize)[i];
      cfg.pageSize == pageSize && cfg.maximum - cfg.offset == parts[i] && cfg.window == windows[i]
  {
    ChildBounds(parts, windows, recordCount, pageSize, i);
    assert parts[..i + 1][..i] == parts[..i];
  }

  /** Every other shape of the parameters: too small a window is refused, no partitions is an
      error, and a negative number of them silently starts no child at all. */
  lemma PlanOtherwise(recordCount: nat, pageSize: int, window: int, partitions: int)
    requires !(1 <= partitions <= window)
    ensures Plan(recordCount, pageSize, window, partitions) ==
      if window < partitions then Err(WindowTooSmall) else if partitions == 0 then Err(ZeroDivision) else Ok([])
  {}

  // ----- All partitions at once -----

  /** One chain per partition; a step is a step of one of them. */
  predicate BatchReaches(chains: seq<Chain>, steps: seq<(nat, Step)>, last: seq<Chain>)
    decreases |steps|
  {
    if steps == [] then chains == last
    else
      var (i, step) := steps[0];
      i < |chains| && Enabled(chains[i], step) && BatchReaches(chains[i := Apply(chains[i], step)], steps[1..], last)
  }

  function InitialChains(cfgs: seq<Config>): seq<Chain> {
    seq(|cfgs|, i requires 0 <= i < |cfgs| => InitialChain(cfgs[i]))
  }

  ghost predicate AllSound(chains: seq<Chain>, cfgs: seq<Config>) {
    |chains| == |cfgs| && forall i :: 0 <= i < |cfgs| ==> Inv(chains[i]) && chains[i].cfg == cfgs[i]
  }

  lemma {:induction false} BatchKeeps(chains: seq<Chain>, cfgs: seq<Config>, steps: seq<(nat, Step)>, last: seq<Chain>)
    requires AllSound(chains, cfgs) && BatchReaches(chains, steps, last)
    ensures AllSound(last, cfgs)
    decreases |steps|
  {
    if steps != [] {
      var (i, step) := steps[0];
      StepKeeps(chains[i], step);
      BatchKeeps(chains[i := Apply(chains[i], step)], cfgs, steps[1..], last);
    }
  }

  function InFlight(chains: seq<Chain>): seq<int> {
    seq(|chains|, i requires 0 <= i < |chains| => |chains[i].run.current|)
  }

  function Results(chains: seq<Chain>): seq<int>
    requires forall i :: 0 <= i < |chains| ==> chains[i].run.position.Returned?
  {
    seq(|chains|, i requires 0 <= i < |chains| => chains[i].run.position.result)
  }

  lemma {:induction false} SumMonotone(xs: seq<int>, ys: seq<int>)
    requires |xs| == |ys| && forall i :: 0 <= i < |xs| ==> xs[i] <= ys[i]
    ensures Sum(xs) <= Sum(ys)
  {
    if xs != [] {
      SumMonotone(xs[..|xs|-1], ys[..|ys|-1]);
    }
  }

  /** At every moment of every run of the batch: no more records in flight than the window asked
      for, every loader call within the record count, and no record in two partitions. */
  lemma BatchSafety(recordCount: nat, pageSize: int, window: int, partitions: int,
                    cfgs: seq<Config>, steps: seq<(nat, Step)>, last: seq<Chain>)
    requires 1 <= partitions <= window && Plan(recordCount, pageSize, window, partitions) == Ok(cfgs)
    requires BatchReaches(InitialChains(cfgs), steps, last)
    ensures AllSound(last, cfgs) && Tiles(cfgs, recordCount, window)
    ensures Sum(InFlight(last)) <= window
    ensures forall i :: 0 <= i < |last| ==> !last[i].run.position.LoaderFailed?
    ensures forall i, j, id :: 0 <= i < j < |last| && id in last[i].started ==> id !in last[j].started
  {
    PlanTiles(recordCount, pageSize, window, partitions);
    InitialSound(cfgs);
    BatchKeeps(InitialChains(cfgs), cfgs, steps, last);
    InFlightWithin(last, cfgs);
    forall i, j, id | 0 <= i < j < |last| && id in last[i].started ensures id !in last[j].started {
      StartedApart(cfgs, last, recordCount, window, i, j, id);
    }
  }

  lemma InFlightWithin(chains: seq<Chain>, cfgs: seq<Config>)
    requires AllSound(chains, cfgs) && forall i :: 0 <= i < |cfgs| ==> cfgs[i].window >= 1 && cfgs[i].maximum <= cfgs[i].recordCount
    ensures Sum(InFlight(chains)) <= Sum(Windows(cfgs))
    ensures forall i :: 0 <= i < |chains| ==> !chains[i].run.position.LoaderFailed?
  {
    forall i | 0 <= i < |chains|
      ensures InFlight(chains)[i] <= Windows(cfgs)[i] && !chains[i].run.position.LoaderFailed?
    {
      assert Inv(chains[i]) && chains[i].cfg == cfgs[i];
    }
    SumMonotone(InFlight(chains), Windows(cfgs));
  }

  lemma StartedApart(cfgs: seq<Config>, chains: seq<Chain>, recordCount: int, window: int, i: nat, j: nat, id: int)
    requires AllSound(chains, cfgs) && Tiles(cfgs, recordCount, window)
    requires i < j < |chains| && id in chains[i].started
    ensures id !in chains[j].started
  {
    Ordered(cfgs, recordCount, window, i, j);
    StartedWithin(chains[i], id);
    if id in chains[j].started {
      StartedWithin(chains[j], id);
    }
  }

  lemma StartedWithin(c: Chain, id: int)
    requires Inv(c) && c.cfg.offset <= c.cfg.maximum && id in c.started
    ensures c.cfg.offset <= id < c.cfg.maximum
  {}

  lemma {:induction false} Ordered(cfgs: seq<Config>, recordCount: int, window: int, i: nat, j: nat)
    requires Tiles(cfgs, recordCount, window) && i < j < |cfgs|
    ensures cfgs[i].maximum <= cfgs[j].offset
    decreases j - i
  {
    if i + 1 < j {
      Ordered(cfgs, recordCount, window, i, j - 1);
    }
  }

  lemma {:induction false} Telescope(cfgs: seq<Config>, sizes: seq<int>, recordCount: int, window: int, n: nat)
    requires Tiles(cfgs, recordCount, window) && |sizes| == |cfgs| && n <= |cfgs|
    requires forall i :: 0 <= i < |cfgs| ==> sizes[i] == cfgs[i].maximum - cfgs[i].offset
    ensures Sum(sizes[..n]) == if n == 0 then 0 else cfgs[n - 1].maximum
    decreases n
  {
    if n > 0 {
      assert sizes[..n][..n - 1] == sizes[..n - 1];
      Telescope(cfgs, sizes, recordCount, window, n - 1);
    }
  }

  lemma {:induction false} OwnerOf(cfgs: seq<Config>, recordCount: int, window: int, id: int, n: nat) returns (i: nat)
    requires Tiles(cfgs, recordCount, window) && 1 <= n <= |cfgs| && 0 <= id < cfgs[n - 1].maximum
    ensures i < |cfgs| && cfgs[i].offset <= id < cfgs[i].maximum
    decreases n
  {
    if cfgs[n - 1].offset <= id {
      i := n - 1;
    } else {
      i := OwnerOf(cfgs, recordCount, window, id, n - 1);
    }
  }

  ghost predicate Processed(chains: seq<Chain>, id: int) {
    exists i :: 0 <= i < |chains| && id in chains[i].started && id in chains[i].finished
  }

  /** When every partition has returned, the gathered sum is the record count, and every record
      was started by a partition and finished. */
  lemma BatchResult(recordCount: nat, pageSize: int, window: int, partitions: int,
                    cfgs: seq<Config>, steps: seq<(nat, Step)>, last: seq<Chain>)
    requires 1 <= partitions <= window && Plan(recordCount, pageSize, window, partitions) == Ok(cfgs)
    requires BatchReaches(InitialChains(cfgs), steps, last)
    requires forall i :: 0 <= i < |last| ==> last[i].run.position.Returned?
    ensures Sum(Results(last)) == recordCount
    ensures forall id :: 0 <= id < recordCount ==> Processed(last, id)
    ensures forall i :: 0 <= i < |last| ==> RunsForPages(last[i], pageSize)
  {
    BatchSafety(recordCount, pageSize, window, partitions, cfgs, steps, last);
    ReturnedBatch(recordCount, window, cfgs, last);
    PlanTiles(recordCount, pageSize, window, partitions);
    forall i | 0 <= i < |last| ensures RunsForPages(last[i], pageSize) {
      PagesOfChain(last[i], pageSize);
    }
  }

  /** A partition took one run for each page of the batch's page size, or one if it had no records. */
  predicate RunsForPages(c: Chain, pageSize: int) {
    if c.cfg.offset < c.cfg.maximum
    then pageSize >= 1 && c.runs == (c.cfg.maximum - c.cfg.offset + pageSize - 1) / pageSize
    else c.runs == 1
  }

  lemma PagesOfChain(c: Chain, pageSize: int)
    requires Inv(c) && c.run.position.Returned? && c.cfg.pageSize == pageSize
    ensures RunsForPages(c, pageSize)
  {
    if c.cfg.offset < c.cfg.maximum {
      ReturnedRuns(c);
      CeilingUnique(c.cfg.maximum - c.cfg.offset, pageSize, c.runs);
    }
  }

  lemma ReturnedBatch(recordCount: nat, window: int, cfgs: seq<Config>, last: seq<Chain>)
    requires AllSound(last, cfgs) && Tiles(cfgs, recordCount, window)
    requires forall i :: 0 <= i < |last| ==> last[i].run.position.Returned?
    ensures Sum(Results(last)) == recordCount
    ensures forall id :: 0 <= id < recordCount ==> Processed(last, id)
  {
    forall i | 0 <= i < |last| ensures Results(last)[i] == cfgs[i].maximum - cfgs[i].offset {
      ReturnedChain(last[i]);
    }
    Telescope(cfgs, Results(last), recordCount, window, |cfgs|);
    assert Results(last)[..|cfgs|] == Results(last);
    forall id | 0 <= id < recordCount ensures Processed(last, id) {
      var i := OwnerOf(cfgs, recordCount, window, id, |cfgs|);
      ReturnedChain(last[i]);
    }
  }

  lemma ReturnedChain(c: Chain)
    requires Inv(c) && c.run.position.Returned? && c.cfg.offset <= c.cfg.maximum
    ensures c.run.position.result == c.cfg.maximum - c.cfg.offset
    ensures forall id :: c.cfg.offset <= id < c.cfg.maximum ==> id in c.started && id in c.finished
  {
    ReturnedStarted(c);
    forall id | c.cfg.offset <= id < c.cfg.maximum ensures id in c.started {
      assert c.started[id - c.cfg.offset] == id;
    }
  }

  // ----- The batch can always be brought to its end -----

  function Tagged(i: nat, steps: seq<Step>): seq<(nat, Step)> {
    seq(|steps|, k requires 0 <= k < |steps| => (i, steps[k]))
  }

  ghost predicate AllReturned(chains: seq<Chain>) {
    forall i :: 0 <= i < |chains| ==> chains[i].run.position.Returned?
  }

  /** Steps of one partition, taken while the others stand still. */
  lemma {:induction false} OnePartition(chains: seq<Chain>, i: nat, steps: seq<Step>, d: Chain)
    requires i < |chains| && Reaches(chains[i], steps, d)
    ensures BatchReaches(chains, Tagged(i, steps), chains[i := d])
    decreases |steps|
  {
    if steps == [] {
      assert chains[i := d] == chains;
    } else {
      var next := chains[i := Apply(chains[i], steps[0])];
      OnePartition(next, i, steps[1..], d);
      assert next[i := d] == chains[i := d];
      assert Tagged(i, steps)[1..] == Tagged(i, steps[1..]);
    }
  }

  lemma {:induction false} BatchReachesOn(chains: seq<Chain>, first: seq<(nat, Step)>, middle: seq<Chain>,
                                          second: seq<(nat, Step)>, last: seq<Chain>)
    requires BatchReaches(chains, first, middle) && BatchReaches(middle, second, last)
    ensures BatchReaches(chains, first + second, last)
    decreases |first|
  {
    if first == [] {
      assert first + second == second;
    } else {
      var (i, step) := first[0];
      assert (first + second)[1..] == first[1..] + second;
      BatchReachesOn(chains[i := Apply(chains[i], step)], first[1..], middle, second, last);
    }
  }

  /** From every reachable state of a batch, the first `n` partitions having returned, some list of
      steps makes them all return. */
  lemma {:induction false} BatchCompletes(chains: seq<Chain>, cfgs: seq<Config>, n: nat)
    returns (steps: seq<(nat, Step)>, last: seq<Chain>)
    requires AllSound(chains, cfgs) && n <= |chains| && AllReturned(chains[..n])
    requires forall i :: 0 <= i < |cfgs| ==> Completable(cfgs[i])
    ensures BatchReaches(chains, steps, last) && AllSound(last, cfgs) && AllReturned(last)
    decreases |chains| - n
  {
    if n == |chains| {
      assert chains[..n] == chains;
      return [], chains;
    }
    var one, d := Completes(chains[n]);
    Accounting(chains[n], one, d);
    OnePartition(chains, n, one, d);
    var next := chains[n := d];
    forall i | 0 <= i < n + 1 ensures next[i].run.position.Returned? {
      if i < n { assert chains[..n][i] == chains[i]; }
    }
    var rest;
    rest, last := BatchCompletes(next, cfgs, n + 1);
    steps := Tagged(n, one) + rest;
    BatchReachesOn(chains, Tagged(n, one), next, rest, last);
  }

  ghost predicate Delivers(recordCount: nat, cfgs: seq<Config>, steps: seq<(nat, Step)>, last: seq<Chain>) {
    BatchReaches(InitialChains(cfgs), steps, last) && AllReturned(last) && Sum(Results(last)) == recordCount
  }

  /** Some run of the batch returns the record count. */
  ghost predicate CanDeliver(recordCount: nat, pageSize: int, window: int, partitions: int) {
    var plan := Plan(recordCount, pageSize, window, partitions);
    plan.Ok? && exists steps, last :: Delivers(recordCount, plan.value, steps, last)
  }

  lemma InitialSound(cfgs: seq<Config>)
    ensures AllSound(InitialChains(cfgs), cfgs)
  {
    forall i | 0 <= i < |cfgs| ensures Inv(InitialChains(cfgs)[i]) {
      InitialInv(cfgs[i]);
    }
  }

  /** With records to process, a batch whose partitions all return needs a page of at least one. */
  lemma DeliveredPages(recordCount: nat, pageSize: int, window: int, partitions: int,
                       steps: seq<(nat, Step)>, last: seq<Chain>)
    requires 1 <= partitions <= window && recordCount > 0
    requires Delivers(recordCount, Plan(recordCount, pageSize, window, partitions).value, steps, last)
    ensures pageSize >= 1
  {
    PlanTiles(recordCount, pageSize, window, partitions);
    var cfgs := Plan(recordCount, pageSize, window, partitions).value;
    InitialSound(cfgs);
    BatchKeeps(InitialChains(cfgs), cfgs, steps, last);
    var i := OwnerOf(cfgs, recordCount, window, 0, |cfgs|);
    assert Inv(last[i]) && last[i].cfg == cfgs[i];
    ReturnedRuns(last[i]);
  }

  lemma DeliversWell(recordCount: nat, pageSize: int, window: int, partitions: int)
    requires 1 <= partitions <= window && (recordCount == 0 || pageSize >= 1)
    ensures CanDeliver(recordCount, pageSize, window, partitions)
  {
    PlanTiles(recordCount, pageSize, window, partitions);
    var cfgs := Plan(recordCount, pageSize, window, partitions).value;
    forall i | 0 <= i < |cfgs| ensures Completable(cfgs[i]) {
      WithinBatch(cfgs, recordCount, window, i);
    }
    InitialSound(cfgs);
    var steps, last := BatchCompletes(InitialChains(cfgs), cfgs, 0);
    BatchResult(recordCount, pageSize, window, partitions, cfgs, steps, last);
    assert Delivers(recordCount, cfgs, steps, last);
  }

  lemma WithinBatch(cfgs: seq<Config>, recordCount: int, window: int, i: nat)
    requires Tiles(cfgs, recordCount, window) && i < |cfgs|
    ensures 0 <= cfgs[i].offset <= cfgs[i].maximum <= recordCount
  {
    if i > 0 {
      Ordered(cfgs, recordCount, window, 0, i);
    }
  }

  /** A batch can return its record count exactly when there is a partition, a window for each, and
      a page of at least one record if there are any records; or when there is nothing to do and the
      number of partitions is negative. Otherwise it is refused, fails or never returns. */
  lemma DeliversIff(recordCount: nat, pageSize: int, window: int, partitions: int)
    ensures CanDeliver(recordCount, pageSize, window, partitions) <==>
      || (1 <= partitions <= window && (recordCount == 0 || pageSize >= 1))
      || (partitions < 0 && partitions <= window && recordCount == 0)
  {
    if 1 <= partitions <= window {
      if recordCount == 0 || pageSize >= 1 {
        DeliversWell(recordCount, pageSize, window, partitions);
      } else if CanDeliver(recordCount, pageSize, window, partitions) {
        var steps, last :| Delivers(recordCount, Plan(recordCount, pageSize, window, partitions).value, steps, last);
        DeliveredPages(recordCount, pageSize, window, partitions, steps, last);
      }
    } else {
      PlanOtherwise(recordCount, pageSize, window, partitions);
      if partitions < 0 && partitions <= window {
        NoChildren(recordCount);
      }
    }
  }

  lemma NoChildren(recordCount: nat)
    ensures (exists steps, last :: Delivers(recordCount, [], steps, last)) <==> recordCount == 0
  {
    assert BatchReaches([], [], []) && Results([]) == [];
    assert recordCount == 0 ==> Delivers(0, [], [], []);
    forall steps: seq<(nat, Step)>, last | Delivers(recordCount, [], steps, last) ensures recordCount == 0 {
      assert InitialChains([]) == [];
      assert steps != [] ==> steps[0].0 < |InitialChains([])|;
    }
  }
}
