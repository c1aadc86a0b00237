/**
 `SlidingWindowWorkflow`: one run, and the chain of runs it makes by continuing as new, together
 with the abandoned children that report completion to the workflow id.
 */
module SlidingWindow {
  import opened Wrappers

  /** Ids lo, lo + 1, ..., hi - 1; empty when hi <= lo. */
  function Range(lo: int, hi: int): (ids: seq<int>)
    ensures |ids| == if lo < hi then hi - lo else 0
    ensures forall i :: 0 <= i < |ids| ==> ids[i] == lo + i
  {
    if lo < hi then seq(hi - lo, i => lo + i) else []
  }

  /** The loader activity: guard, then one page. */
  function GetRecords(recordCount: int, pageSize: int, offset: int, maxOffset: int): Result<seq<int>, string> {
    if maxOffset > recordCount then Err("max_offset > record_count")
    else Ok(Range(offset, if offset + pageSize < maxOffset then offset + pageSize else maxOffset))
  }

  datatype Input = Input(pageSize: int, window: int, offset: int, maximum: int, progress: int, current: set<int>)

  /** The awaits of one run. `Filling` waits for room for the next record, `AwaitingStart` for the
      start of its child, `Draining` for the last completions. */
  datatype Position =
    | Loading
    | Filling
    | AwaitingStart
    | Draining
    | LoaderFailed
    | Returned(result: int)

  datatype Run = Run(input: Input, records: seq<int>, position: Position,
                     current: set<int>, progress: int, children: nat)

  function Begin(input: Input): Run {
    Run(input, [], Loading, input.current, input.progress, 0)
  }

  function Load(r: Run, recordCount: int): Run {
    if r.input.offset < r.input.maximum then
      match GetRecords(recordCount, r.input.pageSize, r.input.offset, r.input.maximum)
      case Ok(records) => r.(records := records, position := Filling)
      case Err(_) => r.(position := LoaderFailed)
    else r.(records := [], position := Filling)
  }

  predicate HasRoom(r: Run) {
    r.children < |r.records| && |r.current| < r.input.window
  }

  function StartChild(r: Run): Run
    requires HasRoom(r)
  {
    r.(current := r.current + {r.records[r.children]}, position := AwaitingStart)
  }

  function ChildStarted(r: Run): Run {
    r.(children := r.children + 1, position := Filling)
  }

  /** `_continue_as_new_or_complete` up to its wait. */
  function EndPage(r: Run): Run {
    var newOffset := r.input.offset + r.children;
    if newOffset < r.input.maximum then
      Begin(r.input.(offset := newOffset, progress := r.progress, current := r.current))
    else r.(position := Draining)
  }

  function Complete(r: Run): Run {
    r.(position := Returned(r.progress))
  }

  function OnSignal(r: Run, id: int): Run {
    if id in r.current then r.(current := r.current - {id}, progress := r.progress + 1) else r
  }

  // ----- The workflow object -----

  class SlidingWindowWorkflow {
    var input: Input
    var records: seq<int>
    var position: Position
    var currentRecords: set<int>
    var progress: int
    var childrenStartedByThisRun: seq<int>

    ghost function View(): Run
      reads this
    {
      Run(input, records, position, currentRecords, progress, |childrenStartedByThisRun|)
    }

    constructor (input: Input)
      ensures View() == Begin(input)
    {
      this.input, records, position := input, [], Loading;
      currentRecords, progress, childrenStartedByThisRun := input.current, input.progress, [];
    }

    method LoadPage(recordCount: int)
      modifies this
      ensures View() == Load(old(View()), recordCount)
    {
      if input.offset < input.maximum {
        match GetRecords(recordCount, input.pageSize, input.offset, input.maximum)
        case Ok(page) => records, position := page, Filling;
        case Err(_) => position := LoaderFailed;
      } else {
        records, position := [], Filling;
      }
    }

    method StartNextChild()
      requires HasRoom(View())
      modifies this
      ensures View() == StartChild(old(View()))
    {
      currentRecords := currentRecords + {records[|childrenStartedByThisRun|]};
      position := AwaitingStart;
    }

    method ChildHandleReceived()
      requires |childrenStartedByThisRun| < |records|
      modifies this
      ensures View() == ChildStarted(old(View()))
    {
      childrenStartedByThisRun := childrenStartedByThisRun + [records[|childrenStartedByThisRun|]];
      position := Filling;
    }

    method ContinueAsNewOrComplete()
      modifies this
      ensures View() == EndPage(old(View()))
    {
      var newOffset := input.offset + |childrenStartedByThisRun|;
      if newOffset < input.maximum {
        var next := new SlidingWindowWorkflow(input.(offset := newOffset, progress := progress, current := currentRecords));
        input, records, position := next.input, next.records, next.position;
        currentRecords, progress, childrenStartedByThisRun :=
          next.currentRecords, next.progress, next.childrenStartedByThisRun;
      } else {
        position := Draining;
      }
    }

    method HandleCompletionSignal(recordId: int)
      modifies this
      ensures View() == OnSignal(old(View()), recordId)
    {
      if recordId in currentRecords {
        currentRecords := currentRecords - {recordId};
        progress := progress + 1;
      }
    }
  }

  // ----- The chain of runs -----

  /** What a chain is started with, and the loader behind it. */
  datatype Config = Config(pageSize: int, window: int, offset: int, maximum: int, recordCount: int)

  /** `runs`, `started` and `finished` are history: runs so far, child starts in order, and the
      records whose child has done its work. */
  datatype Chain = Chain(cfg: Config, run: Run, runs: nat, started: seq<int>, finished: set<int>)

  datatype Step =
    | LoadStep
    | StartStep
    | StartedStep
    | EndPageStep
    | ReturnStep
    | FinishStep(id: int)   // a child finishes its work
    | SignalStep(id: int)   // a completion signal arrives, perhaps a repeated one

  predicate Enabled(c: Chain, step: Step) {
    match step
    case LoadStep => c.run.position.Loading?
    case StartStep => c.run.position.Filling? && HasRoom(c.run)
    case StartedStep => c.run.position.AwaitingStart?
    case EndPageStep => c.run.position.Filling? && c.run.children >= |c.run.records|
    case ReturnStep => c.run.position.Draining? && |c.run.current| == 0
    case FinishStep(id) => id in c.started
    case SignalStep(id) => id in c.finished && !c.run.position.Returned?
  }

  function Apply(c: Chain, step: Step): Chain
    requires Enabled(c, step)
  {
    match step
    case LoadStep => c.(run := Load(c.run, c.cfg.recordCount))
    case StartStep => c.(run := StartChild(c.run), started := c.started + [c.run.records[c.run.children]])
    case StartedStep => c.(run := ChildStarted(c.run))
    case EndPageStep =>
      c.(run := EndPage(c.run), runs := if EndPage(c.run).position.Loading? then c.runs + 1 else c.runs)
    case ReturnStep => c.(run := Complete(c.run))
    case FinishStep(id) => c.(finished := c.finished + {id})
    case SignalStep(id) => c.(run := OnSignal(c.run, id))
  }

  predicate Reaches(c: Chain, steps: seq<Step>, d: Chain)
    decreases |steps|
  {
    if steps == [] then c == d
    else Enabled(c, steps[0]) && Reaches(Apply(c, steps[0]), steps[1..], d)
  }

  function InitialChain(cfg: Config): Chain {
    Chain(cfg, Begin(Input(cfg.pageSize, cfg.window, cfg.offset, cfg.maximum, 0, {})), 1, [], {})
  }

  /** Records added to the window so far in this run. */
  function Added(r: Run): nat {
    r.children + if r.position.AwaitingStart? then 1 else 0
  }

  function Min(a: int, b: int): int { if a < b then a else b }
  function Max(a: int, b: int): int { if a < b then b else a }

  /** The records in `n` full pages. */
  function Pages(n: nat, pageSize: int): int {
    if n == 0 then 0 else Pages(n - 1, pageSize) + pageSize
  }

  /** The page the run works on, in every position after loading. */
  ghost predicate PageSound(r: Run) {
    match r.position
    case Loading => r.children == 0
    case LoaderFailed => r.children == 0 && r.input.offset < r.input.maximum
    case _ =>
      && r.records == Range(r.input.offset, Min(r.input.offset + r.input.pageSize, r.input.maximum))
      && Added(r) <= |r.records|
      && (r.position.Draining? || r.position.Returned? ==> r.input.offset + r.children >= r.input.maximum)
  }

  /** The loader's answer was as the record count demands. */
  ghost predicate LoaderSound(c: Chain) {
    match c.run.position
    case Loading => true
    case LoaderFailed => c.cfg.maximum > c.cfg.recordCount
    case _ => c.run.input.offset < c.cfg.maximum ==> c.cfg.maximum <= c.cfg.recordCount
  }

  /** Exactly-once accounting over the chain. */
  ghost predicate Inv(c: Chain) {
    var r := c.run;
    && r.input.pageSize == c.cfg.pageSize && r.input.window == c.cfg.window && r.input.maximum == c.cfg.maximum
    && c.runs >= 1
    && (c.runs > 1 ==> c.cfg.offset <= r.input.offset < c.cfg.maximum)
    && r.input.offset == (if c.cfg.pageSize >= 1 then c.cfg.offset + Pages(c.runs - 1, c.cfg.pageSize) else c.cfg.offset)
    && PageSound(r)
    && LoaderSound(c)
    && c.started == Range(c.cfg.offset, r.input.offset + Added(r))
    && r.progress + |r.current| == |c.started|
    && (forall id :: id in r.current ==> id in c.started)
    && (forall id :: id in c.started && id !in r.current ==> id in c.finished)
    && (forall id :: id in c.finished ==> id in c.started)
    && |r.current| <= Max(c.cfg.window, 0)
    && (c.started != [] ==> c.cfg.window >= 1)
    && (r.position.Returned? ==> r.current == {} && r.position.result == r.progress)
  }

  lemma StartKeeps(c: Chain)
    requires Inv(c) && Enabled(c, StartStep)
    ensures Inv(Apply(c, StartStep))
  {
    var d := Apply(c, StartStep);
    var id := c.run.records[c.run.children];
    assert id == c.run.input.offset + c.run.children;
    assert id !in c.started;
    assert d.started == Range(c.cfg.offset, id + 1);
    assert forall x :: x in d.started <==> x in c.started || x == id;
  }

  lemma EndPageKeeps(c: Chain)
    requires Inv(c) && Enabled(c, EndPageStep)
    ensures Inv(Apply(c, EndPageStep))
  {}

  lemma LoadKeeps(c: Chain)
    requires Inv(c) && Enabled(c, LoadStep)
    ensures Inv(Apply(c, LoadStep))
  {
    assert PageSound(Apply(c, LoadStep).run);
  }

  lemma SignalKeeps(c: Chain, id: int)
    requires Inv(c) && Enabled(c, SignalStep(id))
    ensures Inv(Apply(c, SignalStep(id)))
  {
    assert PageSound(Apply(c, SignalStep(id)).run);
  }

  lemma StartedKeeps(c: Chain)
    requires Inv(c) && Enabled(c, StartedStep)
    ensures Inv(Apply(c, StartedStep))
  {
    assert PageSound(Apply(c, StartedStep).run);
  }

  lemma EndingKeeps(c: Chain, step: Step)
    requires Inv(c) && Enabled(c, step) && (step.ReturnStep? || step.FinishStep?)
    ensures Inv(Apply(c, step))
  {
    assert PageSound(Apply(c, step).run);
  }

  lemma StepKeeps(c: Chain, step: Step)
    requires Inv(c) && Enabled(c, step)
    ensures Inv(Apply(c, step))
  {
    match step
    case StartStep => StartKeeps(c);
    case EndPageStep => EndPageKeeps(c);
    case LoadStep => LoadKeeps(c);
    case SignalStep(id) => SignalKeeps(c, id);
    case StartedStep => StartedKeeps(c);
    case _ => EndingKeeps(c, step);
  }

  /** Always: each id of the range was started exactly once, in order; `progress` counts the ids
      that left the window and whose child finished; the window is never overfull. */
  lemma {:induction false} Accounting(c: Chain, steps: seq<Step>, d: Chain)
    requires Inv(c) && Reaches(c, steps, d)
    ensures Inv(d) && d.cfg == c.cfg
    decreases |steps|
  {
    if steps != [] {
      StepKeeps(c, steps[0]);
      Accounting(Apply(c, steps[0]), steps[1..], d);
    }
  }

  lemma InitialInv(cfg: Config)
    ensures Inv(InitialChain(cfg))
  {
    assert |InitialChain(cfg).run.current| == 0;
  }

  lemma {:induction false} PagesIsProduct(n: nat, pageSize: int)
    ensures Pages(n, pageSize) == n * pageSize
  {
    if n > 0 {
      PagesIsProduct(n - 1, pageSize);
    }
  }

  lemma ProductMonotone(a: int, b: int, m: int)
    requires a <= b && m >= 0
    ensures a * m <= b * m
  {}

  lemma CeilingUnique(n: int, pageSize: int, runs: int)
    requires pageSize >= 1 && (runs - 1) * pageSize < n <= runs * pageSize
    ensures runs == (n + pageSize - 1) / pageSize
  {
    var q := (n + pageSize - 1) / pageSize;
    assert q * pageSize <= n + pageSize - 1 < q * pageSize + pageSize;
    assert (runs - 1) * pageSize == runs * pageSize - pageSize;
    assert (runs + 1) * pageSize == runs * pageSize + pageSize;
    if q < runs {
      ProductMonotone(q, runs - 1, pageSize);
    } else if q > runs {
      ProductMonotone(runs + 1, q, pageSize);
    }
  }

  /** What a returned chain has started. */
  lemma ReturnedStarted(c: Chain)
    requires Inv(c) && c.run.position.Returned?
    ensures c.started == Range(c.cfg.offset, c.cfg.maximum)
    ensures c.run.position.result == Max(0, c.cfg.maximum - c.cfg.offset)
    ensures forall id :: c.cfg.offset <= id < c.cfg.maximum ==> id in c.finished
  {
    forall id | c.cfg.offset <= id < c.cfg.maximum ensures id in c.finished {
      assert c.started[id - c.cfg.offset] == id;
    }
  }

  /** How many runs that took. */
  lemma ReturnedRuns(c: Chain)
    requires Inv(c) && c.run.position.Returned? && c.cfg.offset < c.cfg.maximum
    ensures c.cfg.pageSize >= 1 && c.cfg.window >= 1 && c.cfg.maximum <= c.cfg.recordCount
    ensures (c.runs - 1) * c.cfg.pageSize < c.cfg.maximum - c.cfg.offset <= c.runs * c.cfg.pageSize
  {
    ReturnedStarted(c);
    assert |c.started| > 0;
    PagesIsProduct(c.runs - 1, c.cfg.pageSize);
    assert (c.runs - 1) * c.cfg.pageSize + c.cfg.pageSize == c.runs * c.cfg.pageSize;
  }

  /** The outcome of a chain that returns: whatever the order and duplication of the signals, the
      result counts the whole range, every record was started once and finished, and the number of
      runs is the number of pages. */
  lemma Result(cfg: Config, steps: seq<Step>, d: Chain)
    requires Reaches(InitialChain(cfg), steps, d) && d.run.position.Returned?
    ensures d.run.position.result == Max(0, cfg.maximum - cfg.offset)
    ensures d.started == Range(cfg.offset, cfg.maximum)
    ensures forall id :: cfg.offset <= id < cfg.maximum ==> id in d.finished
    ensures cfg.offset < cfg.maximum ==>
      && cfg.pageSize >= 1 && cfg.window >= 1 && cfg.maximum <= cfg.recordCount
      && d.runs == (cfg.maximum - cfg.offset + cfg.pageSize - 1) / cfg.pageSize
    ensures cfg.offset >= cfg.maximum ==> d.runs == 1
  {
    InitialInv(cfg);
    Accounting(InitialChain(cfg), steps, d);
    ReturnedStarted(d);
    if cfg.offset < cfg.maximum {
      ReturnedRuns(d);
      CeilingUnique(cfg.maximum - cfg.offset, cfg.pageSize, d.runs);
    }
  }

  // ----- The chain can always be brought to its end -----

  predicate Completable(cfg: Config) {
    cfg.offset >= cfg.maximum || (cfg.pageSize >= 1 && cfg.window >= 1 && cfg.maximum <= cfg.recordCount)
  }

  function Rank(c: Chain): nat {
    match c.run.position
    case Loading => if c.run.input.offset < c.cfg.maximum then 2 else 5
    case Filling => if c.run.children < |c.run.records| then 1 else 3
    case AwaitingStart => 4
    case _ => 0
  }

  function Unfinished(c: Chain): set<int> {
    set id | id in c.run.current && id !in c.finished
  }

  ghost predicate Closer(e: Chain, c: Chain) {
    || |e.started| > |c.started|
    || (|e.started| == |c.started| &&
        (|| |Unfinished(e)| < |Unfinished(c)|
         || (|Unfinished(e)| == |Unfinished(c)| &&
             (|| |e.run.current| < |c.run.current|
              || (|e.run.current| == |c.run.current| &&
                  (Rank(e) < Rank(c) || (Rank(e) == Rank(c) && e.run.position.Returned?)))))))
  }

  lemma Pick(s: set<int>) returns (id: int)
    requires |s| > 0
    ensures id in s
  {
    assert (forall x :: x !in s) ==> s == {};
    id :| id in s;
  }

  /** Make room: finish some record of the window, or deliver its completion. */
  lemma DrainOne(c: Chain) returns (step: Step)
    requires Inv(c) && |c.run.current| > 0 && !c.run.position.Returned?
    ensures Enabled(c, step) && Closer(Apply(c, step), c)
  {
    var id := Pick(c.run.current);
    if id in c.finished {
      step := SignalStep(id);
      assert Unfinished(Apply(c, step)) == Unfinished(c);
    } else {
      step := FinishStep(id);
      assert id in Unfinished(c);
      assert Unfinished(Apply(c, step)) == Unfinished(c) - {id};
    }
  }

  lemma NextStep(c: Chain) returns (step: Step)
    requires Inv(c) && Completable(c.cfg) && !c.run.position.Returned?
    ensures Enabled(c, step) && Closer(Apply(c, step), c)
  {
    match c.run.position
    case Loading => step := LoadStep; assert Unfinished(Apply(c, step)) == Unfinished(c);
    case AwaitingStart => step := StartedStep; assert Unfinished(Apply(c, step)) == Unfinished(c);
    case Filling =>
      if c.run.children >= |c.run.records| {
        step := EndPageStep;
        assert Unfinished(Apply(c, step)) == Unfinished(c);
      } else if HasRoom(c.run) {
        step := StartStep;
      } else {
        step := DrainOne(c);
      }
    case Draining =>
      if |c.run.current| == 0 {
        step := ReturnStep;
        assert Unfinished(Apply(c, step)) == Unfinished(c);
      } else {
        step := DrainOne(c);
      }
    case LoaderFailed => assert false;
  }

  /** Records not started yet. */
  function Left(c: Chain): int {
    Max(0, c.cfg.maximum - c.cfg.offset) - |c.started|
  }

  lemma StepCloser(c: Chain) returns (step: Step)
    requires Inv(c) && Completable(c.cfg) && !c.run.position.Returned?
    ensures Enabled(c, step) && Inv(Apply(c, step)) && Apply(c, step).cfg == c.cfg
    ensures Closer(Apply(c, step), c) && Left(Apply(c, step)) >= 0
  {
    step := NextStep(c);
    StepKeeps(c, step);
    NoneLeft(Apply(c, step));
  }

  lemma NoneLeft(c: Chain)
    requires Inv(c)
    ensures Left(c) >= 0
  {}

  /** From every reachable state, some list of steps leads to a return. */
  lemma {:induction false} Completes(c: Chain) returns (steps: seq<Step>, d: Chain)
    requires Inv(c) && Completable(c.cfg)
    ensures Reaches(c, steps, d) && d.run.position.Returned?
    decreases Left(c), |Unfinished(c)|, |c.run.current|, Rank(c), if c.run.position.Returned? then 0 else 1
  {
    if c.run.position.Returned? {
      return [], c;
    }
    var step := StepCloser(c);
    var rest;
    rest, d := Completes(Apply(c, step));
    steps := [step] + rest;
    assert steps[1..] == rest;
  }

  ghost predicate CanReturn(cfg: Config) {
    exists steps, d :: Reaches(InitialChain(cfg), steps, d) && d.run.position.Returned?
  }

  /** A chain can return exactly when its range is empty, or a page and the window hold at least
      one record and the range lies within the record count. */
  lemma ReturnsIff(cfg: Config)
    ensures CanReturn(cfg) <==> Completable(cfg)
  {
    if CanReturn(cfg) {
      var steps, d :| Reaches(InitialChain(cfg), steps, d) && d.run.position.Returned?;
      Result(cfg, steps, d);
    }
    if Completable(cfg) {
      InitialInv(cfg);
      var steps, d := Completes(InitialChain(cfg));
      assert Reaches(InitialChain(cfg), steps, d) && d.run.position.Returned?;
    }
  }

  // ----- The window can be filled -----

  /** A chain that has filled its window, or started everything, while nothing completed yet. */
  ghost predicate Full(c: Chain) {
    c.run.progress == 0 && |c.run.current| == Min(c.cfg.window, c.cfg.maximum - c.cfg.offset)
  }

  ghost predicate Untouched(c: Chain) {
    && Inv(c) && Completable(c.cfg) && c.cfg.offset < c.cfg.maximum
    && c.run.progress == 0 && |c.started| <= Min(c.cfg.window, c.cfg.maximum - c.cfg.offset)
  }

  lemma FillStep(c: Chain) returns (step: Step)
    requires Untouched(c) && !Full(c)
    ensures Enabled(c, step) && Untouched(Apply(c, step))
    ensures |Apply(c, step).started| >= |c.started|
    ensures |Apply(c, step).started| == |c.started| ==> Rank(Apply(c, step)) < Rank(c)
  {
    assert |c.started| < c.cfg.maximum - c.cfg.offset;
    step := match c.run.position
      case Loading => LoadStep
      case AwaitingStart => StartedStep
      case _ => if c.run.children >= |c.run.records| then EndPageStep else StartStep;
    StepKeeps(c, step);
  }

  lemma {:induction false} Fills(c: Chain) returns (steps: seq<Step>, d: Chain)
    requires Untouched(c)
    ensures Reaches(c, steps, d) && Full(d)
    decreases Left(c), Rank(c)
  {
    if Full(c) {
      return [], c;
    }
    var step := FillStep(c);
    NoneLeft(Apply(c, step));
    var rest;
    rest, d := Fills(Apply(c, step));
    steps := [step] + rest;
    assert steps[1..] == rest;
  }

  /** Records really are processed side by side: from its start, a chain that can return and has
      records can have as many of them in its window as the window takes, before any completes. */
  lemma WindowFills(cfg: Config) returns (steps: seq<Step>, d: Chain)
    requires Completable(cfg) && cfg.offset < cfg.maximum
    ensures Reaches(InitialChain(cfg), steps, d)
    ensures d.run.progress == 0 && |d.run.current| == Min(cfg.window, cfg.maximum - cfg.offset)
  {
    InitialInv(cfg);
    steps, d := Fills(InitialChain(cfg));
    Accounting(InitialChain(cfg), steps, d);
  }

  /** In a reached state, a run that has records left waits for room only when the window is full. */
  lemma WaitsOnlyWhenFull(cfg: Config, steps: seq<Step>, c: Chain)
    requires Reaches(InitialChain(cfg), steps, c) && c.run.position.Filling? && c.run.children < |c.run.records|
    ensures Enabled(c, StartStep) <==> |c.run.current| < cfg.window
    ensures !Enabled(c, StartStep) ==> |c.run.current| == Max(cfg.window, 0)
  {
    InitialInv(cfg);
    Accounting(InitialChain(cfg), steps, c);
  }
}
