/**
 When the walk over a trace ends; and that, with unique ids, it always does, orphans and unreachable
 cycles or not, and shows every reachable observation exactly once.
 */
module TraceWalk {
  import opened Wrappers
  import opened TraceTree

  ghost predicate UniqueIds(os: seq<Observation>) {
    forall i, j :: 0 <= i < j < |os| ==> os[i].id != os[j].id
  }

  function Last(path: seq<Observation>): Observation
    requires path != []
  {
    path[|path| - 1]
  }

  /** A path from a root down parent links. */
  ghost predicate Chain(os: seq<Observation>, path: seq<Observation>) {
    && path != [] && path[0].parent == None
    && (forall i :: 0 <= i < |path| ==> path[i] in os)
    && (forall i :: 0 <= i < |path| - 1 ==> path[i + 1].parent == Some(path[i].id))
  }

  lemma ParentOfLast(os: seq<Observation>, p: seq<Observation>)
    requires Chain(os, p) && |p| > 1
    ensures Last(p).parent == Some(p[|p| - 2].id)
  {
    assert p[|p| - 2 + 1].parent == Some(p[|p| - 2].id);
  }

  /** Going up from an observation there is only one way. */
  lemma {:induction false} ChainUnique(os: seq<Observation>, p: seq<Observation>, q: seq<Observation>)
    requires UniqueIds(os) && Chain(os, p) && Chain(os, q) && Last(p) == Last(q)
    ensures p == q
    decreases |p|
  {
    if |p| > 1 { ParentOfLast(os, p); }
    if |q| > 1 { ParentOfLast(os, q); }
    if |p| > 1 && |q| > 1 {
      var p', q' := p[..|p| - 1], q[..|q| - 1];
      assert Last(p').id == Last(q').id;
      ChainUnique(os, p', q');
      assert p == p' + [Last(p)] && q == q' + [Last(q)];
    }
  }

  lemma ChainDistinct(os: seq<Observation>, p: seq<Observation>)
    requires UniqueIds(os) && Chain(os, p)
    ensures forall i, j :: 0 <= i < j < |p| ==> p[i] != p[j]
  {
    forall i, j | 0 <= i < j < |p| ensures p[i] != p[j] {
      if p[i] == p[j] {
        ChainUnique(os, p[..i + 1], p[..j + 1]);
      }
    }
  }

  lemma {:induction false} Pigeonhole(p: seq<Observation>, os: seq<Observation>)
    requires forall i, j :: 0 <= i < j < |p| ==> p[i] != p[j]
    requires forall i :: 0 <= i < |p| ==> p[i] in os
    ensures |p| <= |os|
  {
    if p != [] {
      var k :| 0 <= k < |os| && os[k] == p[0];
      var rest := os[..k] + os[k + 1..];
      forall i | 0 <= i < |p| - 1 ensures p[1..][i] in rest {
        var l :| 0 <= l < |os| && os[l] == p[i + 1];
        assert l != k;
        assert if l < k then rest[l] == p[i + 1] else rest[l - 1] == p[i + 1];
      }
      Pigeonhole(p[1..], rest);
    }
  }

  lemma SiblingsMembers(os: seq<Observation>, parent: Option<string>)
    ensures forall o :: o in Siblings(os, parent) <==> o in os && o.parent == parent
  {
    SortContents(ChildrenOf(os, parent));
    ChildrenContents(os, parent);
    forall o ensures o in Siblings(os, parent) <==> o in os && o.parent == parent {
      assert o in Siblings(os, parent) <==> o in multiset(Siblings(os, parent));
      assert o in os <==> o in multiset(os);
    }
  }

  /** The chains that go one step further than `path` (or start at a root when it is empty). */
  ghost predicate Extends(os: seq<Observation>, path: seq<Observation>, siblings: seq<Observation>) {
    forall o :: o in siblings ==> Chain(os, path + [o])
  }

  lemma ChildrenExtend(os: seq<Observation>, path: seq<Observation>)
    requires path != [] ==> Chain(os, path)
    ensures Extends(os, path, Siblings(os, if path == [] then None else Some(Last(path).id)))
  {
    SiblingsMembers(os, if path == [] then None else Some(Last(path).id));
  }

  // ----- Termination -----

  /** No chain goes on from `path` for `budget` or more observations. */
  ghost predicate Shallow(os: seq<Observation>, path: seq<Observation>, budget: int) {
    forall c :: Chain(os, c) && path <= c ==> |c| - |path| < budget
  }

  lemma ShallowBelow(os: seq<Observation>, path: seq<Observation>, o: Observation, budget: nat)
    requires Shallow(os, path, budget)
    ensures Shallow(os, path + [o], budget - 1)
  {
    forall c: seq<Observation> | Chain(os, c) && path + [o] <= c ensures |c| - |path + [o]| < budget - 1 {
      assert path <= path + [o] <= c;
    }
  }

  lemma ShallowAbove(os: seq<Observation>, path: seq<Observation>, budget: nat)
    requires Chain(os, path) && budget > 0
    requires forall o :: o in Siblings(os, Some(Last(path).id)) ==> Shallow(os, path + [o], budget - 1)
    ensures Shallow(os, path, budget)
  {
    SiblingsMembers(os, Some(Last(path).id));
    forall c: seq<Observation> | Chain(os, c) && path <= c ensures |c| - |path| < budget {
      if |c| > |path| {
        assert c[|path| - 1 + 1].parent == Some(c[|path| - 1].id) && c[|path| - 1] == Last(path);
        assert path + [c[|path|]] <= c;
        assert Shallow(os, path + [c[|path|]], budget - 1);
      }
    }
  }

  lemma {:induction false} GrowIff(os: seq<Observation>, path: seq<Observation>, budget: nat)
    requires Chain(os, path)
    ensures Grow(os, Last(path), budget).Some? <==> Shallow(os, path, budget)
    decreases budget, 0
  {
    if budget == 0 {
      assert path <= path;
    } else {
      ChildrenExtend(os, path);
      GrowAllIff(os, path, Siblings(os, Some(Last(path).id)), budget - 1);
      if Shallow(os, path, budget) {
        forall o ensures Shallow(os, path + [o], budget - 1) { ShallowBelow(os, path, o, budget); }
      }
      if Grow(os, Last(path), budget).Some? {
        ShallowAbove(os, path, budget);
      }
    }
  }

  lemma {:induction false} GrowAllIff(os: seq<Observation>, path: seq<Observation>, siblings: seq<Observation>, budget: nat)
    requires Extends(os, path, siblings)
    ensures GrowAll(os, siblings, budget).Some? <==> forall o :: o in siblings ==> Shallow(os, path + [o], budget)
    decreases budget, 1, |siblings|
  {
    if siblings != [] {
      assert Last(path + [siblings[0]]) == siblings[0];
      GrowIff(os, path + [siblings[0]], budget);
      GrowAllIff(os, path, siblings[1..], budget);
      assert siblings == [siblings[0]] + siblings[1..];
    }
  }

  /** For any input, ids unique or not: the walk ends within a budget of nested calls exactly when
      no chain from a root has more observations than that. */
  lemma EndsIff(os: seq<Observation>, budget: nat)
    ensures Rows(os, budget).Some? <==> forall path :: Chain(os, path) ==> |path| <= budget
  {
    var roots := Siblings(os, None);
    SiblingsMembers(os, None);
    ChildrenExtend(os, []);
    GrowAllIff(os, [], roots, budget);
    if forall o :: o in roots ==> Shallow(os, [] + [o], budget) {
      forall path | Chain(os, path) ensures |path| <= budget {
        assert [] + [path[0]] <= path;
        assert Shallow(os, [] + [path[0]], budget);
      }
    }
  }

  lemma {:induction false} GrowMore(os: seq<Observation>, o: Observation, budget: nat, more: nat)
    requires budget <= more && Grow(os, o, budget).Some?
    ensures Grow(os, o, more) == Grow(os, o, budget)
    decreases budget, 0
  {
    GrowAllMore(os, Siblings(os, Some(o.id)), budget - 1, more - 1);
  }

  lemma {:induction false} GrowAllMore(os: seq<Observation>, siblings: seq<Observation>, budget: nat, more: nat)
    requires budget <= more && GrowAll(os, siblings, budget).Some?
    ensures GrowAll(os, siblings, more) == GrowAll(os, siblings, budget)
    decreases budget, 1, |siblings|
  {
    if siblings != [] {
      GrowMore(os, siblings[0], budget, more);
      GrowAllMore(os, siblings[1..], budget, more);
    }
  }

  /** With unique ids the walk ends: as many nested calls as there are observations are enough, and
      a bigger budget changes nothing. */
  lemma Terminates(os: seq<Observation>, budget: nat)
    requires UniqueIds(os) && budget >= |os|
    ensures Rows(os, budget).Some? && Rows(os, budget) == Rows(os, |os|)
  {
    forall path | Chain(os, path) ensures |path| <= |os| {
      ChainDistinct(os, path);
      Pigeonhole(path, os);
    }
    EndsIff(os, |os|);
    GrowAllMore(os, Siblings(os, None), |os|, budget);
  }

  // ----- Exactly when the walk ends -----

  /** No observation of the path has the id of an earlier one. */
  ghost predicate NoRepeatedId(path: seq<Observation>) {
    forall i, j :: 0 <= i < j < |path| ==> path[i].id != path[j].id
  }

  /** Below the second of two equal ids the walk goes the same way again, any number of times. */
  lemma {:induction false} Pump(os: seq<Observation>, p: seq<Observation>, i: nat, j: nat, n: nat) returns (q: seq<Observation>)
    requires Chain(os, p) && i < j < |p| && p[i].id == p[j].id
    ensures Chain(os, q) && Last(q) == p[j] && |q| > n
  {
    if n == 0 {
      q := p[..j + 1];
    } else {
      var shorter := Pump(os, p, i, j, n - 1);
      q := shorter + p[i + 1..j + 1];
      forall k | 0 <= k < |q| - 1 ensures q[k + 1].parent == Some(q[k].id) {
        if k >= |shorter| - 1 {
          var l := k - (|shorter| - 1) + i;
          assert q[k + 1] == p[l + 1] && q[k].id == p[l].id;
        }
      }
      forall k | 0 <= k < |q| ensures q[k] in os {
        if k >= |shorter| { assert q[k] == p[k - |shorter| + i + 1]; }
      }
    }
  }

  /** The walk of any trace, ids unique or not, ends if and only if no path from a root meets an id
      twice; and whether it does shows within as many levels as there are observations. */
  lemma EndsExactly(os: seq<Observation>)
    ensures (exists budget :: Rows(os, budget).Some?) <==> forall path :: Chain(os, path) ==> NoRepeatedId(path)
    ensures (exists budget :: Rows(os, budget).Some?) <==> Rows(os, |os|).Some?
  {
    if forall path :: Chain(os, path) ==> NoRepeatedId(path) {
      forall path | Chain(os, path) ensures |path| <= |os| {
        assert NoRepeatedId(path);
        Pigeonhole(path, os);
      }
      EndsIff(os, |os|);
    }
    if budget :| Rows(os, budget).Some? {
      EndsIff(os, budget);
      forall path: seq<Observation> | Chain(os, path) ensures NoRepeatedId(path) {
        forall i, j | 0 <= i < j < |path| ensures path[i].id != path[j].id {
          if path[i].id == path[j].id {
            var longer := Pump(os, path, i, j, budget);
            assert false;
          }
        }
      }
    }
  }

  const LOOP := Observation("a", Some("a"), "b", "SPAN")
  const REPEATED_ID := [Observation("a", None, "a", "SPAN"), LOOP]

  /** A repeated id can make the walk endless: no budget is enough for this trace. */
  lemma {:induction false} EndlessOnRepeatedId(budget: nat)
    ensures Rows(REPEATED_ID, budget) == None
  {
    SiblingsOfRepeated();
    if budget > 0 {
      LoopGrowsForever(budget - 1);
    }
    assert Grow(REPEATED_ID, REPEATED_ID[0], budget) == None;
    assert GrowAll(REPEATED_ID, [REPEATED_ID[0]], budget) == None;
  }

  lemma SingleSorted(o: Observation)
    ensures Sort([o]) == [o]
  {
    assert [o][1..] == [];
  }

  lemma SiblingsOfRepeated()
    ensures Siblings(REPEATED_ID, Some("a")) == [LOOP]
    ensures Siblings(REPEATED_ID, None) == [REPEATED_ID[0]]
  {
    assert REPEATED_ID[..1][..0] == [] && REPEATED_ID[..1] == [REPEATED_ID[0]];
    assert ChildrenOf(REPEATED_ID[..1], Some("a")) == [];
    assert ChildrenOf(REPEATED_ID[..1], None) == [REPEATED_ID[0]];
    assert ChildrenOf(REPEATED_ID, Some("a")) == [LOOP];
    assert ChildrenOf(REPEATED_ID, None) == [REPEATED_ID[0]];
    SingleSorted(LOOP);
    SingleSorted(REPEATED_ID[0]);
  }

  lemma {:induction false} LoopGrowsForever(budget: nat)
    ensures Grow(REPEATED_ID, LOOP, budget) == None
    ensures GrowAll(REPEATED_ID, [LOOP], budget) == None
    decreases budget
  {
    SiblingsOfRepeated();
    if budget > 0 {
      LoopGrowsForever(budget - 1);
    }
  }

  // ----- Every reachable observation exactly once -----

  function Items(t: Tree<Observation>): seq<Observation>
    decreases t, 1
  {
    [t.item] + ItemsAll(t.children)
  }

  function ItemsAll(ts: seq<Tree<Observation>>): seq<Observation>
    decreases ts, 0
  {
    if ts == [] then [] else Items(ts[0]) + ItemsAll(ts[1..])
  }

  ghost predicate Distinct(os: seq<Observation>) {
    forall i, j :: 0 <= i < j < |os| ==> os[i] != os[j]
  }

  /** Some chain that begins with `path` ends at `x`. */
  ghost predicate Under(os: seq<Observation>, path: seq<Observation>, x: Observation) {
    exists more :: Chain(os, path + more) && Last(path + more) == x
  }

  ghost predicate Reachable(os: seq<Observation>, x: Observation) {
    exists path :: Chain(os, path) && Last(path) == x
  }

  ghost predicate UnderOneOf(os: seq<Observation>, path: seq<Observation>, siblings: seq<Observation>, x: Observation) {
    exists i :: 0 <= i < |siblings| && Under(os, path + [siblings[i]], x)
  }

  lemma FirstStepDown(os: seq<Observation>, path: seq<Observation>, more: seq<Observation>)
    requires Chain(os, path) && Chain(os, path + more) && more != []
    ensures UnderOneOf(os, path, Siblings(os, Some(Last(path).id)), Last(path + more))
  {
    var siblings := Siblings(os, Some(Last(path).id));
    SiblingsMembers(os, Some(Last(path).id));
    assert (path + more)[|path| - 1 + 1] == more[0] && (path + more)[|path| - 1] == Last(path);
    assert more[0] in siblings;
    var i :| 0 <= i < |siblings| && siblings[i] == more[0];
    assert path + more == path + [siblings[i]] + more[1..];
  }

  lemma UnderNext(os: seq<Observation>, path: seq<Observation>, x: Observation)
    requires Chain(os, path)
    ensures Under(os, path, x) <==> x == Last(path) || UnderOneOf(os, path, Siblings(os, Some(Last(path).id)), x)
  {
    var siblings := Siblings(os, Some(Last(path).id));
    if Under(os, path, x) {
      var more :| Chain(os, path + more) && Last(path + more) == x;
      if more == [] {
        assert path + more == path;
      } else {
        FirstStepDown(os, path, more);
      }
    }
    if x == Last(path) {
      assert path + [] == path;
    }
    if UnderOneOf(os, path, siblings, x) {
      UnderAbove(os, path, siblings, x);
    }
  }

  lemma UnderAbove(os: seq<Observation>, path: seq<Observation>, siblings: seq<Observation>, x: Observation)
    requires UnderOneOf(os, path, siblings, x)
    ensures Under(os, path, x)
  {
    var i :| 0 <= i < |siblings| && Under(os, path + [siblings[i]], x);
    var more :| Chain(os, path + [siblings[i]] + more) && Last(path + [siblings[i]] + more) == x;
    assert path + [siblings[i]] + more == path + ([siblings[i]] + more);
  }

  /** The observations under two different siblings are different. */
  lemma UnderApart(os: seq<Observation>, path: seq<Observation>, a: Observation, b: Observation, x: Observation)
    requires UniqueIds(os) && Under(os, path + [a], x) && Under(os, path + [b], x)
    ensures a == b
  {
    var m :| Chain(os, path + [a] + m) && Last(path + [a] + m) == x;
    var n :| Chain(os, path + [b] + n) && Last(path + [b] + n) == x;
    ChainUnique(os, path + [a] + m, path + [b] + n);
    assert (path + [a] + m)[|path|] == a && (path + [b] + n)[|path|] == b;
  }

  lemma NotUnderChild(os: seq<Observation>, path: seq<Observation>, a: Observation)
    requires UniqueIds(os) && Chain(os, path)
    ensures !Under(os, path + [a], Last(path))
  {
    if Under(os, path + [a], Last(path)) {
      var m :| Chain(os, path + [a] + m) && Last(path + [a] + m) == Last(path);
      ChainUnique(os, path + [a] + m, path);
    }
  }

  lemma {:induction false} GrowItems(os: seq<Observation>, path: seq<Observation>, budget: nat)
    requires UniqueIds(os) && Chain(os, path) && Grow(os, Last(path), budget).Some?
    ensures var items := Items(Grow(os, Last(path), budget).value);
      Distinct(items) && forall x :: x in items <==> Under(os, path, x)
    decreases budget, 0
  {
    var siblings := Siblings(os, Some(Last(path).id));
    ChildrenExtend(os, path);
    SiblingsDistinct(os, Some(Last(path).id));
    GrowAllItems(os, path, siblings, budget - 1);
    var below := ItemsAll(GrowAll(os, siblings, budget - 1).value);
    var items := Items(Grow(os, Last(path), budget).value);
    assert items == [Last(path)] + below;
    forall x ensures x in items <==> Under(os, path, x) {
      UnderNext(os, path, x);
    }
    if Last(path) in below {
      var i :| 0 <= i < |siblings| && Under(os, path + [siblings[i]], Last(path));
      NotUnderChild(os, path, siblings[i]);
    }
  }

  lemma {:induction false} GrowAllItems(os: seq<Observation>, path: seq<Observation>, siblings: seq<Observation>, budget: nat)
    requires UniqueIds(os) && Extends(os, path, siblings) && Distinct(siblings) && GrowAll(os, siblings, budget).Some?
    ensures var items := ItemsAll(GrowAll(os, siblings, budget).value);
      Distinct(items) && forall x :: x in items <==> UnderOneOf(os, path, siblings, x)
    decreases budget, 1, |siblings|
  {
    if siblings != [] {
      var s, rest := siblings[0], siblings[1..];
      assert Last(path + [s]) == s;
      GrowItems(os, path + [s], budget);
      GrowAllItems(os, path, rest, budget);
      var first := Items(Grow(os, s, budget).value);
      var others := ItemsAll(GrowAll(os, rest, budget).value);
      assert ItemsAll(GrowAll(os, siblings, budget).value) == first + others;
      forall x ensures UnderOneOf(os, path, siblings, x) <==> Under(os, path + [s], x) || UnderOneOf(os, path, rest, x) {
        if UnderOneOf(os, path, rest, x) {
          var i :| 0 <= i < |rest| && Under(os, path + [rest[i]], x);
          assert rest[i] == siblings[i + 1];
        }
        if UnderOneOf(os, path, siblings, x) && !Under(os, path + [s], x) {
          var i :| 0 <= i < |siblings| && Under(os, path + [siblings[i]], x);
          assert siblings[i] == rest[i - 1];
        }
      }
      forall x | x in first ensures x !in others {
        if UnderOneOf(os, path, rest, x) {
          var i :| 0 <= i < |rest| && Under(os, path + [rest[i]], x);
          assert siblings[0] != siblings[i + 1];
          UnderApart(os, path, s, rest[i], x);
        }
      }
      DistinctConcat(first, others);
    }
  }

  lemma DistinctConcat(xs: seq<Observation>, ys: seq<Observation>)
    requires Distinct(xs) && Distinct(ys) && forall x :: x in xs ==> x !in ys
    ensures Distinct(xs + ys)
  {
    var both := xs + ys;
    forall i, j | 0 <= i < j < |both| ensures both[i] != both[j] {
      if i < |xs| <= j {
        assert both[i] in xs && both[j] in ys;
      }
    }
  }

  lemma SiblingsDistinct(os: seq<Observation>, parent: Option<string>)
    requires UniqueIds(os)
    ensures Distinct(Siblings(os, parent))
  {
    var s := Siblings(os, parent);
    SortContents(ChildrenOf(os, parent));
    ChildrenContents(os, parent);
    forall i, j | 0 <= i < j < |s| ensures s[i] != s[j] {
      if s[i] == s[j] {
        OccursTwice(s, i, j);
        OccursOnce(os, s[i]);
      }
    }
  }

  lemma OccursTwice(s: seq<Observation>, i: nat, j: nat)
    requires i < j < |s| && s[i] == s[j]
    ensures multiset(s)[s[i]] >= 2
  {
    assert s == s[..j] + [s[j]] + s[j + 1..];
    assert s[i] in s[..j];
  }

  lemma {:induction false} OccursOnce(os: seq<Observation>, o: Observation)
    requires UniqueIds(os)
    ensures multiset(os)[o] <= 1
  {
    if os != [] {
      OccursOnce(os[1..], o);
      assert os == [os[0]] + os[1..];
      if o == os[0] {
        assert o !in os[1..];
      }
    }
  }

  /** A row that shows `x`: at the depth of a chain from a root that ends there, with its type, and
      with its name unless it is a generation. */
  ghost predicate RowFor(os: seq<Observation>, row: (nat, Label), x: Observation) {
    && row.1 == Label(if x.typ == "GENERATION" then "<generation>" else x.name, x.typ)
    && exists path :: Chain(os, path) && Last(path) == x && row.0 == |path| - 1
  }

  ghost predicate RowsFor(os: seq<Observation>, rows: seq<(nat, Label)>, shown: seq<Observation>) {
    |rows| == |shown| && forall i :: 0 <= i < |rows| ==> RowFor(os, rows[i], shown[i])
  }

  lemma {:induction false} GrowRows(os: seq<Observation>, path: seq<Observation>, budget: nat)
    requires Chain(os, path) && Grow(os, Last(path), budget).Some?
    ensures var t := Grow(os, Last(path), budget).value;
      RowsFor(os, Flatten(t, |path| - 1), Items(t))
    decreases budget, 0
  {
    var siblings := Siblings(os, Some(Last(path).id));
    ChildrenExtend(os, path);
    GrowAllRows(os, path, siblings, budget - 1);
    assert RowFor(os, (|path| - 1, LabelOf(Last(path))), Last(path));
  }

  lemma {:induction false} GrowAllRows(os: seq<Observation>, path: seq<Observation>, siblings: seq<Observation>, budget: nat)
    requires Extends(os, path, siblings) && GrowAll(os, siblings, budget).Some?
    ensures RowsFor(os, FlattenAll(GrowAll(os, siblings, budget).value, |path|), ItemsAll(GrowAll(os, siblings, budget).value))
    decreases budget, 1, |siblings|
  {
    if siblings != [] {
      assert Extends(os, path, siblings[1..]);
      assert Last(path + [siblings[0]]) == siblings[0];
      GrowRows(os, path + [siblings[0]], budget);
      GrowAllRows(os, path, siblings[1..], budget);
    }
  }

  lemma RootsReach(os: seq<Observation>, x: Observation)
    ensures UnderOneOf(os, [], Siblings(os, None), x) <==> Reachable(os, x)
  {
    var roots := Siblings(os, None);
    SiblingsMembers(os, None);
    if UnderOneOf(os, [], roots, x) {
      var i :| 0 <= i < |roots| && Under(os, [] + [roots[i]], x);
      var more :| Chain(os, [] + [roots[i]] + more) && Last([] + [roots[i]] + more) == x;
    }
    if Reachable(os, x) {
      var path :| Chain(os, path) && Last(path) == x;
      assert path[0] in roots;
      var i :| 0 <= i < |roots| && roots[i] == path[0];
      assert [] + [roots[i]] + path[1..] == path;
      assert Under(os, [] + [roots[i]], x);
    }
  }

  /** With unique ids there is one row per reachable observation: the rows show, each at its depth, a
      list that has each of them once and nothing else. If all are reachable, that list is a
      rearrangement of the input. */
  lemma ExactlyOnce(os: seq<Observation>) returns (shown: seq<Observation>)
    requires UniqueIds(os)
    ensures Rows(os, |os|).Some? && |Rows(os, |os|).value| == |shown|
    ensures RowsFor(os, Rows(os, |os|).value, shown)
    ensures Distinct(shown) && forall x :: x in shown <==> Reachable(os, x)
    ensures (forall x :: x in os ==> Reachable(os, x)) <==> multiset(shown) == multiset(os)
  {
    Terminates(os, |os|);
    var ts := Forest(os, |os|).value;
    shown := ItemsAll(ts);
    ChildrenExtend(os, []);
    SiblingsMembers(os, None);
    SiblingsDistinct(os, None);
    GrowAllItems(os, [], Siblings(os, None), |os|);
    GrowAllRows(os, [], Siblings(os, None), |os|);
    forall x ensures x in shown <==> Reachable(os, x) {
      RootsReach(os, x);
    }
    SameContents(os, shown);
  }

  lemma SameContents(os: seq<Observation>, shown: seq<Observation>)
    requires UniqueIds(os) && Distinct(shown)
    requires forall x :: x in shown <==> Reachable(os, x)
    ensures (forall x :: x in os ==> Reachable(os, x)) <==> multiset(shown) == multiset(os)
  {
    forall x | x in shown ensures x in os {
      var path :| Chain(os, path) && Last(path) == x;
    }
    if forall x :: x in os ==> Reachable(os, x) {
      forall x ensures multiset(shown)[x] == multiset(os)[x] {
        OccursOnce(os, x);
        DistinctOccursOnce(shown, x);
        assert x in os <==> x in multiset(os);
        assert x in shown <==> x in multiset(shown);
      }
    }
    if multiset(shown) == multiset(os) {
      forall x | x in os ensures Reachable(os, x) {
        assert x in multiset(os);
        assert x in multiset(shown);
        assert x in shown;
      }
    }
  }

  lemma {:induction false} DistinctOccursOnce(s: seq<Observation>, o: Observation)
    requires Distinct(s)
    ensures multiset(s)[o] <= 1
  {
    if s != [] {
      DistinctOccursOnce(s[1..], o);
      assert s == [s[0]] + s[1..];
      if o == s[0] {
        assert o !in s[1..];
      }
    }
  }
}
