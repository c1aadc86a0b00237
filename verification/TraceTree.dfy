/**
 The trace flattener: observations, given in any order with parent links, become rows of a
 depth-labelled preorder. The recursive walk carries a budget of calls, so that a walk that would
 never end is a value (`None`) and termination is a theorem.
 */
module TraceTree {
  import opened Wrappers

  datatype Observation = Observation(id: string, parent: Option<string>, name: string, typ: string)

  datatype Tree<T> = Node(item: T, children: seq<Tree<T>>)

  /** What a row shows of an observation. */
  datatype Label = Label(name: string, typ: string)

  function LabelOf(o: Observation): Label {
    Label(if o.typ == "GENERATION" then "<generation>" else o.name, o.typ)
  }

  // ----- Sorting siblings by name -----

  /** Python's order on strings: by code point, a proper prefix first. */
  predicate NameLe(a: string, b: string) {
    a == "" || (b != "" && (a[0] < b[0] || (a[0] == b[0] && NameLe(a[1..], b[1..]))))
  }

  /** Put `o` before everything that is not smaller; it came first in the input. */
  function Insert(o: Observation, sorted: seq<Observation>): seq<Observation> {
    if sorted == [] || NameLe(o.name, sorted[0].name) then [o] + sorted
    else [sorted[0]] + Insert(o, sorted[1..])
  }

  /** The stable sort by name. */
  function Sort(os: seq<Observation>): seq<Observation> {
    if os == [] then [] else Insert(os[0], Sort(os[1..]))
  }

  /** The observations with this parent, in input order. */
  function ChildrenOf(os: seq<Observation>, parent: Option<string>): seq<Observation> {
    if os == [] then []
    else
      var init := ChildrenOf(os[..|os| - 1], parent);
      if os[|os| - 1].parent == parent then init + [os[|os| - 1]] else init
  }

  function Siblings(os: seq<Observation>, parent: Option<string>): seq<Observation> {
    Sort(ChildrenOf(os, parent))
  }

  // ----- The walk -----

  function Grow(os: seq<Observation>, o: Observation, budget: nat): Option<Tree<Observation>>
    decreases budget, 0
  {
    if budget == 0 then None
    else
      match GrowAll(os, Siblings(os, Some(o.id)), budget - 1)
      case None => None
      case Some(children) => Some(Node(o, children))
  }

  function GrowAll(os: seq<Observation>, siblings: seq<Observation>, budget: nat): Option<seq<Tree<Observation>>>
    decreases budget, 1, |siblings|
  {
    if siblings == [] then Some([])
    else
      match Grow(os, siblings[0], budget)
      case None => None
      case Some(first) =>
        match GrowAll(os, siblings[1..], budget)
        case None => None
        case Some(rest) => Some([first] + rest)
  }

  function Flatten(t: Tree<Observation>, depth: nat): seq<(nat, Label)>
    decreases t, 1
  {
    [(depth, LabelOf(t.item))] + FlattenAll(t.children, depth + 1)
  }

  function FlattenAll(ts: seq<Tree<Observation>>, depth: nat): seq<(nat, Label)>
    decreases ts, 0
  {
    if ts == [] then [] else Flatten(ts[0], depth) + FlattenAll(ts[1..], depth)
  }

  /** The forest of a trace; `None` when the walk does not end within the budget. */
  function Forest(os: seq<Observation>, budget: nat): Option<seq<Tree<Observation>>> {
    GrowAll(os, Siblings(os, None), budget)
  }

  function Rows(os: seq<Observation>, budget: nat): Option<seq<(nat, Label)>> {
    match Forest(os, budget)
    case None => None
    case Some(ts) => Some(FlattenAll(ts, 0))
  }

  function Roots(ts: seq<Tree<Observation>>): seq<Observation> {
    seq(|ts|, i requires 0 <= i < |ts| => ts[i].item)
  }

  /** In every tree of the list, the children of a node are the siblings under its id, in order. */
  ghost predicate FullyGrown(os: seq<Observation>, ts: seq<Tree<Observation>>) {
    forall i :: 0 <= i < |ts| ==>
      Roots(ts[i].children) == Siblings(os, Some(ts[i].item.id)) && FullyGrown(os, ts[i].children)
  }

  lemma {:induction false} GrowsFully(os: seq<Observation>, o: Observation, budget: nat)
    requires Grow(os, o, budget).Some?
    ensures var t := Grow(os, o, budget).value;
      t.item == o && Roots(t.children) == Siblings(os, Some(o.id)) && FullyGrown(os, t.children)
    decreases budget, 0
  {
    GrowsAllFully(os, Siblings(os, Some(o.id)), budget - 1);
  }

  lemma {:induction false} GrowsAllFully(os: seq<Observation>, siblings: seq<Observation>, budget: nat)
    requires GrowAll(os, siblings, budget).Some?
    ensures Roots(GrowAll(os, siblings, budget).value) == siblings && FullyGrown(os, GrowAll(os, siblings, budget).value)
    decreases budget, 1, |siblings|
  {
    if siblings != [] {
      GrowsFully(os, siblings[0], budget);
      GrowsAllFully(os, siblings[1..], budget);
      var first, rest := Grow(os, siblings[0], budget).value, GrowAll(os, siblings[1..], budget).value;
      assert Roots([first] + rest) == [siblings[0]] + Roots(rest);
      assert siblings == [siblings[0]] + siblings[1..];
    }
  }

  /** The forest of a trace whose walk ends: its roots are the observations without a parent, the
      children of each node those that name it as their parent, all in sibling order. */
  lemma ForestExactly(os: seq<Observation>, budget: nat)
    requires Forest(os, budget).Some?
    ensures Roots(Forest(os, budget).value) == Siblings(os, None) && FullyGrown(os, Forest(os, budget).value)
  {
    GrowsAllFully(os, Siblings(os, None), budget);
  }

  // ----- The code, with its dict and its list of rows -----

  function Lookup(children: map<Option<string>, seq<Observation>>, parent: Option<string>): seq<Observation> {
    if parent in children then children[parent] else []
  }

  method GroupByParent(os: seq<Observation>) returns (children: map<Option<string>, seq<Observation>>)
    ensures forall parent :: Lookup(children, parent) == ChildrenOf(os, parent)
  {
    children := map[];
    for i := 0 to |os|
      invariant forall parent :: Lookup(children, parent) == ChildrenOf(os[..i], parent)
    {
      assert os[..i + 1][..i] == os[..i];
      children := children[os[i].parent := Lookup(children, os[i].parent) + [os[i]]];
    }
    assert os[..|os|] == os;
  }

  method Walk(ghost os: seq<Observation>, children: map<Option<string>, seq<Observation>>, o: Observation,
              depth: nat, rows: seq<(nat, Label)>, budget: nat) returns (out: Option<seq<(nat, Label)>>)
    requires forall parent :: Lookup(children, parent) == ChildrenOf(os, parent)
    ensures match Grow(os, o, budget)
            case None => out == None
            case Some(t) => out == Some(rows + Flatten(t, depth))
    decreases budget, 0
  {
    if budget == 0 {
      return None;
    }
    out := WalkEach(os, children, Sort(Lookup(children, Some(o.id))), depth + 1, rows + [(depth, LabelOf(o))], budget - 1);
    if out.Some? {
      ghost var t := Grow(os, o, budget).value;
      assert rows + [(depth, LabelOf(o))] + FlattenAll(t.children, depth + 1) == rows + Flatten(t, depth);
    }
  }

  method WalkEach(ghost os: seq<Observation>, children: map<Option<string>, seq<Observation>>, siblings: seq<Observation>,
                  depth: nat, rows: seq<(nat, Label)>, budget: nat) returns (out: Option<seq<(nat, Label)>>)
    requires forall parent :: Lookup(children, parent) == ChildrenOf(os, parent)
    ensures match GrowAll(os, siblings, budget)
            case None => out == None
            case Some(ts) => out == Some(rows + FlattenAll(ts, depth))
    decreases budget, 1
  {
    out := Some(rows);
    ghost var done := [];
    GrownNothing(os, siblings, budget);
    assert rows + [] == rows;
    for i := 0 to |siblings|
      invariant out == Some(rows + FlattenAll(done, depth))
      invariant Grown(os, siblings, i, done, budget)
    {
      GrownNext(os, siblings, i, done, budget, depth);
      out := Walk(os, children, siblings[i], depth, out.value, budget);
      if out.None? {
        return;
      }
      done := done + [Grow(os, siblings[i], budget).value];
    }
    assert siblings[|siblings|..] == [] && done + [] == done;
  }

  function Following(done: seq<Tree<Observation>>, rest: Option<seq<Tree<Observation>>>): Option<seq<Tree<Observation>>> {
    match rest
    case None => None
    case Some(ts) => Some(done + ts)
  }

  /** The first `i` siblings have grown into `done`. */
  predicate Grown(os: seq<Observation>, siblings: seq<Observation>, i: nat, done: seq<Tree<Observation>>, budget: nat) {
    i <= |siblings| && GrowAll(os, siblings, budget) == Following(done, GrowAll(os, siblings[i..], budget))
  }

  lemma GrownNothing(os: seq<Observation>, siblings: seq<Observation>, budget: nat)
    ensures Grown(os, siblings, 0, [], budget)
  {
    assert siblings[0..] == siblings;
    if GrowAll(os, siblings, budget).Some? {
      assert [] + GrowAll(os, siblings, budget).value == GrowAll(os, siblings, budget).value;
    }
  }

  lemma GrownNext(os: seq<Observation>, siblings: seq<Observation>, i: nat, done: seq<Tree<Observation>>, budget: nat, depth: nat)
    requires i < |siblings| && Grown(os, siblings, i, done, budget)
    ensures match Grow(os, siblings[i], budget)
            case None => GrowAll(os, siblings, budget) == None
            case Some(t) =>
              && Grown(os, siblings, i + 1, done + [t], budget)
              && forall rows: seq<(nat, Label)> ::
                   rows + FlattenAll(done, depth) + Flatten(t, depth) == rows + FlattenAll(done + [t], depth)
  {
    assert siblings[i..][1..] == siblings[i + 1..];
    if Grow(os, siblings[i], budget).Some? {
      var t, rest := Grow(os, siblings[i], budget).value, GrowAll(os, siblings[i + 1..], budget);
      if rest.Some? {
        assert done + ([t] + rest.value) == done + [t] + rest.value;
      }
      forall rows: seq<(nat, Label)>
        ensures rows + FlattenAll(done, depth) + Flatten(t, depth) == rows + FlattenAll(done + [t], depth)
      {
        RowsAppend(rows, done, t, depth);
      }
    }
  }

  lemma RowsAppend(rows: seq<(nat, Label)>, done: seq<Tree<Observation>>, t: Tree<Observation>, depth: nat)
    ensures rows + FlattenAll(done, depth) + Flatten(t, depth) == rows + FlattenAll(done + [t], depth)
  {
    FlattenAppend(done, [t], depth);
    assert FlattenAll([t], depth) == Flatten(t, depth);
  }

  lemma {:induction false} FlattenAppend(xs: seq<Tree<Observation>>, ys: seq<Tree<Observation>>, depth: nat)
    ensures FlattenAll(xs + ys, depth) == FlattenAll(xs, depth) + FlattenAll(ys, depth)
  {
    if xs == [] {
      assert xs + ys == ys;
    } else {
      assert (xs + ys)[1..] == xs[1..] + ys;
      FlattenAppend(xs[1..], ys, depth);
    }
  }

  method BuildTree(observations: seq<Observation>, budget: nat) returns (rows: Option<seq<(nat, Label)>>)
    ensures rows == Rows(observations, budget)
  {
    var children := GroupByParent(observations);
    rows := WalkEach(observations, children, Sort(Lookup(children, None)), 0, [], budget);
    if Forest(observations, budget).Some? {
      assert [] + FlattenAll(Forest(observations, budget).value, 0) == FlattenAll(Forest(observations, budget).value, 0);
    }
  }

  // ----- Facts about sorting -----

  lemma {:induction false} NameLeTotal(a: string, b: string)
    ensures NameLe(a, b) || NameLe(b, a)
    ensures NameLe(a, b) && NameLe(b, a) ==> a == b
  {
    if a != "" && b != "" && a[0] == b[0] {
      NameLeTotal(a[1..], b[1..]);
      assert a == [a[0]] + a[1..] && b == [b[0]] + b[1..];
    }
  }

  /** Where the order of two names is decided. */
  predicate DecidedAt(a: string, b: string, k: nat) {
    && k <= |a| && k <= |b| && a[..k] == b[..k]
    && (k == |a| || (k < |b| && a[k] < b[k]))
  }

  predicate Ascending(a: string, b: string) {
    exists k: nat :: k <= |a| && DecidedAt(a, b, k)
  }

  /** The order on names is the lexicographic one, ascending, by code point. */
  lemma {:induction false} NameLeIff(a: string, b: string)
    ensures NameLe(a, b) <==> Ascending(a, b)
  {
    if a == "" {
      assert DecidedAt(a, b, 0);
    } else if b != "" {
      if a[0] < b[0] {
        assert DecidedAt(a, b, 0);
      } else if a[0] == b[0] {
        NameLeIff(a[1..], b[1..]);
        assert a == [a[0]] + a[1..] && b == [b[0]] + b[1..];
        if k: nat :| DecidedAt(a[1..], b[1..], k) {
          assert a[..k + 1] == [a[0]] + a[1..][..k] && b[..k + 1] == [b[0]] + b[1..][..k];
          assert DecidedAt(a, b, k + 1);
        }
        if k: nat :| DecidedAt(a, b, k) {
          assert a[1..][..k - 1] == a[..k][1..] && b[1..][..k - 1] == b[..k][1..];
          assert DecidedAt(a[1..], b[1..], k - 1);
        }
      } else {
        forall k: nat ensures !DecidedAt(a, b, k) {
          if 0 < k <= |a| && k <= |b| {
            assert a[..k][0] == a[0] && b[..k][0] == b[0];
          }
        }
      }
    }
  }

  lemma {:induction false} NameLeTransitive(a: string, b: string, c: string)
    requires NameLe(a, b) && NameLe(b, c)
    ensures NameLe(a, c)
  {
    if a != "" && a[0] == b[0] == c[0] {
      NameLeTransitive(a[1..], b[1..], c[1..]);
    }
  }

  lemma {:induction false} InsertContents(o: Observation, sorted: seq<Observation>)
    ensures multiset(Insert(o, sorted)) == multiset{o} + multiset(sorted)
  {
    if sorted != [] && !NameLe(o.name, sorted[0].name) {
      InsertContents(o, sorted[1..]);
      assert sorted == [sorted[0]] + sorted[1..];
    }
  }

  lemma {:induction false} SortContents(os: seq<Observation>)
    ensures multiset(Sort(os)) == multiset(os)
  {
    if os != [] {
      SortContents(os[1..]);
      InsertContents(os[0], Sort(os[1..]));
      assert os == [os[0]] + os[1..];
    }
  }

  ghost predicate Sorted(os: seq<Observation>) {
    forall i, j :: 0 <= i < j < |os| ==> NameLe(os[i].name, os[j].name)
  }

  lemma {:induction false} InsertSorted(o: Observation, sorted: seq<Observation>)
    requires Sorted(sorted)
    ensures Sorted(Insert(o, sorted))
  {
    if sorted == [] {
    } else if NameLe(o.name, sorted[0].name) {
      forall j | 0 <= j < |sorted| ensures NameLe(o.name, sorted[j].name) {
        if j > 0 {
          NameLeTransitive(o.name, sorted[0].name, sorted[j].name);
        }
      }
    } else {
      NameLeTotal(o.name, sorted[0].name);
      InsertSorted(o, sorted[1..]);
      InsertContents(o, sorted[1..]);
      var rest := Insert(o, sorted[1..]);
      forall j | 0 <= j < |rest| ensures NameLe(sorted[0].name, rest[j].name) {
        assert rest[j] in multiset(rest);
        assert rest[j] == o || rest[j] in sorted[1..];
      }
    }
  }

  lemma {:induction false} SortSorted(os: seq<Observation>)
    ensures Sorted(Sort(os))
  {
    if os != [] {
      SortSorted(os[1..]);
      InsertSorted(os[0], Sort(os[1..]));
    }
  }

  /** No two different observations of the list share a name. */
  ghost predicate DistinctNames(os: seq<Observation>) {
    forall a, b :: a in os && b in os && a.name == b.name ==> a == b
  }

  lemma {:induction false} SortedUnique(xs: seq<Observation>, ys: seq<Observation>)
    requires Sorted(xs) && Sorted(ys) && multiset(xs) == multiset(ys) && DistinctNames(xs)
    ensures xs == ys
  {
    assert |xs| == |multiset(xs)| == |multiset(ys)| == |ys|;
    if xs != [] {
      SameHead(xs, ys);
      TailContents(xs);
      TailContents(ys);
      TailNames(xs);
      SortedUnique(xs[1..], ys[1..]);
      assert xs == [xs[0]] + xs[1..] && ys == [ys[0]] + ys[1..];
    }
  }

  lemma SameHead(xs: seq<Observation>, ys: seq<Observation>)
    requires Sorted(xs) && Sorted(ys) && multiset(xs) == multiset(ys) && DistinctNames(xs) && xs != [] && ys != []
    ensures xs[0] == ys[0]
  {
    assert xs[0] in multiset(ys) && ys[0] in multiset(xs);
    NameLeTotal(xs[0].name, ys[0].name);
  }

  lemma TailContents(xs: seq<Observation>)
    requires xs != []
    ensures multiset(xs[1..]) == multiset(xs) - multiset{xs[0]}
  {
    assert xs == [xs[0]] + xs[1..];
  }

  lemma TailNames(xs: seq<Observation>)
    requires xs != [] && DistinctNames(xs)
    ensures DistinctNames(xs[1..])
  {
    assert forall x :: x in xs[1..] ==> x in xs;
  }

  lemma {:induction false} ChildrenContents(os: seq<Observation>, parent: Option<string>)
    ensures forall o :: multiset(ChildrenOf(os, parent))[o] == if o.parent == parent then multiset(os)[o] else 0
  {
    if os != [] {
      ChildrenContents(os[..|os| - 1], parent);
      assert os == os[..|os| - 1] + [os[|os| - 1]];
    }
  }

  /** The observations with this parent and this name, in input order. */
  function Selected(os: seq<Observation>, parent: Option<string>, name: string): seq<Observation> {
    if os == [] then []
    else
      var init, last := Selected(os[..|os| - 1], parent, name), os[|os| - 1];
      if last.parent == parent && last.name == name then init + [last] else init
  }

  lemma {:induction false} NamedGrows(os: seq<Observation>, o: Observation, name: string)
    ensures Named(os + [o], name) == if o.name == name then Named(os, name) + [o] else Named(os, name)
  {
    if os == [] {
      assert [o][1..] == [] && os + [o] == [o];
    } else {
      assert (os + [o])[1..] == os[1..] + [o];
      NamedGrows(os[1..], o, name);
    }
  }

  lemma {:induction false} ChildrenSelected(os: seq<Observation>, parent: Option<string>, name: string)
    ensures Named(ChildrenOf(os, parent), name) == Selected(os, parent, name)
  {
    if os != [] {
      ChildrenSelected(os[..|os| - 1], parent, name);
      NamedGrows(ChildrenOf(os[..|os| - 1], parent), os[|os| - 1], name);
    }
  }

  /** The siblings under a parent: exactly the observations with that parent, names ascending, and
      those of one name in input order. */
  lemma SiblingsExactly(os: seq<Observation>, parent: Option<string>)
    ensures forall o :: multiset(Siblings(os, parent))[o] == if o.parent == parent then multiset(os)[o] else 0
    ensures forall i, j :: 0 <= i < j < |Siblings(os, parent)| ==>
      Ascending(Siblings(os, parent)[i].name, Siblings(os, parent)[j].name)
    ensures forall name :: Named(Siblings(os, parent), name) == Selected(os, parent, name)
  {
    var children, siblings := ChildrenOf(os, parent), Siblings(os, parent);
    ChildrenContents(os, parent);
    SortContents(children);
    SortSorted(children);
    forall i, j | 0 <= i < j < |siblings| ensures Ascending(siblings[i].name, siblings[j].name) {
      NameLeIff(siblings[i].name, siblings[j].name);
    }
    forall name ensures Named(siblings, name) == Selected(os, parent, name) {
      SortStable(children, name);
      ChildrenSelected(os, parent, name);
    }
  }

  // ----- The rows do not depend on the input order -----

  lemma {:induction false} GrowSame(os: seq<Observation>, ps: seq<Observation>, o: Observation, budget: nat)
    requires forall parent :: Siblings(os, parent) == Siblings(ps, parent)
    ensures Grow(os, o, budget) == Grow(ps, o, budget)
    decreases budget, 0
  {
    if budget > 0 {
      GrowAllSame(os, ps, Siblings(os, Some(o.id)), budget - 1);
    }
  }

  lemma {:induction false} GrowAllSame(os: seq<Observation>, ps: seq<Observation>, siblings: seq<Observation>, budget: nat)
    requires forall parent :: Siblings(os, parent) == Siblings(ps, parent)
    ensures GrowAll(os, siblings, budget) == GrowAll(ps, siblings, budget)
    decreases budget, 1, |siblings|
  {
    if siblings != [] {
      GrowSame(os, ps, siblings[0], budget);
      GrowAllSame(os, ps, siblings[1..], budget);
    }
  }

  // ----- The sort is stable -----

  function Named(os: seq<Observation>, name: string): seq<Observation> {
    if os == [] then []
    else if os[0].name == name then [os[0]] + Named(os[1..], name)
    else Named(os[1..], name)
  }

  lemma {:induction false} InsertStable(o: Observation, sorted: seq<Observation>, name: string)
    ensures Named(Insert(o, sorted), name) == Named([o] + sorted, name)
  {
    NameLeTotal(o.name, o.name);
    if sorted != [] && !NameLe(o.name, sorted[0].name) {
      InsertStable(o, sorted[1..], name);
      assert ([o] + sorted)[1..] == sorted && ([o] + sorted[1..])[1..] == sorted[1..];
    }
  }

  lemma {:induction false} SortStable(os: seq<Observation>, name: string)
    ensures Named(Sort(os), name) == Named(os, name)
  {
    if os != [] {
      SortStable(os[1..], name);
      InsertStable(os[0], Sort(os[1..]), name);
      assert ([os[0]] + Sort(os[1..]))[1..] == Sort(os[1..]);
    }
  }

  lemma {:induction false} FirstNamed(os: seq<Observation>, name: string)
    ensures Named(os, name) != [] ==> exists i :: 0 <= i < |os| && os[i] == Named(os, name)[0] && os[i].name == name
  {
    if os != [] && os[0].name != name {
      FirstNamed(os[1..], name);
      if Named(os, name) != [] {
        var i :| 0 <= i < |os[1..]| && os[1..][i] == Named(os[1..], name)[0] && os[1..][i].name == name;
        assert os[i + 1] == os[1..][i];
      }
    }
  }

  lemma HeadNoLater(xs: seq<Observation>, ys: seq<Observation>)
    requires Sorted(ys) && xs != []
    requires Named(xs, xs[0].name) == Named(ys, xs[0].name)
    ensures ys != [] && NameLe(ys[0].name, xs[0].name)
  {
    FirstNamed(ys, xs[0].name);
    var i :| 0 <= i < |ys| && ys[i].name == xs[0].name;
    NameLeTotal(ys[0].name, ys[0].name);
  }

  lemma {:induction false} SortedByTies(xs: seq<Observation>, ys: seq<Observation>)
    requires Sorted(xs) && Sorted(ys) && forall name :: Named(xs, name) == Named(ys, name)
    ensures xs == ys
  {
    if xs != [] {
      HeadNoLater(xs, ys);
      HeadNoLater(ys, xs);
      NameLeTotal(xs[0].name, ys[0].name);
      assert Named(xs, xs[0].name)[0] == xs[0] && Named(ys, xs[0].name)[0] == ys[0];
      forall name ensures Named(xs[1..], name) == Named(ys[1..], name) {
        assert Named(xs, name) == Named(ys, name);
        if xs[0].name == name {
          assert Named(xs[1..], name) == Named(xs, name)[1..] && Named(ys[1..], name) == Named(ys, name)[1..];
        }
      }
      SortedByTies(xs[1..], ys[1..]);
      assert xs == [xs[0]] + xs[1..] && ys == [ys[0]] + ys[1..];
    } else if ys != [] {
      HeadNoLater(ys, xs);
    }
  }

  /** The rows depend on the order of the input only through the order in which siblings of the
      same name come. */
  lemma OnlyTiesMatter(os: seq<Observation>, ps: seq<Observation>, budget: nat)
    requires forall parent, name :: Named(ChildrenOf(os, parent), name) == Named(ChildrenOf(ps, parent), name)
    ensures Rows(os, budget) == Rows(ps, budget)
  {
    forall parent ensures Siblings(os, parent) == Siblings(ps, parent) {
      var xs, ys := ChildrenOf(os, parent), ChildrenOf(ps, parent);
      SortSorted(xs);
      SortSorted(ys);
      forall name ensures Named(Sort(xs), name) == Named(Sort(ys), name) {
        SortStable(xs, name);
        SortStable(ys, name);
      }
      SortedByTies(Sort(xs), Sort(ys));
    }
    GrowAllSame(os, ps, Siblings(os, None), budget);
  }

  /** With distinct names among siblings, any reordering of the input gives the same rows. */
  lemma OrderIndependent(os: seq<Observation>, ps: seq<Observation>, budget: nat)
    requires multiset(os) == multiset(ps)
    requires forall parent :: DistinctNames(ChildrenOf(os, parent))
    ensures Rows(os, budget) == Rows(ps, budget)
  {
    forall parent ensures Siblings(os, parent) == Siblings(ps, parent) {
      var xs, ys := ChildrenOf(os, parent), ChildrenOf(ps, parent);
      ChildrenContents(os, parent);
      ChildrenContents(ps, parent);
      assert multiset(xs) == multiset(ys);
      SortContents(xs);
      SortContents(ys);
      SortSorted(xs);
      SortSorted(ys);
      forall a, b | a in Sort(xs) && b in Sort(xs) && a.name == b.name ensures a == b {
        assert a in multiset(Sort(xs)) && b in multiset(Sort(xs));
      }
      SortedUnique(Sort(xs), Sort(ys));
    }
    GrowAllSame(os, ps, Siblings(os, None), budget);
  }

  // ----- The rows can be turned back into the forest -----

  function Labels(t: Tree<Observation>): Tree<Label>
    decreases t, 1
  {
    Node(LabelOf(t.item), LabelsAll(t.children))
  }

  function LabelsAll(ts: seq<Tree<Observation>>): seq<Tree<Label>>
    decreases ts, 0
  {
    if ts == [] then [] else [Labels(ts[0])] + LabelsAll(ts[1..])
  }

  /** Read the trees whose roots have this depth; the second part is what is left of the rows. */
  function Unflatten(rows: seq<(nat, Label)>, depth: nat): (r: (seq<Tree<Label>>, seq<(nat, Label)>))
    ensures |r.1| <= |rows|
    decreases |rows|
  {
    if rows == [] || rows[0].0 != depth then ([], rows)
    else
      var (children, rest) := Unflatten(rows[1..], depth + 1);
      var (more, left) := Unflatten(rest, depth);
      ([Node(rows[0].1, children)] + more, left)
  }

  lemma FlattenSplit(ts: seq<Tree<Observation>>, depth: nat, left: seq<(nat, Label)>)
    requires ts != []
    ensures FlattenAll(ts, depth) + left ==
      [(depth, LabelOf(ts[0].item))] + (FlattenAll(ts[0].children, depth + 1) + (FlattenAll(ts[1..], depth) + left))
  {
    assert FlattenAll(ts, depth) == Flatten(ts[0], depth) + FlattenAll(ts[1..], depth);
    assert Flatten(ts[0], depth) == [(depth, LabelOf(ts[0].item))] + FlattenAll(ts[0].children, depth + 1);
  }

  lemma {:induction false} UnflattenFlatten(ts: seq<Tree<Observation>>, depth: nat, left: seq<(nat, Label)>)
    requires left == [] || left[0].0 < depth
    ensures Unflatten(FlattenAll(ts, depth) + left, depth) == (LabelsAll(ts), left)
    decreases ts
  {
    var rows := FlattenAll(ts, depth) + left;
    if ts == [] {
      assert rows == left;
    } else {
      var kids, rest := ts[0].children, FlattenAll(ts[1..], depth) + left;
      FlattenSplit(ts, depth, left);
      assert rows[1..] == FlattenAll(kids, depth + 1) + rest;
      FirstDepth(ts[1..], depth);
      assert rest == [] || rest[0].0 < depth + 1;
      UnflattenFlatten(kids, depth + 1, rest);
      UnflattenFlatten(ts[1..], depth, left);
      UnflattenStep(rows, depth);
    }
  }

  lemma UnflattenStep(rows: seq<(nat, Label)>, depth: nat)
    requires rows != [] && rows[0].0 == depth
    ensures var (children, rest) := Unflatten(rows[1..], depth + 1);
      var (more, left) := Unflatten(rest, depth);
      Unflatten(rows, depth) == ([Node(rows[0].1, children)] + more, left)
  {}

  lemma FirstDepth(ts: seq<Tree<Observation>>, depth: nat)
    ensures ts == [] <==> FlattenAll(ts, depth) == []
    ensures ts != [] ==> FlattenAll(ts, depth)[0].0 == depth
  {}

  /** The rows determine the ordered forest they show. */
  lemma RowsReadBack(os: seq<Observation>, budget: nat)
    requires Forest(os, budget).Some?
    ensures Unflatten(Rows(os, budget).value, 0) == (LabelsAll(Forest(os, budget).value), [])
  {
    var ts := Forest(os, budget).value;
    UnflattenFlatten(ts, 0, []);
    assert FlattenAll(ts, 0) + [] == FlattenAll(ts, 0);
  }
}
