/** Types that hold themselves by value, and what copying needs of the others. */
module ValueCycles {
  import opened TypeTable

  ghost predicate Distinct(s: seq<nat>) {
    forall i, j | 0 <= i < j < |s| :: s[i] != s[j]
  }

  predicate Visits(w: Walk, i: nat) {
    w.at == i || (w.Go? && Visits(w.rest, i))
  }

  /** Does the walk come back to itself, or to the path before it? */
  predicate ComesBack(path: seq<nat>, w: Walk) {
    w.at in path || (w.Go? && (Visits(w.rest, w.at) || ComesBack(path, w.rest)))
  }

  /** Does some walk by value from `root` come back? */
  ghost predicate Repeats(t: Table, path: seq<nat>, root: nat) {
    exists w :: IsWalk(t, true, w) && w.at == root && ComesBack(path, w)
  }

  lemma RepeatsHere(t: Table, path: seq<nat>, root: nat)
    requires root in path
    ensures Repeats(t, path, root)
  {
    assert IsWalk(t, true, Stop(root)) && ComesBack(path, Stop(root));
  }

  /** The path may as well take in the type before the walk. */
  lemma {:induction false} ComesBackFrom(path: seq<nat>, root: nat, w: Walk)
    ensures ComesBack(path + [root], w) <==> ComesBack(path, w) || Visits(w, root)
  {
    if w.Go? {
      ComesBackFrom(path, root, w.rest);
    }
  }

  lemma RepeatsLater(t: Table, path: seq<nat>, root: nat, next: nat)
    requires Holds(t, root, next) && Repeats(t, path + [root], next)
    ensures Repeats(t, path, root)
  {
    var w :| IsWalk(t, true, w) && w.at == next && ComesBack(path + [root], w);
    ComesBackFrom(path, root, w);
    assert IsWalk(t, true, Go(root, w)) && ComesBack(path, Go(root, w));
  }

  /** A repeat shows here, or after one of the steps from here. */
  lemma RepeatsSomewhere(t: Table, path: seq<nat>, root: nat) returns (next: nat)
    requires root !in path && Repeats(t, path, root)
    ensures Holds(t, root, next) && Repeats(t, path + [root], next)
  {
    var w :| IsWalk(t, true, w) && w.at == root && ComesBack(path, w);
    next := w.rest.at;
    ComesBackFrom(path, root, w.rest);
  }

  /** A path of distinct types is no longer than the table. */
  lemma PathFits(t: Table, path: seq<nat>)
    requires Distinct(path) && forall i <- path :: i < |t.types|
    ensures |path| <= |t.types|
  {
    DistinctSize(path);
    var s := set i | 0 <= i < |path| :: path[i];
    assert forall i | 0 <= i < |path| :: path[i] in path;
    Subset(s, Below(|t.types|));
  }

  lemma {:induction false} DistinctSize(path: seq<nat>)
    requires Distinct(path)
    ensures |set i | 0 <= i < |path| :: path[i]| == |path|
  {
    if path != [] {
      var front := path[..|path| - 1];
      DistinctSize(front);
      var s := set i | 0 <= i < |path| :: path[i];
      var f := set i | 0 <= i < |front| :: front[i];
      assert s == f + {path[|path| - 1]};
    }
  }

  function Below(n: nat): (s: set<nat>)
    ensures |s| == n && forall i: nat :: i in s <==> i < n
  {
    if n == 0 then {} else Below(n - 1) + {n - 1}
  }

  lemma {:induction false} Subset(s: set<nat>, u: set<nat>)
    requires s <= u
    ensures |s| <= |u|
  {
    if s != {} {
      var x :| x in s;
      Subset(s - {x}, u - {x});
    }
  }

  // ----- The search -----

  class CycleSearch {
    const table: Table
    /** The path from the first root to here. */
    var stack: seq<nat>

    ghost predicate Valid()
      reads this
    {
      InRange(table) && Distinct(stack) && forall i <- stack :: IsType(table, i)
    }

    constructor (table: Table)
      requires InRange(table)
      ensures Valid() && this.table == table && stack == []
    {
      this.table := table;
      stack := [];
    }

    ghost function Room(): int
      reads this
    {
      |table.types| - |stack|
    }

    /** True exactly when a walk by value from here comes back to the path or to itself. */
    method HasValueCycle(root: nat) returns (cycle: bool)
      requires Valid() && IsType(table, root)
      modifies this
      ensures Valid() && stack == old(stack)
      ensures cycle == Repeats(table, stack, root)
      decreases Room(), 2
    {
      for k := 0 to |stack|
        invariant root !in stack[..k]
      {
        if stack[k] == root {
          RepeatsHere(table, stack, root);
          return true;
        }
      }
      assert stack[..|stack|] == stack;
      ghost var path := stack;
      stack := stack + [root];
      PathFits(table, stack);
      var node := table.types[root];
      if node.tag == Struct {
        cycle := AnyCycle(table.structs[node.data]);
      } else if node.tag == Enum {
        cycle := AnyVariantCycle(table.enums[node.data]);
      } else if node.tag == Tuple {
        cycle := AnyCycle(table.tuples[node.data]);
      } else if node.tag == Array {
        cycle := HasValueCycle(table.arrays[node.data].element);
      } else {
        cycle := false;
      }
      stack := stack[..|stack| - 1];
      assert stack == path;
      if cycle {
        ghost var next :| Holds(table, root, next) && Repeats(table, path + [root], next);
        RepeatsLater(table, path, root, next);
      } else if Repeats(table, path, root) {
        ghost var next := RepeatsSomewhere(table, path, root);
      }
    }

    /** One after the other, up to the first cycle. */
    method AnyCycle(r: Range) returns (cycle: bool)
      requires Valid() && AreTypes(table, r)
      modifies this
      ensures Valid() && stack == old(stack)
      ensures cycle <==> exists j: nat :: InSpan(r, j) && Repeats(table, stack, j)
      decreases Room(), 3
    {
      for k := 0 to r.size
        invariant Valid() && stack == old(stack)
        invariant forall j: nat :: InSpan(Range(r.head, k), j) ==> !Repeats(table, stack, j)
      {
        assert InSpan(r, r.head + k);
        cycle := HasValueCycle(r.head + k);
        if cycle {
          return true;
        }
      }
      return false;
    }

    method AnyVariantCycle(r: Range) returns (cycle: bool)
      requires Valid() && r.head + r.size <= |table.variants|
      modifies this
      ensures Valid() && stack == old(stack)
      ensures cycle <==> exists j: nat :: InVariants(table, r, j) && Repeats(table, stack, j)
      decreases Room(), 4
    {
      for v := r.head to r.head + r.size
        invariant Valid() && stack == old(stack)
        invariant forall j: nat :: InVariants(table, Range(r.head, v - r.head), j) ==> !Repeats(table, stack, j)
      {
        cycle := AnyCycle(table.variants[v]);
        if cycle {
          return true;
        }
      }
      return false;
    }
  }

  // ----- Cycles -----

  /** Does `i` hold itself by value, directly or not? */
  ghost predicate HoldsItself(t: Table, i: nat) {
    exists j: nat :: Holds(t, i, j) && Reaches(t, true, j, i)
  }

  ghost predicate ReachesCycle(t: Table, root: nat) {
    exists i: nat :: Reaches(t, true, root, i) && HoldsItself(t, i)
  }

  lemma {:induction false} VisitsReaches(t: Table, w: Walk, i: nat)
    requires IsWalk(t, true, w) && Visits(w, i)
    ensures Reaches(t, true, w.at, i)
  {
    if w.at == i {
      ReachesSelf(t, true, i);
    } else {
      VisitsReaches(t, w.rest, i);
      ReachesOn(t, true, w.at, w.rest.at, i);
    }
  }

  lemma {:induction false} ComingBackShowsCycle(t: Table, w: Walk)
    requires IsWalk(t, true, w) && ComesBack([], w)
    ensures ReachesCycle(t, w.at)
  {
    if Visits(w.rest, w.at) {
      VisitsReaches(t, w.rest, w.at);
      ReachesSelf(t, true, w.at);
      assert HoldsItself(t, w.at);
    } else {
      ComingBackShowsCycle(t, w.rest);
      var i: nat :| Reaches(t, true, w.rest.at, i) && HoldsItself(t, i);
      ReachesOn(t, true, w.at, w.rest.at, i);
    }
  }

  function Join(w: Walk, v: Walk): (r: Walk)
    ensures r.at == w.at
  {
    match w
    case Stop(i) => Go(i, v)
    case Go(i, rest) => Go(i, Join(rest, v))
  }

  lemma {:induction false} EndIsVisited(w: Walk)
    ensures Visits(w, End(w))
  {
    if w.Go? {
      EndIsVisited(w.rest);
    }
  }

  /** Walking to a cycle and around it comes back. */
  lemma {:induction false} JoinComesBack(t: Table, w: Walk, v: Walk)
    requires IsWalk(t, true, w) && IsWalk(t, true, v) && Holds(t, End(w), v.at) && End(v) == End(w)
    ensures IsWalk(t, true, Join(w, v)) && ComesBack([], Join(w, v))
  {
    if w.Go? {
      JoinComesBack(t, w.rest, v);
    } else {
      EndIsVisited(v);
    }
  }

  lemma CycleShowsRepeat(t: Table, root: nat)
    requires ReachesCycle(t, root)
    ensures Repeats(t, [], root)
  {
    var i: nat :| Reaches(t, true, root, i) && HoldsItself(t, i);
    var j: nat :| Holds(t, i, j) && Reaches(t, true, j, i);
    var w :| IsWalk(t, true, w) && w.at == root && End(w) == i;
    var v :| IsWalk(t, true, v) && v.at == j && End(v) == i;
    JoinComesBack(t, w, v);
  }

  /** A walk that repeats a type is a walk to a cycle. */
  lemma RepeatsExactlyOnCycles(t: Table, root: nat)
    ensures Repeats(t, [], root) <==> ReachesCycle(t, root)
  {
    if Repeats(t, [], root) {
      var w :| IsWalk(t, true, w) && w.at == root && ComesBack([], w);
      ComingBackShowsCycle(t, w);
    }
    if ReachesCycle(t, root) {
      CycleShowsRepeat(t, root);
    }
  }

  /** A nominal type as declared in the source; one that failed to resolve is incomplete. */
  datatype Nominal = Nominal(typeIdx: nat, complete: bool)

  /** The complete nominals with a cycle by value in reach. */
  ghost function Cyclic(t: Table, nominals: seq<Nominal>): seq<Nominal> {
    if nominals == [] then []
    else
      var last := nominals[|nominals| - 1];
      Cyclic(t, nominals[..|nominals| - 1]) + if last.complete && ReachesCycle(t, last.typeIdx) then [last] else []
  }

  /** Reports exactly those. */
  method ValidateCycles(t: Table, nominals: seq<Nominal>) returns (reported: seq<Nominal>)
    requires InRange(t) && forall n <- nominals :: IsType(t, n.typeIdx)
    ensures reported == Cyclic(t, nominals)
  {
    reported := [];
    for k := 0 to |nominals|
      invariant reported == Cyclic(t, nominals[..k])
    {
      assert nominals[..k + 1][..k] == nominals[..k];
      if nominals[k].complete {
        var search := new CycleSearch(t);
        var cycle := search.HasValueCycle(nominals[k].typeIdx);
        RepeatsExactlyOnCycles(t, nominals[k].typeIdx);
        if cycle {
          reported := reported + [nominals[k]];
        }
      }
    }
    assert nominals[..|nominals|] == nominals;
  }

  // ----- Copying -----

  /** Is a value of the type copied when it is used?  Asked only of types that reach no
      cycle: the path that led here has room left then. */
  function IsCopyType(t: Table, i: nat, ghost path: seq<nat>): (copy: bool)
    requires InRange(t) && IsType(t, i)
    requires Distinct(path) && (forall k <- path :: IsType(t, k)) && !Repeats(t, path, i)
    ensures copy <==> !ReachesMut(t, true, i)
    decreases |t.types| - |path|, 2
  {
    PathGoesOn(t, path, i);
    var n := t.types[i];
    if n.tag == MutRef then
      MutHere(t, true, i);
      false
    else
      MutFromHeld(t, i);
      if n.tag == Struct then AllCopy(t, t.structs[n.data], path + [i])
      else if n.tag == Array then IsCopyType(t, t.arrays[n.data].element, path + [i])
      else if n.tag == Enum then AllVariantsCopy(t, t.enums[n.data], path + [i])
      else if n.tag == Tuple then AllCopy(t, t.tuples[n.data], path + [i])
      else true
  }

  function AllCopy(t: Table, r: Range, ghost path: seq<nat>): (copy: bool)
    requires InRange(t) && AreTypes(t, r)
    requires Distinct(path) && (forall k <- path :: IsType(t, k))
    requires forall j: nat | InSpan(r, j) :: !Repeats(t, path, j)
    ensures copy <==> forall j: nat | InSpan(r, j) :: !ReachesMut(t, true, j)
    decreases |t.types| - |path|, 3, r.size
  {
    if r.size == 0 then true
    else
      var rest := Range(r.head + 1, r.size - 1);
      assert InSpan(r, r.head) && forall j: nat :: InSpan(rest, j) ==> InSpan(r, j);
      assert forall j: nat :: InSpan(r, j) ==> j == r.head || InSpan(rest, j);
      IsCopyType(t, r.head, path) && AllCopy(t, rest, path)
  }

  function AllVariantsCopy(t: Table, r: Range, ghost path: seq<nat>): (copy: bool)
    requires InRange(t) && r.head + r.size <= |t.variants|
    requires Distinct(path) && (forall k <- path :: IsType(t, k))
    requires forall j: nat | InVariants(t, r, j) :: !Repeats(t, path, j)
    ensures copy <==> forall j: nat | InVariants(t, r, j) :: !ReachesMut(t, true, j)
    decreases |t.types| - |path|, 4, r.size
  {
    if r.size == 0 then true
    else
      var rest := Range(r.head + 1, r.size - 1);
      VariantsSplit(t, r);
      AllCopy(t, t.variants[r.head], path) && AllVariantsCopy(t, rest, path)
  }

  lemma VariantsSplit(t: Table, r: Range)
    requires r.size > 0 && r.head < |t.variants|
    ensures forall j: nat ::
      InVariants(t, r, j) <==> InSpan(t.variants[r.head], j) || InVariants(t, Range(r.head + 1, r.size - 1), j)
  {
    var rest := Range(r.head + 1, r.size - 1);
    assert InSpan(r, r.head);
    assert forall v: nat :: InSpan(r, v) <==> v == r.head || InSpan(rest, v);
  }

  /** Where nothing repeats there is room for one more type on the path, and nothing repeats
      after it. */
  lemma PathGoesOn(t: Table, path: seq<nat>, i: nat)
    requires IsType(t, i) && Distinct(path) && (forall k <- path :: IsType(t, k)) && !Repeats(t, path, i)
    ensures Distinct(path + [i]) && |path| < |t.types|
    ensures forall j: nat | Holds(t, i, j) :: !Repeats(t, path + [i], j)
  {
    if i in path {
      RepeatsHere(t, path, i);
    }
    PathFits(t, path + [i]);
    forall j: nat | Holds(t, i, j) ensures !Repeats(t, path + [i], j) {
      if Repeats(t, path + [i], j) {
        RepeatsLater(t, path, i, j);
      }
    }
  }

  lemma MutFromHeld(t: Table, i: nat)
    requires IsType(t, i) && t.types[i].tag != MutRef
    ensures ReachesMut(t, true, i) <==> exists j: nat :: Holds(t, i, j) && ReachesMut(t, true, j)
  {
    if ReachesMut(t, true, i) {
      var j := MutSomewhere(t, true, i);
    }
    forall j: nat | Holds(t, i, j) && ReachesMut(t, true, j) ensures ReachesMut(t, true, i) {
      MutLater(t, true, i, j);
    }
  }
}
