/** Exclusive references inside a type, also behind shared ones: a search that marks what it
    has visited, on tables that may be cyclic. */
module MutRefs {
  import opened TypeTable
  import opened ValueCycles

  class MutRefSearch {
    const table: Table
    /** The types seen so far, shared by the whole search. */
    var visited: seq<nat>

    ghost predicate Valid()
      reads this
    {
      InRange(table) && Distinct(visited) && forall i <- visited :: IsType(table, i)
    }

    constructor (table: Table)
      requires InRange(table)
      ensures Valid() && this.table == table && visited == []
    {
      this.table := table;
      visited := [];
    }

    ghost function Room(): int
      reads this
    {
      |table.types| - |visited|
    }

    /** What has been visited since then is no exclusive reference and leads only to what
        has been visited. */
    ghost predicate ClosedSince(before: seq<nat>)
      reads this
    {
      && |before| <= |visited| && (forall i <- before :: i in visited)
      && forall i <- visited | i !in before :: IsSafe(i)
    }

    ghost predicate IsSafe(i: nat)
      reads this
    {
      && i < |table.types| && table.types[i].tag != MutRef
      && forall j: nat | Shares(table, i, j) :: j in visited
    }

    method ContainsMutRef(idx: nat) returns (found: bool)
      requires Valid() && IsType(table, idx)
      modifies this
      ensures Valid() && |visited| >= |old(visited)|
      ensures found ==> ReachesMut(table, false, idx)
      ensures !found ==> idx in visited && ClosedSince(old(visited))
      decreases Room(), 2
    {
      for k := 0 to |visited|
        invariant idx !in visited[..k]
      {
        if visited[k] == idx {
          return false;
        }
      }
      assert visited[..|visited|] == visited;
      ghost var before := visited;
      visited := visited + [idx];
      PathFits(table, visited);
      var node := table.types[idx];
      if node.tag == MutRef {
        MutHere(table, false, idx);
        return true;
      } else if node.tag == Ref {
        found := ContainsMutRef(table.refs[node.data]);
      } else if node.tag == Struct {
        found := AnyMutRef(table.structs[node.data]);
      } else if node.tag == Array {
        found := ContainsMutRef(table.arrays[node.data].element);
      } else if node.tag == Enum {
        found := AnyVariantMutRef(table.enums[node.data]);
      } else if node.tag == Tuple {
        found := AnyMutRef(table.tuples[node.data]);
      } else {
        found := false;
      }
      if found {
        ghost var next: nat :| Shares(table, idx, next) && ReachesMut(table, false, next);
        MutLater(table, false, idx, next);
      } else {
        assert IsSafe(idx);
        assert forall i <- before :: i in before + [idx];
      }
    }

    method AnyMutRef(r: Range) returns (found: bool)
      requires Valid() && AreTypes(table, r)
      modifies this
      ensures Valid() && |visited| >= |old(visited)|
      ensures found ==> exists j: nat :: InSpan(r, j) && ReachesMut(table, false, j)
      ensures !found ==> (forall j: nat | InSpan(r, j) :: j in visited) && ClosedSince(old(visited))
      decreases Room(), 3
    {
      for k := 0 to r.size
        invariant Valid() && ClosedSince(old(visited))
        invariant forall j: nat | InSpan(Range(r.head, k), j) :: j in visited
      {
        assert InSpan(r, r.head + k);
        PathFits(table, visited);
        found := ContainsMutRef(r.head + k);
        if found {
          return true;
        }
      }
      return false;
    }

    method AnyVariantMutRef(r: Range) returns (found: bool)
      requires Valid() && r.head + r.size <= |table.variants|
      modifies this
      ensures Valid() && |visited| >= |old(visited)|
      ensures found ==> exists j: nat :: InVariants(table, r, j) && ReachesMut(table, false, j)
      ensures !found ==> (forall j: nat | InVariants(table, r, j) :: j in visited) && ClosedSince(old(visited))
      decreases Room(), 4
    {
      for v := r.head to r.head + r.size
        invariant Valid() && ClosedSince(old(visited))
        invariant forall j: nat | InVariants(table, Range(r.head, v - r.head), j) :: j in visited
      {
        PathFits(table, visited);
        found := AnyMutRef(table.variants[v]);
        if found {
          return true;
        }
      }
      return false;
    }

    /** A set of visited types that is closed holds everything in reach. */
    lemma {:induction false} ClosedHoldsWalk(w: Walk)
      requires (forall i <- visited :: IsSafe(i)) && w.at in visited && IsWalk(table, false, w)
      ensures End(w) in visited
    {
      if w.Go? {
        ClosedHoldsWalk(w.rest);
      }
    }
  }

  /** True exactly when an exclusive reference is in reach through fields, payloads, elements
      and shared references. */
  method HasMutRef(t: Table, idx: nat) returns (found: bool)
    requires InRange(t) && IsType(t, idx)
    ensures found <==> ReachesMut(t, false, idx)
  {
    var search := new MutRefSearch(t);
    found := search.ContainsMutRef(idx);
    if !found && ReachesMut(t, false, idx) {
      ghost var j: nat :| j < |t.types| && t.types[j].tag == MutRef && Reaches(t, false, idx, j);
      ghost var w :| IsWalk(t, false, w) && w.at == idx && End(w) == j;
      search.ClosedHoldsWalk(w);
    }
  }

  lemma {:induction false} ValueWalkShares(t: Table, w: Walk)
    requires IsWalk(t, true, w)
    ensures IsWalk(t, false, w)
  {
    if w.Go? {
      ValueWalkShares(t, w.rest);
    }
  }

  /** A type without exclusive references in reach, and without a cycle, is copied. */
  lemma NoMutRefIsCopied(t: Table, idx: nat)
    requires InRange(t) && IsType(t, idx) && !ReachesMut(t, false, idx) && !ReachesCycle(t, idx)
    ensures !Repeats(t, [], idx) && IsCopyType(t, idx, [])
  {
    RepeatsExactlyOnCycles(t, idx);
    if ReachesMut(t, true, idx) {
      var j: nat :| j < |t.types| && t.types[j].tag == MutRef && Reaches(t, true, idx, j);
      var w :| IsWalk(t, true, w) && w.at == idx && End(w) == j;
      ValueWalkShares(t, w);
    }
  }
}
