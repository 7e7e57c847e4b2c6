/** When two types are the same: equality of the trees they unfold to, down to nominals. */
module TypeEquality {
  import opened TypeTable

  /** A node at `i` comes after what it refers to, if it is a reference, an array or a tuple. */
  ghost predicate NodeDescends(t: Table, n: Node, i: nat) {
    && (n.tag == Ref || n.tag == MutRef ==> n.data < |t.refs| && t.refs[n.data] < i)
    && (n.tag == Array ==> n.data < |t.arrays| && t.arrays[n.data].element < i)
    && (n.tag == Tuple ==> n.data < |t.tuples| && LiesBelow(t.tuples[n.data], i))
  }

  ghost predicate Descends(t: Table, i: nat)
    requires i < |t.types|
  {
    NodeDescends(t, t.types[i], i)
  }

  ghost predicate LiesBelow(r: Range, i: nat) {
    forall j: nat | InSpan(r, j) :: j < i
  }

  /** A table as the builder makes it. */
  ghost predicate IsBuilt(t: Table) {
    InRange(t) && forall i: nat | IsType(t, i) :: Descends(t, i)
  }

  /** Structs and enums are named by their index, so that a copy of one is another type. */
  datatype Shape =
    | Leaf(tag: Tag)
    | Nominal(idx: nat)
    | Reference(tag: Tag, pointee: Shape)
    | ArrayOf(element: Shape, count: nat)
    | TupleOf(elements: Shapes)

  datatype Shapes = Nil | Cons(head: Shape, tail: Shapes)

  function Count(s: Shapes): nat {
    match s
    case Nil => 0
    case Cons(_, tail) => 1 + Count(tail)
  }

  ghost function Unfold(t: Table, i: nat): Shape
    requires IsBuilt(t) && IsType(t, i)
    decreases i, 1, 0
  {
    var n := t.types[i];
    assert Descends(t, i);
    if n.tag == Ref || n.tag == MutRef then Reference(n.tag, Unfold(t, t.refs[n.data]))
    else if n.tag == Array then ArrayOf(Unfold(t, t.arrays[n.data].element), t.arrays[n.data].count)
    else if n.tag == Tuple then TupleOf(UnfoldAll(t, t.tuples[n.data], i))
    else if n.tag == Struct || n.tag == Enum then Nominal(i)
    else Leaf(n.tag)
  }

  /** The types of a range that lies below `i`. */
  ghost function UnfoldAll(t: Table, r: Range, i: nat): (s: Shapes)
    requires IsBuilt(t) && AreTypes(t, r) && LiesBelow(r, i)
    ensures Count(s) == r.size
    decreases i, 0, r.size
  {
    if r.size == 0 then Nil
    else
      assert InSpan(r, r.head);
      var rest := Range(r.head + 1, r.size - 1);
      assert forall j: nat :: InSpan(rest, j) ==> InSpan(r, j);
      Cons(Unfold(t, r.head), UnfoldAll(t, rest, i))
  }

  /** Element by element. */
  ghost predicate SameFrom(t: Table, r: Range, s: Range, from: nat)
    requires IsBuilt(t) && AreTypes(t, r) && AreTypes(t, s) && r.size == s.size
  {
    forall k: nat | from <= k < r.size :: SameAt(t, r, s, k)
  }

  ghost predicate SameAt(t: Table, r: Range, s: Range, k: nat)
    requires IsBuilt(t) && AreTypes(t, r) && AreTypes(t, s) && k < r.size == s.size
  {
    assert InSpan(r, r.head + k) && InSpan(s, s.head + k);
    Unfold(t, r.head + k) == Unfold(t, s.head + k)
  }

  lemma {:induction false} UnfoldAllSame(t: Table, r: Range, i: nat, s: Range, j: nat)
    requires IsBuilt(t) && AreTypes(t, r) && AreTypes(t, s) && r.size == s.size
    requires LiesBelow(r, i) && LiesBelow(s, j)
    ensures UnfoldAll(t, r, i) == UnfoldAll(t, s, j) <==> SameFrom(t, r, s, 0)
    decreases r.size
  {
    if r.size > 0 {
      SpanWithin(r);
      SpanWithin(s);
      UnfoldAllSame(t, WithoutFirst(r), i, WithoutFirst(s), j);
      SameFromFirst(t, r, s);
    }
  }

  function WithoutFirst(r: Range): Range
    requires r.size > 0
  {
    Range(r.head + 1, r.size - 1)
  }

  lemma SpanWithin(r: Range)
    requires r.size > 0
    ensures InSpan(r, r.head) && forall k: nat :: InSpan(WithoutFirst(r), k) ==> InSpan(r, k)
  {
  }

  lemma SameFromFirst(t: Table, r: Range, s: Range)
    requires IsBuilt(t) && AreTypes(t, r) && AreTypes(t, s) && r.size == s.size > 0
    requires AreTypes(t, WithoutFirst(r)) && AreTypes(t, WithoutFirst(s))
    ensures SameFrom(t, r, s, 0) <==> SameAt(t, r, s, 0) && SameFrom(t, WithoutFirst(r), WithoutFirst(s), 0)
  {
    var r', s' := WithoutFirst(r), WithoutFirst(s);
    assert forall k: nat | k < r'.size :: SameAt(t, r', s', k) == SameAt(t, r, s, k + 1);
    assert forall k: nat | 0 < k < r.size :: SameAt(t, r, s, k) == SameAt(t, r', s', k - 1);
  }

  class EqualitySearch {
    const table: Table
    /** The pairs compared so far. */
    var seen: seq<(nat, nat)>

    constructor (table: Table)
      ensures this.table == table && seen == []
    {
      this.table := table;
      seen := [];
    }

    ghost predicate IsPair(p: (nat, nat))
      reads this
    {
      IsType(table, p.0) && IsType(table, p.1)
    }

    ghost predicate Settled(p: (nat, nat))
      requires IsBuilt(table) && IsPair(p)
      reads this
    {
      Unfold(table, p.0) == Unfold(table, p.1)
    }

    /** A pair seen before is settled, or is being compared above `a`. */
    ghost predicate Valid(a: nat)
      reads this
    {
      IsBuilt(table) && forall p <- seen :: IsPair(p) && (Settled(p) || p.0 > a)
    }

    /** All pairs added since then are settled. */
    ghost predicate SettledSince(before: seq<(nat, nat)>)
      requires IsBuilt(table)
      reads this
    {
      forall p <- seen :: p in before || (IsPair(p) && Settled(p))
    }

    /** A pair seen before counts as equal: that is right, for it cannot be one that is
        still being compared. */
    method TypesEqualInner(a: nat, b: nat) returns (equal: bool)
      requires Valid(a) && IsType(table, a) && IsType(table, b)
      modifies this
      ensures equal == (Unfold(table, a) == Unfold(table, b))
      ensures equal ==> SettledSince(old(seen))
      decreases a, 1
    {
      if a == b {
        return true;
      }
      for k := 0 to |seen|
        invariant (a, b) !in seen[..k]
      {
        if seen[k] == (a, b) {
          return true;
        }
      }
      assert seen[..|seen|] == seen;
      ghost var before := seen;
      seen := seen + [(a, b)];
      assert Descends(table, a) && Descends(table, b);
      var m, n := table.types[a], table.types[b];
      if m.tag != n.tag {
        return false;
      }
      if m.tag == Ref || m.tag == MutRef {
        equal := TypesEqualInner(table.refs[m.data], table.refs[n.data]);
      } else if m.tag == Array {
        var x, y := table.arrays[m.data], table.arrays[n.data];
        if x.count != y.count {
          return false;
        }
        equal := TypesEqualInner(x.element, y.element);
      } else if m.tag == Tuple {
        var r, s := table.tuples[m.data], table.tuples[n.data];
        if r.size != s.size {
          return false;
        }
        equal := ElementsEqual(r, s, a);
        UnfoldAllSame(table, r, a, s, b);
      } else {
        equal := m.tag != Struct && m.tag != Enum;
      }
    }

    method ElementsEqual(r: Range, s: Range, a: nat) returns (equal: bool)
      requires IsBuilt(table) && AreTypes(table, r) && AreTypes(table, s) && r.size == s.size
      requires LiesBelow(r, a) && forall p <- seen :: IsPair(p) && (Settled(p) || p.0 >= a)
      modifies this
      ensures equal == SameFrom(table, r, s, 0)
      ensures equal ==> SettledSince(old(seen))
      decreases a, 0
    {
      for k := 0 to r.size
        invariant SettledSince(old(seen))
        invariant forall j: nat | j < k :: SameAt(table, r, s, j)
      {
        assert InSpan(r, r.head + k) && InSpan(s, s.head + k);
        equal := TypesEqualInner(r.head + k, s.head + k);
        assert equal == SameAt(table, r, s, k);
        if !equal {
          return false;
        }
      }
      return true;
    }
  }

  /** Equality of types is equality of the trees, which makes it an equivalence. */
  method TypesEqual(t: Table, a: nat, b: nat) returns (equal: bool)
    requires IsBuilt(t) && IsType(t, a) && IsType(t, b)
    ensures equal == (Unfold(t, a) == Unfold(t, b))
  {
    var search := new EqualitySearch(t);
    equal := search.TypesEqualInner(a, b);
  }
}
