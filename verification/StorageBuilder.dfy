/** The builder of the type table: entries are appended, only nominals are filled in later,
    and references, arrays and tuples are shared. */
module StorageBuilder {
  import opened TypeTable
  import opened TypeEquality
  import opened Options
  import V = ValueCycles
  import C = CycleCheck

  /** The table has the first nodes, one for each tag below `Struct`, and one for functions. */
  ghost predicate HasPrimitives(t: Table) {
    && |t.types| >= FIRST_BUILT && t.types[PRIMITIVES].tag == Function
    && forall i: nat | i < PRIMITIVES :: t.types[i].tag as int == i
  }

  // ----- Growing -----

  /** `t` has all that `s` has, but for the contents of nominals. */
  ghost predicate Grows(s: Table, t: Table) {
    && s.types <= t.types && s.arrays <= t.arrays && s.refs <= t.refs && s.tuples <= t.tuples
    && |s.structs| <= |t.structs| && |s.enums| <= |t.enums| && s.variants <= t.variants
  }

  lemma {:induction false} GrowingKeepsShape(s: Table, t: Table, i: nat)
    requires IsBuilt(s) && IsBuilt(t) && Grows(s, t) && IsType(s, i)
    ensures Unfold(t, i) == Unfold(s, i)
    decreases i, 1, 0
  {
    assert Descends(s, i);
    var n := s.types[i];
    assert t.types[i] == n;
    if n.tag == Ref || n.tag == MutRef {
      GrowingKeepsShape(s, t, s.refs[n.data]);
    } else if n.tag == Array {
      GrowingKeepsShape(s, t, s.arrays[n.data].element);
    } else if n.tag == Tuple {
      GrowingKeepsShapes(s, t, s.tuples[n.data], i);
    }
  }

  lemma {:induction false} GrowingKeepsShapes(s: Table, t: Table, r: Range, i: nat)
    requires IsBuilt(s) && IsBuilt(t) && Grows(s, t) && AreTypes(s, r) && LiesBelow(r, i) && AreTypes(t, r)
    ensures UnfoldAll(t, r, i) == UnfoldAll(s, r, i)
    decreases i, 0, r.size
  {
    if r.size > 0 {
      assert InSpan(r, r.head);
      var rest := Range(r.head + 1, r.size - 1);
      assert forall j: nat :: InSpan(rest, j) ==> InSpan(r, j);
      GrowingKeepsShape(s, t, r.head);
      GrowingKeepsShapes(s, t, rest, i);
    }
  }

  /** A copy of a node unfolds like the original, if that is no nominal. */
  lemma CopyUnfolds(s: Table, t: Table, i: nat)
    requires IsBuilt(s) && IsBuilt(t) && HasPrimitives(s) && IsType(s, i) && t == s.(types := s.types + [s.types[i]])
    ensures IsType(t, |s.types|) && IsType(t, i)
    ensures Unfold(t, |s.types|) == Unfold(t, i) <==> s.types[i].tag != Struct && s.types[i].tag != Enum
  {
    var n, j := s.types[i], |s.types|;
    assert Descends(t, i) && Descends(t, j);
    if n.tag == Tuple {
      UnfoldAllSame(t, t.tuples[n.data], i, t.tuples[n.data], j);
    }
  }

  /** A tuple node with the same indices unfolds to the elements. */
  lemma TupleUnfolds(t: Table, i: nat, elements: Range)
    requires IsBuilt(t) && IsType(t, i) && t.types[i].tag == Tuple && AreTypes(t, elements)
    requires SameIndices(t.tuples[t.types[i].data], elements)
    ensures Unfold(t, i) == TupleOf(UnfoldAll(t, elements, |t.types|))
  {
    var r := t.tuples[t.types[i].data];
    assert Descends(t, i);
    if r.size > 0 {
      assert IndexAt(r, 0) == IndexAt(elements, 0);
      assert r == elements;
    }
    UnfoldAllSame(t, r, i, elements, |t.types|);
  }

  // ----- Operations keep the table as it has to be -----

  lemma TypesGrow(t: Table, n: Node)
    requires IsBuilt(t) && HasPrimitives(t) && NodeInRange(t, n) && NodeDescends(t, n, |t.types|)
    ensures var u := t.(types := t.types + [n]);
      IsBuilt(u) && HasPrimitives(u)
  {
    var u := t.(types := t.types + [n]);
    forall i: nat | IsType(u, i) ensures NodeInRange(u, u.types[i]) && Descends(u, i) {
      if i < |t.types| {
        assert IsType(t, i) && Descends(t, i);
      }
    }
  }

  lemma StructsChange(t: Table, structs: seq<Range>)
    requires IsBuilt(t) && |structs| >= |t.structs|
    requires forall k | 0 <= k < |structs| :: AreTypes(t, structs[k])
    ensures IsBuilt(t.(structs := structs))
  {
    var u := t.(structs := structs);
    forall i: nat | IsType(u, i) ensures NodeInRange(u, u.types[i]) && Descends(u, i) {
      assert IsType(t, i) && Descends(t, i);
    }
  }

  lemma EnumsChange(t: Table, enums: seq<Range>)
    requires IsBuilt(t) && |enums| >= |t.enums|
    requires forall k | 0 <= k < |enums| :: enums[k].head + enums[k].size <= |t.variants|
    ensures IsBuilt(t.(enums := enums))
  {
    var u := t.(enums := enums);
    forall i: nat | IsType(u, i) ensures NodeInRange(u, u.types[i]) && Descends(u, i) {
      assert IsType(t, i) && Descends(t, i);
    }
  }

  lemma VariantsGrow(t: Table, r: Range)
    requires IsBuilt(t) && AreTypes(t, r)
    ensures IsBuilt(t.(variants := t.variants + [r]))
  {
    var u := t.(variants := t.variants + [r]);
    forall i: nat | IsType(u, i) ensures NodeInRange(u, u.types[i]) && Descends(u, i) {
      assert IsType(t, i) && Descends(t, i);
    }
  }

  lemma ArraysGrow(t: Table, a: ArrayType)
    requires IsBuilt(t) && IsType(t, a.element)
    ensures IsBuilt(t.(arrays := t.arrays + [a]))
  {
    var u := t.(arrays := t.arrays + [a]);
    forall i: nat | IsType(u, i) ensures NodeInRange(u, u.types[i]) && Descends(u, i) {
      assert IsType(t, i) && Descends(t, i);
    }
  }

  lemma RefsGrow(t: Table, pointee: nat)
    requires IsBuilt(t) && IsType(t, pointee)
    ensures IsBuilt(t.(refs := t.refs + [pointee]))
  {
    var u := t.(refs := t.refs + [pointee]);
    forall i: nat | IsType(u, i) ensures NodeInRange(u, u.types[i]) && Descends(u, i) {
      assert IsType(t, i) && Descends(t, i);
    }
  }

  lemma TuplesGrow(t: Table, r: Range)
    requires IsBuilt(t) && AreTypes(t, r)
    ensures IsBuilt(t.(tuples := t.tuples + [r]))
  {
    var u := t.(tuples := t.tuples + [r]);
    forall i: nat | IsType(u, i) ensures NodeInRange(u, u.types[i]) && Descends(u, i) {
      assert IsType(t, i) && Descends(t, i);
    }
  }

  // ----- Shapes that are shared -----

  function IndexAt(r: Range, k: nat): nat {
    r.head + k
  }

  ghost predicate SameIndices(r: Range, s: Range) {
    r.size == s.size && forall k: nat | k < r.size :: IndexAt(r, k) == IndexAt(s, k)
  }

  /** Is `i` an array node for these parts, past the first nodes? */
  ghost predicate IsArrayOf(t: Table, i: nat, element: nat, count: nat) {
    && FIRST_BUILT <= i < |t.types| && t.types[i].tag == Array
    && t.types[i].data < |t.arrays| && t.arrays[t.types[i].data] == ArrayType(element, count)
  }

  ghost predicate HasArrayOf(t: Table, element: nat, count: nat) {
    exists i: nat :: IsArrayOf(t, i, element, count)
  }

  ghost predicate IsReferenceTo(t: Table, i: nat, pointee: nat, tag: Tag) {
    && FIRST_BUILT <= i < |t.types| && t.types[i].tag == tag
    && t.types[i].data < |t.refs| && t.refs[t.types[i].data] == pointee
  }

  ghost predicate HasReferenceTo(t: Table, pointee: nat, tag: Tag) {
    exists i: nat :: IsReferenceTo(t, i, pointee, tag)
  }

  /** The same indices, wherever the ranges lie: ranges of one size that start at the same
      index, or two empty ones. */
  ghost predicate IsTupleOf(t: Table, i: nat, elements: Range) {
    && FIRST_BUILT <= i < |t.types| && t.types[i].tag == Tuple
    && t.types[i].data < |t.tuples| && SameIndices(t.tuples[t.types[i].data], elements)
  }

  ghost predicate HasTupleOf(t: Table, elements: Range) {
    exists i: nat :: IsTupleOf(t, i, elements)
  }

  lemma TupleHolds(t: Table, i: nat, elements: Range)
    requires IsTupleOf(t, i, elements)
    ensures forall j: nat :: Holds(t, i, j) <==> InSpan(elements, j)
  {
    var r := t.tuples[t.types[i].data];
    if r.size > 0 {
      assert IndexAt(r, 0) == IndexAt(elements, 0);
    }
  }

  /** A reference holds nothing, and so reaches an exclusive one only if it is one. */
  lemma ReferenceReaches(t: Table, i: nat, isMut: bool)
    requires i < |t.types| && t.types[i].tag == if isMut then MutRef else Ref
    ensures ReachesMut(t, true, i) <==> isMut
  {
    if isMut {
      MutHere(t, true, i);
    } else if ReachesMut(t, true, i) {
      var j := MutSomewhere(t, true, i);
    }
  }

  class StorageBuilder {
    var state: Table

    ghost predicate Valid()
      reads this
    {
      IsBuilt(state) && HasPrimitives(state)
    }

    constructor ()
      ensures Valid() && |state.types| == FIRST_BUILT && C.Declares(state, [])
    {
      state := Table([], [], [], [], [], [], []);
      new;
      var tag := 0;
      while tag < PRIMITIVES
        invariant 0 <= tag <= PRIMITIVES == 16
        invariant |state.types| == tag && state == Table(state.types, [], [], [], [], [], [])
        invariant forall i: nat | i < tag :: state.types[i].tag as int == i
      {
        state := state.(types := state.types + [Node(tag as Tag, 0)]);
        tag := tag + 1;
      }
      state := state.(types := state.types + [Node(Function, 0)]);
      C.NoNominalsNoneDeclared(state);
    }

    /** The node that every table has for a tag without parts. */
    method Primitive(tag: Tag) returns (idx: nat)
      requires Valid() && (tag as int < PRIMITIVES || tag == Function)
      ensures idx < |state.types| && state.types[idx].tag == tag
    {
      idx := if tag == Function then PRIMITIVES else tag as nat;
    }

    /** Operations append; what there was stays, and nothing comes to hold what comes after it. */
    twostate predicate Kept()
      reads this
    {
      && Valid() && Grows(old(state), state) && old(state.structs) <= state.structs && old(state.enums) <= state.enums
      && C.MayClimb(old(state), state, None)
    }

    // ----- Nominals -----

    method StructType(fields: Range) returns (idx: nat)
      requires Valid() && AreTypes(state, fields)
      modifies this
      ensures Kept() && idx == |old(state.types)| == |state.types| - 1 && Unfold(state, idx) == Nominal(idx)
      ensures forall j: nat :: Holds(state, idx, j) <==> InSpan(fields, j)
    {
      idx := |state.types|;
      ghost var before := state;
      var node := Node(Struct, |state.structs|);
      StructsChange(state, state.structs + [fields]);
      state := state.(structs := state.structs + [fields]);
      TypesGrow(state, node);
      state := state.(types := state.types + [node]);
      C.AppendingMakesNothingClimb(before, state);
    }

    /** A struct without fields as yet. */
    method ReserveStruct() returns (idx: nat)
      requires Valid()
      modifies this
      ensures Kept() && idx == |old(state.types)| == |state.types| - 1 && Unfold(state, idx) == Nominal(idx)
      ensures forall j: nat :: !Holds(state, idx, j)
    {
      idx := StructType(Range(0, 0));
    }

    method FillStruct(idx: nat, fields: Range)
      requires Valid() && IsType(state, idx) && state.types[idx].tag == Struct && AreTypes(state, fields)
      modifies this
      ensures Valid() && Grows(old(state), state)
      ensures state == old(state).(structs := old(state.structs)[state.types[idx].data := fields])
      ensures C.MayClimb(old(state), state, Some(state.types[idx]))
      ensures forall j: nat :: Holds(state, idx, j) <==> InSpan(fields, j)
    {
      C.FillingMakesOneClimb(state, idx, fields);
      StructsChange(state, state.structs[state.types[idx].data := fields]);
      state := state.(structs := state.structs[state.types[idx].data := fields]);
    }

    method EnumVariant(fields: Range) returns (variant: nat)
      requires Valid() && AreTypes(state, fields)
      modifies this
      ensures Kept() && state == old(state).(variants := old(state.variants) + [fields])
      ensures variant == |old(state.variants)|
    {
      ghost var before := state;
      variant := |state.variants|;
      VariantsGrow(state, fields);
      state := state.(variants := state.variants + [fields]);
      C.AppendingMakesNothingClimb(before, state);
    }

    method EnumType(variants: Range) returns (idx: nat)
      requires Valid() && variants.head + variants.size <= |state.variants|
      modifies this
      ensures Kept() && idx == |old(state.types)| == |state.types| - 1 && Unfold(state, idx) == Nominal(idx)
      ensures forall j: nat :: Holds(state, idx, j) <==> InVariants(state, variants, j)
    {
      idx := |state.types|;
      ghost var before := state;
      var node := Node(Enum, |state.enums|);
      EnumsChange(state, state.enums + [variants]);
      state := state.(enums := state.enums + [variants]);
      TypesGrow(state, node);
      state := state.(types := state.types + [node]);
      C.OlderPayloadsDoNotClimb(state, idx);
      C.AppendingMakesNothingClimb(before, state);
    }

    method ReserveEnum() returns (idx: nat)
      requires Valid()
      modifies this
      ensures Kept() && idx == |old(state.types)| == |state.types| - 1 && Unfold(state, idx) == Nominal(idx)
      ensures forall j: nat :: !Holds(state, idx, j)
    {
      idx := EnumType(Range(0, 0));
    }

    method FillEnum(idx: nat, variants: Range)
      requires Valid() && IsType(state, idx) && state.types[idx].tag == Enum
      requires variants.head + variants.size <= |state.variants|
      modifies this
      ensures Valid() && Grows(old(state), state)
      ensures state == old(state).(enums := old(state.enums)[state.types[idx].data := variants])
      ensures C.MayClimb(old(state), state, Some(state.types[idx]))
      ensures forall j: nat :: Holds(state, idx, j) <==> InVariants(state, variants, j)
    {
      C.FillingMakesOneClimb(state, idx, variants);
      EnumsChange(state, state.enums[state.types[idx].data := variants]);
      state := state.(enums := state.enums[state.types[idx].data := variants]);
    }

    // ----- Shared shapes -----

    /** One node for each element type and count, unless a copy was made: the first there is,
        or else a new one. */
    method ArrayTypeOf(element: nat, count: nat) returns (idx: nat)
      requires Valid() && IsType(state, element)
      modifies this
      ensures Kept() && |state.types| <= |old(state.types)| + 1 && IsArrayOf(state, idx, element, count)
      ensures Unfold(state, idx) == ArrayOf(Unfold(state, element), count)
      ensures HasArrayOf(old(state), element, count) ==> state == old(state)
      ensures forall j: nat :: Holds(state, idx, j) <==> j == element
    {
      idx := FIRST_BUILT;
      while idx < |state.types|
        invariant idx <= |state.types| && forall i: nat | i < idx :: !IsArrayOf(state, i, element, count)
      {
        assert Descends(state, idx);
        if state.types[idx].tag == Array && state.arrays[state.types[idx].data] == ArrayType(element, count) {
          return;
        }
        idx := idx + 1;
      }
      ghost var before := state;
      var node := Node(Array, |state.arrays|);
      ArraysGrow(state, ArrayType(element, count));
      state := state.(arrays := state.arrays + [ArrayType(element, count)]);
      TypesGrow(state, node);
      state := state.(types := state.types + [node]);
      C.AppendingMakesNothingClimb(before, state);
    }

    method ReferenceType(pointee: nat, isMut: bool) returns (idx: nat)
      requires Valid() && IsType(state, pointee)
      modifies this
      ensures Kept() && |state.types| <= |old(state.types)| + 1 && IsReferenceTo(state, idx, pointee, if isMut then MutRef else Ref)
      ensures Unfold(state, idx) == Reference(if isMut then MutRef else Ref, Unfold(state, pointee))
      ensures HasReferenceTo(old(state), pointee, if isMut then MutRef else Ref) ==> state == old(state)
      ensures forall j: nat :: !Holds(state, idx, j) && (Shares(state, idx, j) <==> !isMut && j == pointee)
      ensures ReachesMut(state, true, idx) <==> isMut
    {
      var tag := if isMut then MutRef else Ref;
      idx := FIRST_BUILT;
      while idx < |state.types|
        invariant idx <= |state.types| && forall i: nat | i < idx :: !IsReferenceTo(state, i, pointee, tag)
      {
        assert Descends(state, idx);
        if state.types[idx].tag == tag && state.refs[state.types[idx].data] == pointee {
          ReferenceReaches(state, idx, isMut);
          return;
        }
        idx := idx + 1;
      }
      ghost var before := state;
      var node := Node(tag, |state.refs|);
      RefsGrow(state, pointee);
      state := state.(refs := state.refs + [pointee]);
      TypesGrow(state, node);
      state := state.(types := state.types + [node]);
      C.AppendingMakesNothingClimb(before, state);
      ReferenceReaches(state, idx, isMut);
    }

    method TupleType(elements: Range) returns (idx: nat)
      requires Valid() && AreTypes(state, elements)
      modifies this
      ensures Kept() && |state.types| <= |old(state.types)| + 1 && IsTupleOf(state, idx, elements)
      ensures AreTypes(state, elements) && Unfold(state, idx) == TupleOf(UnfoldAll(state, elements, |state.types|))
      ensures HasTupleOf(old(state), elements) ==> state == old(state)
      ensures forall j: nat :: Holds(state, idx, j) <==> InSpan(elements, j)
    {
      idx := FIRST_BUILT;
      while idx < |state.types|
        invariant state == old(state)
        invariant idx <= |state.types| && forall i: nat | i < idx :: !IsTupleOf(state, i, elements)
      {
        assert Descends(state, idx);
        if state.types[idx].tag == Tuple {
          var same := CompareIndices(state.tuples[state.types[idx].data], elements);
          if same {
            TupleUnfolds(state, idx, elements);
            TupleHolds(state, idx, elements);
            return;
          }
        }
        idx := idx + 1;
      }
      ghost var before := state;
      var node := Node(Tuple, |state.tuples|);
      TuplesGrow(state, elements);
      state := state.(tuples := state.tuples + [elements]);
      TypesGrow(state, node);
      state := state.(types := state.types + [node]);
      C.AppendingMakesNothingClimb(before, state);
      TupleUnfolds(state, idx, elements);
    }

    method NeverType() returns (idx: nat)
      requires Valid()
      modifies this
      ensures Kept() && IsType(state, idx) && Unfold(state, idx) == Leaf(Never)
    {
      idx := Marker(Never);
    }

    method ErrorType() returns (idx: nat)
      requires Valid()
      modifies this
      ensures Kept() && IsType(state, idx) && Unfold(state, idx) == Leaf(Error)
    {
      idx := Marker(Error);
    }

    /** The first node with a tag without parts, or a new one. */
    method Marker(tag: Tag) returns (idx: nat)
      requires Valid() && (tag == Never || tag == Error)
      modifies this
      ensures Kept() && |state.types| <= |old(state.types)| + 1 && IsType(state, idx) && Unfold(state, idx) == Leaf(tag)
      ensures (exists i: nat :: FIRST_BUILT <= i < |old(state).types| && old(state).types[i].tag == tag) ==> state == old(state)
    {
      idx := FIRST_BUILT;
      while idx < |state.types|
        invariant FIRST_BUILT <= idx <= |state.types|
        invariant forall i: nat | FIRST_BUILT <= i < idx :: state.types[i].tag != tag
      {
        if state.types[idx].tag == tag {
          return;
        }
        idx := idx + 1;
      }
      ghost var before := state;
      TypesGrow(state, Node(tag, 0));
      state := state.(types := state.types + [Node(tag, 0)]);
      C.AppendingMakesNothingClimb(before, state);
    }

    /** Appends a copy of an entry.  The copy is the same type, unless it is nominal. */
    method RefType(original: nat) returns (idx: nat)
      requires Valid() && IsType(state, original)
      modifies this
      ensures Kept() && idx == |old(state.types)| == |state.types| - 1 && state.types[idx] == state.types[original]
      ensures Unfold(state, idx) == Unfold(state, original)
        <==> state.types[original].tag != Struct && state.types[original].tag != Enum
    {
      idx := |state.types|;
      assert Descends(state, original);
      TypesGrow(state, state.types[original]);
      ghost var before := state;
      state := state.(types := state.types + [state.types[original]]);
      CopyUnfolds(before, state, original);
      C.AppendingMakesNothingClimb(before, state);
    }
  }

  method CompareIndices(r: Range, s: Range) returns (same: bool)
    ensures same == SameIndices(r, s)
  {
    if r.size != s.size {
      return false;
    }
    same := true;
    var i := 0;
    while same && i < r.size
      invariant same ==> i <= r.size && forall k: nat | k < i :: IndexAt(r, k) == IndexAt(s, k)
      invariant !same ==> !SameIndices(r, s)
    {
      same := IndexAt(r, i) == IndexAt(s, i);
      i := i + 1;
    }
  }
}
