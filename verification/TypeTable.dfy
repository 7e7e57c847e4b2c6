/** The flat type table: nodes that refer to each other by index, and the edges between them. */
module TypeTable {
  /** The tags, numbered as in the source's enumeration. */
  newtype Tag = k: int | 0 <= k < 23

  const Void: Tag := 0
  const Ref: Tag := 14
  const MutRef: Tag := 15
  const Struct: Tag := 16
  const Array: Tag := 17
  const Function: Tag := 18
  const Enum: Tag := 19
  const Never: Tag := 20
  const Tuple: Tag := 21
  const Error: Tag := 22

  /** One node for each tag below `Struct`, and one for functions, come first. */
  const PRIMITIVES := 16
  const FIRST_BUILT := 17

  /** Consecutive indices. */
  datatype Range = Range(head: nat, size: nat)

  datatype Node = Node(tag: Tag, data: nat)
  datatype ArrayType = ArrayType(element: nat, count: nat)

  /** Names of structs, enums and variants play no part here. */
  datatype Table = Table(
    types: seq<Node>,
    structs: seq<Range>,
    arrays: seq<ArrayType>,
    enums: seq<Range>,
    variants: seq<Range>,
    refs: seq<nat>,
    tuples: seq<Range>)

  // ----- Which indices mean something -----

  /** The first nodes for references have no pointee and are never used. */
  predicate IsPlaceholder(i: nat) {
    i == Ref as nat || i == MutRef as nat
  }

  predicate IsType(t: Table, i: nat) {
    i < |t.types| && !IsPlaceholder(i)
  }

  predicate InSpan(r: Range, j: nat) {
    r.head <= j < r.head + r.size
  }

  ghost predicate AreTypes(t: Table, r: Range) {
    forall j: nat | InSpan(r, j) :: IsType(t, j)
  }

  predicate NodeInRange(t: Table, n: Node) {
    && (n.tag == Struct ==> n.data < |t.structs|)
    && (n.tag == Array ==> n.data < |t.arrays|)
    && (n.tag == Enum ==> n.data < |t.enums|)
    && (n.tag == Ref || n.tag == MutRef ==> n.data < |t.refs|)
    && (n.tag == Tuple ==> n.data < |t.tuples|)
  }

  /** Every index that the table holds is in range. */
  ghost predicate InRange(t: Table) {
    && (forall i: nat | IsType(t, i) :: NodeInRange(t, t.types[i]))
    && (forall k | 0 <= k < |t.structs| :: AreTypes(t, t.structs[k]))
    && (forall k | 0 <= k < |t.arrays| :: IsType(t, t.arrays[k].element))
    && (forall k | 0 <= k < |t.enums| :: t.enums[k].head + t.enums[k].size <= |t.variants|)
    && (forall k | 0 <= k < |t.variants| :: AreTypes(t, t.variants[k]))
    && (forall k | 0 <= k < |t.refs| :: IsType(t, t.refs[k]))
    && (forall k | 0 <= k < |t.tuples| :: AreTypes(t, t.tuples[k]))
  }

  // ----- Edges -----

  /** Is `j` a payload field of one of the variants? */
  ghost predicate InVariants(t: Table, r: Range, j: nat) {
    exists v: nat :: InSpan(r, v) && v < |t.variants| && InSpan(t.variants[v], j)
  }

  /** `i` holds a `j` by value: as a field, a payload or an element. */
  ghost predicate Holds(t: Table, i: nat, j: nat) {
    && i < |t.types|
    && var n := t.types[i];
       || (n.tag == Struct && n.data < |t.structs| && InSpan(t.structs[n.data], j))
       || (n.tag == Enum && n.data < |t.enums| && InVariants(t, t.enums[n.data], j))
       || (n.tag == Tuple && n.data < |t.tuples| && InSpan(t.tuples[n.data], j))
       || (n.tag == Array && n.data < |t.arrays| && j == t.arrays[n.data].element)
  }

  /** By value or behind a shared reference. */
  ghost predicate Shares(t: Table, i: nat, j: nat) {
    || Holds(t, i, j)
    || (i < |t.types| && t.types[i].tag == Ref && t.types[i].data < |t.refs| && j == t.refs[t.types[i].data])
  }

  lemma SharedIsType(t: Table, i: nat, j: nat)
    requires InRange(t) && IsType(t, i) && Shares(t, i, j)
    ensures IsType(t, j)
  {
  }

  // ----- Walks -----

  /** Steps along the edges, by value only or through shared references too. */
  ghost predicate Step(t: Table, byValue: bool, i: nat, j: nat) {
    if byValue then Holds(t, i, j) else Shares(t, i, j)
  }

  datatype Walk = Stop(at: nat) | Go(at: nat, rest: Walk)

  ghost predicate IsWalk(t: Table, byValue: bool, w: Walk) {
    w.Go? ==> Step(t, byValue, w.at, w.rest.at) && IsWalk(t, byValue, w.rest)
  }

  function End(w: Walk): nat {
    match w
    case Stop(i) => i
    case Go(_, rest) => End(rest)
  }

  ghost predicate Reaches(t: Table, byValue: bool, i: nat, j: nat) {
    exists w :: IsWalk(t, byValue, w) && w.at == i && End(w) == j
  }

  lemma ReachesSelf(t: Table, byValue: bool, i: nat)
    ensures Reaches(t, byValue, i, i)
  {
    assert IsWalk(t, byValue, Stop(i));
  }

  lemma ReachesOn(t: Table, byValue: bool, i: nat, j: nat, k: nat)
    requires Step(t, byValue, i, j) && Reaches(t, byValue, j, k)
    ensures Reaches(t, byValue, i, k)
  {
    var w :| IsWalk(t, byValue, w) && w.at == j && End(w) == k;
    assert IsWalk(t, byValue, Go(i, w));
  }

  /** The first step of a walk to somewhere else. */
  lemma FirstStep(t: Table, byValue: bool, i: nat, k: nat) returns (j: nat)
    requires Reaches(t, byValue, i, k) && i != k
    ensures Step(t, byValue, i, j) && Reaches(t, byValue, j, k)
  {
    var w :| IsWalk(t, byValue, w) && w.at == i && End(w) == k;
    j := w.rest.at;
  }

  /** Is an exclusive reference reachable? */
  ghost predicate ReachesMut(t: Table, byValue: bool, i: nat) {
    exists j: nat :: j < |t.types| && t.types[j].tag == MutRef && Reaches(t, byValue, i, j)
  }

  lemma MutHere(t: Table, byValue: bool, i: nat)
    requires i < |t.types| && t.types[i].tag == MutRef
    ensures ReachesMut(t, byValue, i)
  {
    ReachesSelf(t, byValue, i);
  }

  lemma MutLater(t: Table, byValue: bool, i: nat, j: nat)
    requires Step(t, byValue, i, j) && ReachesMut(t, byValue, j)
    ensures ReachesMut(t, byValue, i)
  {
    var k: nat :| k < |t.types| && t.types[k].tag == MutRef && Reaches(t, byValue, j, k);
    ReachesOn(t, byValue, i, j, k);
  }

  /** An exclusive reference is reached here, or after one of the steps from here. */
  lemma MutSomewhere(t: Table, byValue: bool, i: nat) returns (j: nat)
    requires ReachesMut(t, byValue, i) && i < |t.types| && t.types[i].tag != MutRef
    ensures Step(t, byValue, i, j) && ReachesMut(t, byValue, j)
  {
    var k: nat :| k < |t.types| && t.types[k].tag == MutRef && Reaches(t, byValue, i, k);
    j := FirstStep(t, byValue, i, k);
  }
}
