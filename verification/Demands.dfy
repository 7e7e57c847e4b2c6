/** What each opcode asks of its list of operands. */
module Demands {
  import opened Options
  import opened TypeTable
  import opened Ir

  const I1: Tag := 1
  const I8: Tag := 2
  const I16: Tag := 3
  const I32: Tag := 4
  const I64: Tag := 5
  const U8: Tag := 6
  const U16: Tag := 7
  const U32: Tag := 8
  const U64: Tag := 9

  const IntegerTags: set<Tag> := {I1, I8, I16, I32, I64, U8, U16, U32, U64}

  function Operands(s: Storage, r: Range): seq<Operand>
    requires Within(r, |s.operands|)
  {
    s.operands[r.head..r.head + r.size]
  }

  predicate HasTag(s: Storage, x: Operand, tags: set<Tag>) {
    x.typeIdx < |s.table.types| && s.table.types[x.typeIdx].tag in tags
  }

  /** An integer known at compile time. */
  predicate IsIndex(s: Storage, x: Operand) {
    x.data.ImmutableIdx? && HasTag(s, x, IntegerTags)
  }

  predicate IsPlainBlock(s: Storage, x: Operand) {
    x.data.BlockIdx? && x.data.idx < |s.blocks| && s.blocks[x.data.idx].params.size == 0
  }

  /** Pairs of an immediate and the block to go to. */
  predicate AreCases(s: Storage, xs: seq<Operand>) {
    xs == [] || (|xs| >= 2 && xs[0].data.ImmutableIdx? && IsPlainBlock(s, xs[1]) && AreCases(s, xs[2..]))
  }

  /** How many arguments the operand takes as a callee. */
  function Arity(s: Storage, x: Operand): Option<nat> {
    if x.data.FunctionIdx? && x.data.idx < |s.functions| then Some(s.functions[x.data.idx].meta.paramTypes.size)
    else if x.data.ExternalIdx? && x.data.idx < |s.externals| then Some(s.externals[x.data.idx].paramTypes.size)
    else None
  }

  /** A callee and its arguments; a target; a boolean and two targets; an integer, a target
      and cases; a pointer in a register and indices; an aggregate, for an insertion a value,
      and indices known at compile time. */
  predicate Takes(s: Storage, op: Opcode, xs: seq<Operand>) {
    if op == Call then |xs| > 0 && Arity(s, xs[0]) == Some(|xs| - 1)
    else if op == Br then |xs| > 0 && xs[0].data.BlockIdx?
    else if op == CondBr then |xs| == 3 && HasTag(s, xs[0], {I1}) && IsPlainBlock(s, xs[1]) && IsPlainBlock(s, xs[2])
    else if op == Switch then |xs| > 1 && HasTag(s, xs[0], IntegerTags) && IsPlainBlock(s, xs[1]) && AreCases(s, xs[2..])
    else if op == GetElementPtr then |xs| > 1 && xs[0].data.RegisterIdx? && forall x <- xs[1..] :: HasTag(s, x, IntegerTags)
    else if op == ExtractValue then |xs| > 1 && forall x <- xs[1..] :: IsIndex(s, x)
    else op == InsertValue ==> |xs| > 2 && forall x <- xs[2..] :: IsIndex(s, x)
  }

  lemma TargetIsPlain(s: Storage, r: Range, k: nat)
    requires Within(r, |s.operands|) && k < r.size
    ensures IsPlainTarget(s, r.head + k) <==> IsPlainBlock(s, Operands(s, r)[k])
    ensures IsIntegerOperand(s, r.head + k) <==> HasTag(s, Operands(s, r)[k], IntegerTags)
  {
  }

  /** The cases from the `k`-th operand on. */
  lemma {:induction false} CasesAre(s: Storage, r: Range, k: nat)
    requires Within(r, |s.operands|) && r.size % 2 == 0 && 2 * k <= r.size
    ensures AreCases(s, Operands(s, r)[2 * k..]) <==>
      (forall j: nat | k <= j < r.size / 2 :: CaseFits(s, r.head + 2 * j))
    decreases r.size - 2 * k
  {
    var xs := Operands(s, r)[2 * k..];
    if xs != [] {
      CasesAre(s, r, k + 1);
      assert xs[2..] == Operands(s, r)[2 * (k + 1)..];
      TargetIsPlain(s, r, 2 * k + 1);
      assert AreCases(s, xs) <==> (CaseFits(s, r.head + 2 * k) && AreCases(s, xs[2..]));
    }
  }

  lemma SwitchIs(s: Storage, r: Range)
    requires Within(r, |s.operands|)
    ensures SwitchFits(s, r) <==> Takes(s, Switch, Operands(s, r))
  {
    var xs := Operands(s, r);
    if |xs| >= 2 && |xs| % 2 == 0 {
      CasesAre(s, r, 1);
      TargetIsPlain(s, r, 0);
      TargetIsPlain(s, r, 1);
    } else if |xs| >= 2 && AreCases(s, xs[2..]) {
      EvenCases(s, xs[2..]);
    }
  }

  lemma {:induction false} EvenCases(s: Storage, xs: seq<Operand>)
    requires AreCases(s, xs)
    ensures |xs| % 2 == 0
  {
    if xs != [] {
      EvenCases(s, xs[2..]);
    }
  }

  lemma TailOf(s: Storage, r: Range, k: nat, o: nat)
    requires Within(r, |s.operands|) && r.head + k <= o < r.head + r.size
    ensures s.operands[o] in Operands(s, r)[k..]
  {
    assert Operands(s, r)[k..][o - r.head - k] == s.operands[o];
  }

  lemma IntegersFrom(s: Storage, r: Range, k: nat)
    requires Within(r, |s.operands|) && k <= r.size
    ensures (forall o: nat | r.head + k <= o < r.head + r.size :: IsIntegerOperand(s, o)) <==>
      (forall x <- Operands(s, r)[k..] :: HasTag(s, x, IntegerTags))
  {
    var xs := Operands(s, r)[k..];
    if forall o: nat | r.head + k <= o < r.head + r.size :: IsIntegerOperand(s, o) {
      forall x <- xs ensures HasTag(s, x, IntegerTags) {
        var j :| 0 <= j < |xs| && xs[j] == x;
        assert IsIntegerOperand(s, r.head + k + j);
      }
    }
    forall o: nat | r.head + k <= o < r.head + r.size ensures s.operands[o] in xs {
      TailOf(s, r, k, o);
    }
  }

  lemma IndicesFrom(s: Storage, r: Range, k: nat)
    requires Within(r, |s.operands|) && k <= r.size
    ensures (forall o: nat | r.head + k <= o < r.head + r.size :: IsIndexOperand(s, o)) <==>
      (forall x <- Operands(s, r)[k..] :: IsIndex(s, x))
  {
    var xs := Operands(s, r)[k..];
    if forall o: nat | r.head + k <= o < r.head + r.size :: IsIndexOperand(s, o) {
      forall x <- xs ensures IsIndex(s, x) {
        var j :| 0 <= j < |xs| && xs[j] == x;
        assert IsIndexOperand(s, r.head + k + j);
      }
    }
    forall o: nat | r.head + k <= o < r.head + r.size ensures s.operands[o] in xs {
      TailOf(s, r, k, o);
    }
  }

  lemma CondBrIs(s: Storage, r: Range)
    requires Within(r, |s.operands|)
    ensures CondBrFits(s, r) <==> Takes(s, CondBr, Operands(s, r))
  {
    if r.size == 3 {
      TargetIsPlain(s, r, 1);
      TargetIsPlain(s, r, 2);
    }
  }

  /** The operands have the shape that the verifier looks for exactly when they are what the
      opcode takes. */
  lemma ShapeIsTaken(s: Storage, i: Instruction)
    requires Within(i.operands, |s.operands|)
    ensures ShapeFits(s, i) <==> Takes(s, i.op, Operands(s, i.operands))
  {
    var r := i.operands;
    if i.op == CondBr {
      CondBrIs(s, r);
    } else if i.op == Switch {
      SwitchIs(s, r);
    } else if i.op == GetElementPtr && r.size > 0 {
      IntegersFrom(s, r, 1);
    } else if i.op == ExtractValue && r.size > 0 {
      IndicesFrom(s, r, 1);
    } else if i.op == InsertValue && r.size > 1 {
      IndicesFrom(s, r, 2);
    }
  }
}
