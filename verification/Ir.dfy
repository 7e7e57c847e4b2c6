/** The intermediate representation, and when its tables fit together. */
module Ir {
  import opened Options
  import opened TypeTable

  /** The opcodes, numbered as in the source's enumeration. */
  newtype Opcode = k: int | 0 <= k < 43

  const GetElementPtr: Opcode := 4
  const ExtractValue: Opcode := 5
  const InsertValue: Opcode := 6
  const Br: Opcode := 30
  const CondBr: Opcode := 31
  const Switch: Opcode := 32
  const Call: Opcode := 33
  const Ret: Opcode := 34
  const Unreachable: Opcode := 35

  datatype Payload =
    | RegisterIdx(idx: nat)
    | FunctionIdx(idx: nat)
    | BlockIdx(idx: nat)
    | ImmutableIdx(idx: nat)
    | ExternalIdx(idx: nat)
    | Nothing

  datatype Operand = Operand(data: Payload, typeIdx: nat)
  datatype Instruction = Instruction(op: Opcode, dst: Option<nat>, operands: Range)
  datatype BlockParam = BlockParam(typeIdx: nat, reg: nat)
  datatype Block = Block(instrs: Range, params: Range)
  datatype Meta = Meta(returnType: nat, paramTypes: Range)
  datatype FunctionDef = FunctionDef(meta: Meta, blocks: Range)

  /** Registers and immutables are given by their types. */
  datatype Storage = Storage(
    table: Table,
    registers: seq<nat>,
    immutables: seq<nat>,
    functions: seq<FunctionDef>,
    externals: seq<Meta>,
    blocks: seq<Block>,
    params: seq<BlockParam>,
    instrs: seq<Instruction>,
    operands: seq<Operand>)

  predicate IsTerminator(op: Opcode) {
    op == Br || op == CondBr || op == Switch || op == Ret || op == Unreachable
  }

  predicate IsInteger(tag: Tag) {
    1 <= tag as int <= 9
  }

  predicate Within(r: Range, n: nat) {
    r.head + r.size <= n
  }

  // ----- Types -----

  predicate IsTypeIdx(s: Storage, i: nat) {
    i < |s.table.types|
  }

  ghost predicate VariantsFit(t: Table, r: Range) {
    Within(r, |t.variants|) && forall v: nat | InSpan(r, v) :: Within(t.variants[v], |t.types|)
  }

  /** The parts of a composite type are in the table.  References are not looked at. */
  ghost predicate NodeFits(t: Table, n: Node) {
    && (n.tag == Struct ==> n.data < |t.structs| && Within(t.structs[n.data], |t.types|))
    && (n.tag == Array ==> n.data < |t.arrays| && t.arrays[n.data].element < |t.types|)
    && (n.tag == Enum ==> n.data < |t.enums| && VariantsFit(t, t.enums[n.data]))
    && (n.tag == Tuple ==> n.data < |t.tuples| && Within(t.tuples[n.data], |t.types|))
  }

  ghost predicate FunctionFits(s: Storage, f: FunctionDef) {
    && Within(f.blocks, |s.blocks|) && IsTypeIdx(s, f.meta.returnType)
    && forall t: nat | InSpan(f.meta.paramTypes, t) :: IsTypeIdx(s, t)
  }

  // ----- Definitions -----

  ghost predicate ParamsFit(s: Storage, r: Range) {
    && Within(r, |s.params|)
    && forall p: nat | InSpan(r, p) :: IsTypeIdx(s, s.params[p].typeIdx) && s.params[p].reg < |s.registers|
  }

  ghost predicate DstsFit(s: Storage, r: Range) {
    && Within(r, |s.instrs|)
    && forall i: nat | InSpan(r, i) :: s.instrs[i].dst.Some? ==> s.instrs[i].dst.value < |s.registers|
  }

  /** The ranges and register indices of a block. */
  ghost predicate BlockFits(s: Storage, b: Block) {
    DstsFit(s, b.instrs) && ParamsFit(s, b.params)
  }

  /** The registers that the first `n` parameters bind. */
  function ParamDefs(s: Storage, r: Range, n: nat): seq<nat>
    requires Within(r, |s.params|) && n <= r.size
  {
    if n == 0 then [] else ParamDefs(s, r, n - 1) + [s.params[r.head + n - 1].reg]
  }

  /** The registers that the first `n` instructions define. */
  function InstrDefs(s: Storage, r: Range, n: nat): seq<nat>
    requires Within(r, |s.instrs|) && n <= r.size
  {
    if n == 0 then []
    else
      var dst := s.instrs[r.head + n - 1].dst;
      InstrDefs(s, r, n - 1) + if dst.Some? then [dst.value] else []
  }

  ghost predicate BlocksFit(s: Storage, n: nat)
    requires n <= |s.blocks|
  {
    forall b: nat | b < n :: BlockFits(s, s.blocks[b])
  }

  /** The registers that the first `n` blocks define, as often as they do. */
  ghost function Defs(s: Storage, n: nat): seq<nat>
    requires n <= |s.blocks| && BlocksFit(s, n)
  {
    if n == 0 then []
    else
      var b := s.blocks[n - 1];
      Defs(s, n - 1) + ParamDefs(s, b.params, b.params.size) + InstrDefs(s, b.instrs, b.instrs.size)
  }

  ghost predicate Distinct(xs: seq<nat>) {
    forall i, j | 0 <= i < j < |xs| :: xs[i] != xs[j]
  }

  // ----- Instructions -----

  ghost predicate OperandFits(s: Storage, o: Operand, defs: seq<nat>) {
    && IsTypeIdx(s, o.typeIdx)
    && match o.data
       case RegisterIdx(r) => r < |s.registers| && r in defs
       case FunctionIdx(f) => f < |s.functions|
       case BlockIdx(b) => b < |s.blocks|
       case ImmutableIdx(i) => i < |s.immutables|
       case ExternalIdx(x) => x < |s.externals|
       case Nothing => false
  }

  ghost predicate OperandsFit(s: Storage, r: Range, defs: seq<nat>) {
    Within(r, |s.operands|) && forall o: nat | InSpan(r, o) :: OperandFits(s, s.operands[o], defs)
  }

  /** The first operand is a callee that takes as many arguments as there are others. */
  predicate CallFits(s: Storage, r: Range) {
    && r.size > 0 && r.head < |s.operands|
    && match s.operands[r.head].data
       case FunctionIdx(f) => f < |s.functions| && r.size - 1 == s.functions[f].meta.paramTypes.size
       case ExternalIdx(x) => x < |s.externals| && r.size - 1 == s.externals[x].paramTypes.size
       case _ => false
  }

  predicate IsBlockOperand(s: Storage, o: nat) {
    o < |s.operands| && s.operands[o].data.BlockIdx?
  }

  /** A branch target without parameters. */
  predicate IsPlainTarget(s: Storage, o: nat) {
    && IsBlockOperand(s, o) && s.operands[o].data.idx < |s.blocks|
    && s.blocks[s.operands[o].data.idx].params.size == 0
  }

  predicate IsIntegerOperand(s: Storage, o: nat) {
    && o < |s.operands| && s.operands[o].typeIdx < |s.table.types|
    && IsInteger(s.table.types[s.operands[o].typeIdx].tag)
  }

  predicate CondBrFits(s: Storage, r: Range) {
    && r.size == 3 && r.head < |s.operands| && s.operands[r.head].typeIdx < |s.table.types|
    && s.table.types[s.operands[r.head].typeIdx].tag == 1
    && IsPlainTarget(s, r.head + 1) && IsPlainTarget(s, r.head + 2)
  }

  predicate CaseFits(s: Storage, o: nat) {
    o < |s.operands| && s.operands[o].data.ImmutableIdx? && IsPlainTarget(s, o + 1)
  }

  ghost predicate SwitchFits(s: Storage, r: Range) {
    && r.size >= 2 && r.size % 2 == 0 && IsIntegerOperand(s, r.head) && IsPlainTarget(s, r.head + 1)
    && forall k: nat | 1 <= k < r.size / 2 :: CaseFits(s, r.head + 2 * k)
  }

  ghost predicate GetElementPtrFits(s: Storage, r: Range) {
    && r.size >= 2 && r.head < |s.operands| && s.operands[r.head].data.RegisterIdx?
    && forall o: nat | r.head < o < r.head + r.size :: IsIntegerOperand(s, o)
  }

  predicate IsIndexOperand(s: Storage, o: nat) {
    IsIntegerOperand(s, o) && s.operands[o].data.ImmutableIdx?
  }

  ghost predicate IndicesFit(s: Storage, r: Range, first: nat) {
    r.size > first && forall o: nat | r.head + first <= o < r.head + r.size :: IsIndexOperand(s, o)
  }

  ghost predicate ShapeFits(s: Storage, i: Instruction) {
    && (i.op == Call ==> CallFits(s, i.operands))
    && (i.op == Br ==> i.operands.size > 0 && IsBlockOperand(s, i.operands.head))
    && (i.op == CondBr ==> CondBrFits(s, i.operands))
    && (i.op == Switch ==> SwitchFits(s, i.operands))
    && (i.op == GetElementPtr ==> GetElementPtrFits(s, i.operands))
    && (i.op == ExtractValue ==> IndicesFit(s, i.operands, 1))
    && (i.op == InsertValue ==> IndicesFit(s, i.operands, 2))
  }

  ghost predicate InstrFits(s: Storage, i: Instruction, defs: seq<nat>) {
    OperandsFit(s, i.operands, defs) && ShapeFits(s, i)
  }

  /** The instructions of a block fit, and exactly the last one ends it. */
  ghost predicate CodeFits(s: Storage, b: Block, defs: seq<nat>)
    requires Within(b.instrs, |s.instrs|)
  {
    && b.instrs.size > 0
    && forall i: nat | InSpan(b.instrs, i) ::
         InstrFits(s, s.instrs[i], defs) && IsTerminator(s.instrs[i].op) == (i + 1 == b.instrs.head + b.instrs.size)
  }

  // ----- Everything -----

  ghost predicate TypesFit(s: Storage) {
    forall i: nat | i < |s.table.types| :: NodeFits(s.table, s.table.types[i])
  }

  ghost predicate AreTypeIdxs(s: Storage, xs: seq<nat>) {
    forall i: nat | i < |xs| :: IsTypeIdx(s, xs[i])
  }

  ghost predicate FunctionsFit(s: Storage) {
    forall f: nat | f < |s.functions| :: FunctionFits(s, s.functions[f])
  }

  ghost predicate AllCodeFits(s: Storage)
    requires BlocksFit(s, |s.blocks|)
  {
    forall b: nat | b < |s.blocks| :: CodeFits(s, s.blocks[b], Defs(s, |s.blocks|))
  }

  ghost predicate WellFormed(s: Storage) {
    && TypesFit(s) && AreTypeIdxs(s, s.registers) && AreTypeIdxs(s, s.immutables) && FunctionsFit(s)
    && BlocksFit(s, |s.blocks|) && Distinct(Defs(s, |s.blocks|)) && AllCodeFits(s)
    && forall f: nat | f < |s.functions| :: s.functions[f].blocks.size > 0
  }
}
