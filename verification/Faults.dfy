/** The faults that the verifier reports, and what each of them says about a storage. */
module Faults {
  import opened Options
  import opened TypeTable
  import opened Ir
  import opened Machine

  datatype FaultKind =
    | FunctionBlocksOutOfRange | BlockInstrsOutOfRange | BlockParamsOutOfRange | BlockParamRegOutOfRange
    | InstrOperandsOutOfRange | InstrDstOutOfRange | UnknownOperandTag | OperandIdxOutOfRange
    | TypeIdxOutOfRange | StructFieldsOutOfRange | TypeMetadataOutOfRange | UndefinedRegister
    | RedefinedRegister | UnterminatedBlock | MisplacedTerminator | InvalidCallee | InvalidBranchTarget
    | InvalidCondBr | InvalidSwitch | InvalidGetElementPtr | InvalidExtractInsert | EnumFieldsOutOfRange
    | TupleFieldsOutOfRange

  /** A kind of fault and the index of what is at fault. */
  datatype Fault = Fault(kind: FaultKind, index: nat)

  /** The first register has two definitions. */
  ghost predicate IsRedefined(s: Storage, r: nat) {
    exists a, b :: a != b && IsSite(s, a) && IsSite(s, b) && RegisterOf(s, a) == r == RegisterOf(s, b)
  }

  /** The register has no definition. */
  ghost predicate IsUndefined(s: Storage, r: nat) {
    forall a :: IsSite(s, a) ==> RegisterOf(s, a) != r
  }

  /** Does some operand read the register? */
  ghost predicate IsRead(s: Storage, r: nat) {
    exists o: nat :: o < |s.operands| && s.operands[o].data == RegisterIdx(r)
  }

  ghost predicate IsMisplaced(s: Storage, i: nat) {
    && i < |s.instrs| && IsTerminator(s.instrs[i].op)
    && exists b: nat :: b < |s.blocks| && InSpan(s.blocks[b].instrs, i) && i + 1 != s.blocks[b].instrs.head + s.blocks[b].instrs.size
  }

  /** The block is empty or does not end in a terminator. */
  ghost predicate IsUnterminated(s: Storage, b: nat) {
    && b < |s.blocks|
    && var r := s.blocks[b].instrs;
       r.size == 0 || (Within(r, |s.instrs|) && !IsTerminator(s.instrs[r.head + r.size - 1].op))
  }

  ghost predicate IsShapeless(s: Storage, i: nat, op: Opcode) {
    i < |s.instrs| && s.instrs[i].op == op && !ShapeFits(s, s.instrs[i])
  }

  ghost predicate DanglesFrom(s: Storage, o: nat) {
    && o < |s.operands|
    && match s.operands[o].data
       case RegisterIdx(r) => r >= |s.registers|
       case FunctionIdx(f) => f >= |s.functions|
       case BlockIdx(b) => b >= |s.blocks|
       case ImmutableIdx(i) => i >= |s.immutables|
       case ExternalIdx(x) => x >= |s.externals|
       case Nothing => false
  }

  /** What a fault says of the storage it was found in.  The index of a type index out of
      range is that of its holder, or its own. */
  ghost predicate Explains(s: Storage, fault: Fault) {
    var t, x := s.table, fault.index;
    match fault.kind
    case FunctionBlocksOutOfRange => x < |s.functions| && !Within(s.functions[x].blocks, |s.blocks|)
    case BlockInstrsOutOfRange => x < |s.blocks| && !Within(s.blocks[x].instrs, |s.instrs|)
    case BlockParamsOutOfRange => x < |s.blocks| && !Within(s.blocks[x].params, |s.params|)
    case BlockParamRegOutOfRange => x >= |s.registers| && exists p: nat :: p < |s.params| && s.params[p].reg == x
    case InstrOperandsOutOfRange => x < |s.instrs| && !Within(s.instrs[x].operands, |s.operands|)
    case InstrDstOutOfRange =>
      x < |s.instrs| && s.instrs[x].dst.Some? && s.instrs[x].dst.value >= |s.registers|
    case UnknownOperandTag => x < |s.operands| && s.operands[x].data.Nothing?
    case OperandIdxOutOfRange => DanglesFrom(s, x)
    case TypeIdxOutOfRange => HoldsNoType(s, x)
    case StructFieldsOutOfRange => x < |t.structs| && !Within(t.structs[x], |t.types|)
    case TypeMetadataOutOfRange => x < |t.types| && !NodeFits(t, t.types[x])
    case UndefinedRegister => IsRead(s, x) && IsUndefined(s, x)
    case RedefinedRegister => IsRedefined(s, x)
    case UnterminatedBlock => IsUnterminated(s, x) || (x < |s.functions| && s.functions[x].blocks.size == 0)
    case MisplacedTerminator => IsMisplaced(s, x)
    case InvalidCallee => IsShapeless(s, x, Call)
    case InvalidBranchTarget => IsShapeless(s, x, Br)
    case InvalidCondBr => IsShapeless(s, x, CondBr)
    case InvalidSwitch => IsShapeless(s, x, Switch)
    case InvalidGetElementPtr => IsShapeless(s, x, GetElementPtr)
    case InvalidExtractInsert => IsShapeless(s, x, ExtractValue) || IsShapeless(s, x, InsertValue)
    case EnumFieldsOutOfRange => x < |t.variants| && !Within(t.variants[x], |t.types|)
    case TupleFieldsOutOfRange => x < |t.tuples| && !Within(t.tuples[x], |t.types|)
  }

  /** The index is no type's, or belongs to a register, an immutable, a function, a parameter
      or an operand whose type is none. */
  ghost predicate HoldsNoType(s: Storage, x: nat) {
    || !IsTypeIdx(s, x)
    || (x < |s.registers| && !IsTypeIdx(s, s.registers[x]))
    || (x < |s.immutables| && !IsTypeIdx(s, s.immutables[x]))
    || (x < |s.functions| && !IsTypeIdx(s, s.functions[x].meta.returnType))
    || (x < |s.params| && !IsTypeIdx(s, s.params[x].typeIdx))
    || (x < |s.operands| && !IsTypeIdx(s, s.operands[x].typeIdx))
  }
}
