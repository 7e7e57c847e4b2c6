/** The verifier of the intermediate representation: index loops that stop at the first
    fault, over the tables and then over the code. */
module Verifier {
  import opened Options
  import opened TypeTable
  import opened Ir
  import opened Machine
  import opened Execution
  import opened Faults

  /** Accepts exactly the storages whose tables fit together, which are those that can be
      executed; a fault that is reported is one. */
  method VerifyStorage(s: Storage) returns (fault: Option<Fault>)
    ensures fault.None? <==> WellFormed(s)
    ensures fault.None? <==> Executable(s)
    ensures fault.Some? ==> Explains(s, fault.value)
  {
    WellFormedIsExecutable(s);
    fault := VerifyTypes(s);
    if fault.Some? {
      return;
    }
    fault := VerifyTypeIdxs(s, s.registers);
    if fault.Some? {
      return;
    }
    fault := VerifyTypeIdxs(s, s.immutables);
    if fault.Some? {
      return;
    }
    fault := VerifyFunctions(s);
    if fault.Some? {
      return;
    }
    fault := VerifyBlocks(s);
    if fault.Some? {
      return;
    }
    for f := 0 to |s.functions|
      invariant forall i: nat | i < f :: s.functions[i].blocks.size > 0
    {
      if s.functions[f].blocks.size == 0 {
        return Some(Fault(UnterminatedBlock, f));
      }
    }
  }

  // ----- Tables -----

  method VerifyTypes(s: Storage) returns (fault: Option<Fault>)
    ensures fault.None? <==> TypesFit(s)
    ensures fault.Some? ==> Explains(s, fault.value)
  {
    for i := 0 to |s.table.types|
      invariant forall j: nat | j < i :: NodeFits(s.table, s.table.types[j])
    {
      fault := VerifyNode(s, i);
      if fault.Some? {
        return;
      }
    }
    return None;
  }

  method VerifyNode(s: Storage, i: nat) returns (fault: Option<Fault>)
    requires i < |s.table.types|
    ensures fault.None? <==> NodeFits(s.table, s.table.types[i])
    ensures fault.Some? ==> Explains(s, fault.value)
  {
    var t := s.table;
    var n := t.types[i];
    if n.tag == Struct {
      if n.data >= |t.structs| {
        return Some(Fault(TypeMetadataOutOfRange, i));
      }
      if !Within(t.structs[n.data], |t.types|) {
        return Some(Fault(StructFieldsOutOfRange, n.data));
      }
    } else if n.tag == Array {
      if n.data >= |t.arrays| {
        return Some(Fault(TypeMetadataOutOfRange, i));
      }
      if t.arrays[n.data].element >= |t.types| {
        return Some(Fault(TypeIdxOutOfRange, t.arrays[n.data].element));
      }
    } else if n.tag == Enum {
      if n.data >= |t.enums| {
        return Some(Fault(TypeMetadataOutOfRange, i));
      }
      var r := t.enums[n.data];
      if !Within(r, |t.variants|) {
        return Some(Fault(TypeMetadataOutOfRange, i));
      }
      for v := r.head to r.head + r.size
        invariant forall u: nat | r.head <= u < v :: Within(t.variants[u], |t.types|)
      {
        if !Within(t.variants[v], |t.types|) {
          assert InSpan(r, v);
          return Some(Fault(EnumFieldsOutOfRange, v));
        }
      }
    } else if n.tag == Tuple {
      if n.data >= |t.tuples| {
        return Some(Fault(TypeMetadataOutOfRange, i));
      }
      if !Within(t.tuples[n.data], |t.types|) {
        return Some(Fault(TupleFieldsOutOfRange, n.data));
      }
    }
    return None;
  }

  /** Registers and immutables carry types. */
  method VerifyTypeIdxs(s: Storage, xs: seq<nat>) returns (fault: Option<Fault>)
    requires xs == s.registers || xs == s.immutables
    ensures fault.None? <==> AreTypeIdxs(s, xs)
    ensures fault.Some? ==> Explains(s, fault.value)
  {
    for i := 0 to |xs|
      invariant forall j: nat | j < i :: IsTypeIdx(s, xs[j])
    {
      if !IsTypeIdx(s, xs[i]) {
        return Some(Fault(TypeIdxOutOfRange, i));
      }
    }
    return None;
  }

  method VerifyFunctions(s: Storage) returns (fault: Option<Fault>)
    ensures fault.None? <==> FunctionsFit(s)
    ensures fault.Some? ==> Explains(s, fault.value)
  {
    for f := 0 to |s.functions|
      invariant forall g: nat | g < f :: FunctionFits(s, s.functions[g])
    {
      var func := s.functions[f];
      if !Within(func.blocks, |s.blocks|) {
        return Some(Fault(FunctionBlocksOutOfRange, f));
      }
      if !IsTypeIdx(s, func.meta.returnType) {
        return Some(Fault(TypeIdxOutOfRange, f));
      }
      var r := func.meta.paramTypes;
      for t := r.head to r.head + r.size
        invariant forall u: nat | r.head <= u < t :: IsTypeIdx(s, u)
      {
        if !IsTypeIdx(s, t) {
          assert InSpan(r, t);
          return Some(Fault(TypeIdxOutOfRange, t));
        }
      }
    }
    return None;
  }

  // ----- Definitions -----

  /** The bits of the registers defined so far. */
  ghost predicate Marks(defined: array<bool>, defs: seq<nat>)
    reads defined
  {
    forall r: nat | r < defined.Length :: defined[r] == (r in defs)
  }

  lemma DistinctWithOneMore(defs: seq<nat>, r: nat)
    requires Distinct(defs)
    ensures Distinct(defs + [r]) <==> r !in defs
  {
    if r in defs {
      var i :| 0 <= i < |defs| && defs[i] == r;
      assert (defs + [r])[i] == (defs + [r])[|defs|];
    }
  }

  lemma DistinctPrefix(xs: seq<nat>, ys: seq<nat>)
    requires Distinct(xs + ys)
    ensures Distinct(xs)
  {
    assert forall i | 0 <= i < |xs| :: (xs + ys)[i] == xs[i];
  }

  lemma {:induction false} ParamDefsPrefix(s: Storage, r: Range, k: nat, n: nat)
    requires Within(r, |s.params|) && k <= n <= r.size
    ensures ParamDefs(s, r, k) <= ParamDefs(s, r, n)
  {
    if k < n {
      ParamDefsPrefix(s, r, k, n - 1);
    }
  }

  lemma {:induction false} InstrDefsPrefix(s: Storage, r: Range, k: nat, n: nat)
    requires Within(r, |s.instrs|) && k <= n <= r.size
    ensures InstrDefs(s, r, k) <= InstrDefs(s, r, n)
  {
    if k < n {
      InstrDefsPrefix(s, r, k, n - 1);
    }
  }

  /** Once a definition repeats, no later one mends it. */
  lemma RepeatShows(before: seq<nat>, xs: seq<nat>, r: nat, all: seq<nat>)
    requires r in before + xs && xs + [r] <= all
    ensures !Distinct(before + all)
  {
    var i :| 0 <= i < |before + xs| && (before + xs)[i] == r;
    var j := |before| + |xs|;
    assert (before + all)[j] == all[|xs|] == (xs + [r])[|xs|];
    assert (before + all)[i] == (before + xs)[i] by {
      assert i >= |before| ==> all[i - |before|] == (xs + [r])[i - |before|];
    }
  }

  lemma ParamIsRedefined(s: Storage, b: nat, k: nat)
    requires b < |s.blocks| && BlocksFit(s, b) && Within(s.blocks[b].params, |s.params|) && k < s.blocks[b].params.size
    requires var r := s.blocks[b].params;
      s.params[r.head + k].reg in Defs(s, b) + ParamDefs(s, r, k)
    ensures IsRedefined(s, s.params[s.blocks[b].params.head + k].reg)
  {
    var r := s.blocks[b].params;
    var here := ParamSite(b, r.head + k);
    var reg := RegisterOf(s, here);
    var site: Site;
    if reg in Defs(s, b) {
      site := DefHasSite(s, b, reg);
    } else {
      site := ParamDefHasSite(s, b, k, reg);
    }
    assert site != here;
  }

  lemma InstrIsRedefined(s: Storage, b: nat, k: nat)
    requires b < |s.blocks| && BlocksFit(s, b) && Within(s.blocks[b].params, |s.params|)
    requires Within(s.blocks[b].instrs, |s.instrs|) && k < s.blocks[b].instrs.size
    requires var r, params := s.blocks[b].instrs, s.blocks[b].params;
      && s.instrs[r.head + k].dst.Some?
      && s.instrs[r.head + k].dst.value in Defs(s, b) + ParamDefs(s, params, params.size) + InstrDefs(s, r, k)
    ensures IsRedefined(s, s.instrs[s.blocks[b].instrs.head + k].dst.value)
  {
    var r, params := s.blocks[b].instrs, s.blocks[b].params;
    var here := InstrSite(b, r.head + k);
    var reg := RegisterOf(s, here);
    var site: Site;
    if reg in Defs(s, b) {
      site := DefHasSite(s, b, reg);
    } else if reg in ParamDefs(s, params, params.size) {
      site := ParamDefHasSite(s, b, params.size, reg);
    } else {
      site := InstrDefHasSite(s, b, k, reg);
    }
    assert site != here;
  }

  lemma ParamRepeats(s: Storage, b: nat, k: nat)
    requires b < |s.blocks| && BlocksFit(s, b) && Within(s.blocks[b].params, |s.params|) && k < s.blocks[b].params.size
    requires var r := s.blocks[b].params;
      && Distinct(Defs(s, b) + ParamDefs(s, r, k))
      && s.params[r.head + k].reg in Defs(s, b) + ParamDefs(s, r, k)
    ensures IsRedefined(s, s.params[s.blocks[b].params.head + k].reg)
    ensures var r := s.blocks[b].params;
      !Distinct(Defs(s, b) + ParamDefs(s, r, r.size))
  {
    var r, before := s.blocks[b].params, Defs(s, b);
    var reg := s.params[r.head + k].reg;
    ParamIsRedefined(s, b, k);
    ParamDefsPrefix(s, r, k + 1, r.size);
    RepeatShows(before, ParamDefs(s, r, k), reg, ParamDefs(s, r, r.size));
  }

  lemma InstrRepeats(s: Storage, b: nat, k: nat)
    requires b < |s.blocks| && BlocksFit(s, b) && Within(s.blocks[b].params, |s.params|)
    requires Within(s.blocks[b].instrs, |s.instrs|) && k < s.blocks[b].instrs.size
    requires var r, params := s.blocks[b].instrs, s.blocks[b].params;
      var defs := Defs(s, b) + ParamDefs(s, params, params.size) + InstrDefs(s, r, k);
      && Distinct(defs) && s.instrs[r.head + k].dst.Some? && s.instrs[r.head + k].dst.value in defs
    ensures IsRedefined(s, s.instrs[s.blocks[b].instrs.head + k].dst.value)
    ensures var r, params := s.blocks[b].instrs, s.blocks[b].params;
      !Distinct(Defs(s, b) + ParamDefs(s, params, params.size) + InstrDefs(s, r, r.size))
  {
    var r, params := s.blocks[b].instrs, s.blocks[b].params;
    var before, reg := Defs(s, b) + ParamDefs(s, params, params.size), s.instrs[r.head + k].dst.value;
    InstrIsRedefined(s, b, k);
    InstrDefsPrefix(s, r, k + 1, r.size);
    RepeatShows(before, InstrDefs(s, r, k), reg, InstrDefs(s, r, r.size));
  }

  /** Marks the registers that the parameters bind. */
  method DefineParams(s: Storage, b: nat, r: Range, defined: array<bool>, ghost before: seq<nat>)
    returns (fault: Option<Fault>)
    requires b < |s.blocks| && r == s.blocks[b].params && BlocksFit(s, b) && before == Defs(s, b)
    requires Within(r, |s.params|) && defined.Length == |s.registers| && Marks(defined, before) && Distinct(before)
    modifies defined
    ensures fault.None? <==> ParamsFit(s, r) && Distinct(before + ParamDefs(s, r, r.size))
    ensures fault.Some? ==> Explains(s, fault.value)
    ensures fault.None? ==> Marks(defined, before + ParamDefs(s, r, r.size))
  {
    assert before + [] == before;
    for k := 0 to r.size
      invariant forall p: nat | r.head <= p < r.head + k ::
        IsTypeIdx(s, s.params[p].typeIdx) && s.params[p].reg < |s.registers|
      invariant Distinct(before + ParamDefs(s, r, k)) && Marks(defined, before + ParamDefs(s, r, k))
    {
      var p := r.head + k;
      assert InSpan(r, p);
      var param := s.params[p];
      if !IsTypeIdx(s, param.typeIdx) {
        return Some(Fault(TypeIdxOutOfRange, p));
      }
      if param.reg >= |s.registers| {
        return Some(Fault(BlockParamRegOutOfRange, param.reg));
      }
      ghost var defs := ParamDefs(s, r, k);
      assert before + ParamDefs(s, r, k + 1) == before + defs + [param.reg];
      DistinctWithOneMore(before + defs, param.reg);
      if defined[param.reg] {
        ParamRepeats(s, b, k);
        return Some(Fault(RedefinedRegister, param.reg));
      }
      defined[param.reg] := true;
    }
    return None;
  }

  /** Marks the registers that the instructions define. */
  method DefineDsts(s: Storage, b: nat, r: Range, defined: array<bool>, ghost before: seq<nat>)
    returns (fault: Option<Fault>)
    requires b < |s.blocks| && r == s.blocks[b].instrs && BlocksFit(s, b) && ParamsFit(s, s.blocks[b].params)
    requires before == Defs(s, b) + ParamDefs(s, s.blocks[b].params, s.blocks[b].params.size)
    requires Within(r, |s.instrs|) && defined.Length == |s.registers| && Marks(defined, before) && Distinct(before)
    modifies defined
    ensures fault.None? <==> DstsFit(s, r) && Distinct(before + InstrDefs(s, r, r.size))
    ensures fault.Some? ==> Explains(s, fault.value)
    ensures fault.None? ==> Marks(defined, before + InstrDefs(s, r, r.size))
  {
    assert before + [] == before;
    for k := 0 to r.size
      invariant forall i: nat | r.head <= i < r.head + k ::
        s.instrs[i].dst.Some? ==> s.instrs[i].dst.value < |s.registers|
      invariant Distinct(before + InstrDefs(s, r, k)) && Marks(defined, before + InstrDefs(s, r, k))
    {
      var i := r.head + k;
      assert InSpan(r, i);
      var dst := s.instrs[i].dst;
      ghost var defs := InstrDefs(s, r, k);
      if dst.None? {
        assert before + InstrDefs(s, r, k + 1) == before + defs;
      } else {
        if dst.value >= |s.registers| {
          return Some(Fault(InstrDstOutOfRange, i));
        }
        assert before + InstrDefs(s, r, k + 1) == before + defs + [dst.value];
        DistinctWithOneMore(before + defs, dst.value);
        if defined[dst.value] {
          InstrRepeats(s, b, k);
          return Some(Fault(RedefinedRegister, dst.value));
        }
        defined[dst.value] := true;
      }
    }
    return None;
  }

  method DefineBlock(s: Storage, b: nat, defined: array<bool>) returns (fault: Option<Fault>)
    requires b < |s.blocks| && BlocksFit(s, b) && Distinct(Defs(s, b))
    requires defined.Length == |s.registers| && Marks(defined, Defs(s, b))
    modifies defined
    ensures fault.None? <==> BlocksFit(s, b + 1) && Distinct(Defs(s, b + 1))
    ensures fault.Some? ==> Explains(s, fault.value)
    ensures fault.None? ==> Marks(defined, Defs(s, b + 1))
  {
    var block := s.blocks[b];
    if !Within(block.instrs, |s.instrs|) {
      return Some(Fault(BlockInstrsOutOfRange, b));
    }
    if !Within(block.params, |s.params|) {
      return Some(Fault(BlockParamsOutOfRange, b));
    }
    ghost var before := Defs(s, b);
    ghost var params := ParamDefs(s, block.params, block.params.size);
    ghost var instrs := InstrDefs(s, block.instrs, block.instrs.size);
    fault := DefineParams(s, b, block.params, defined, before);
    if fault.None? {
      fault := DefineDsts(s, b, block.instrs, defined, before + params);
    } else if BlocksFit(s, b + 1) && Distinct(Defs(s, b + 1)) {
      DistinctPrefix(before + params, instrs);
    }
    assert BlocksFit(s, b + 1) <==> BlockFits(s, block);
  }

  lemma {:induction false} EarlierDefsDistinct(s: Storage, k: nat, n: nat)
    requires k <= n <= |s.blocks| && BlocksFit(s, n) && Distinct(Defs(s, n))
    ensures BlocksFit(s, k) && Distinct(Defs(s, k))
  {
    if k < n {
      var b := s.blocks[n - 1];
      var params, instrs := ParamDefs(s, b.params, b.params.size), InstrDefs(s, b.instrs, b.instrs.size);
      DistinctPrefix(Defs(s, n - 1) + params, instrs);
      DistinctPrefix(Defs(s, n - 1), params);
      EarlierDefsDistinct(s, k, n - 1);
    }
  }

  method VerifyBlocks(s: Storage) returns (fault: Option<Fault>)
    ensures fault.None? <==> BlocksFit(s, |s.blocks|) && Distinct(Defs(s, |s.blocks|)) && AllCodeFits(s)
    ensures fault.Some? ==> Explains(s, fault.value)
  {
    var defined := new bool[|s.registers|](_ => false);
    fault := DefineBlocks(s, defined);
    if fault.None? {
      fault := VerifyAllCode(s, defined);
    }
  }

  method DefineBlocks(s: Storage, defined: array<bool>) returns (fault: Option<Fault>)
    requires defined.Length == |s.registers| && Marks(defined, [])
    modifies defined
    ensures fault.None? <==> BlocksFit(s, |s.blocks|) && Distinct(Defs(s, |s.blocks|))
    ensures fault.None? ==> Marks(defined, Defs(s, |s.blocks|))
    ensures fault.Some? ==> Explains(s, fault.value)
  {
    for b := 0 to |s.blocks|
      invariant BlocksFit(s, b) && Distinct(Defs(s, b)) && Marks(defined, Defs(s, b))
    {
      fault := DefineBlock(s, b, defined);
      if fault.Some? {
        if BlocksFit(s, |s.blocks|) && Distinct(Defs(s, |s.blocks|)) {
          EarlierDefsDistinct(s, b + 1, |s.blocks|);
        }
        return;
      }
    }
    return None;
  }

  method VerifyAllCode(s: Storage, defined: array<bool>) returns (fault: Option<Fault>)
    requires BlocksFit(s, |s.blocks|) && defined.Length == |s.registers| && Marks(defined, Defs(s, |s.blocks|))
    ensures fault.None? <==> AllCodeFits(s)
    ensures fault.Some? ==> Explains(s, fault.value)
  {
    ghost var defs := Defs(s, |s.blocks|);
    for b := 0 to |s.blocks|
      invariant forall c: nat | c < b :: CodeFits(s, s.blocks[c], defs)
    {
      fault := VerifyCode(s, b, defined, defs);
      if fault.Some? {
        return;
      }
    }
    return None;
  }

  // ----- Code -----

  method VerifyCode(s: Storage, b: nat, defined: array<bool>, ghost defs: seq<nat>) returns (fault: Option<Fault>)
    requires b < |s.blocks| && BlocksFit(s, |s.blocks|) && defs == Defs(s, |s.blocks|)
    requires defined.Length == |s.registers| && Marks(defined, defs)
    ensures fault.None? <==> BlockFits(s, s.blocks[b]) && CodeFits(s, s.blocks[b], defs)
    ensures fault.Some? ==> Explains(s, fault.value)
  {
    var r := s.blocks[b].instrs;
    assert BlockFits(s, s.blocks[b]);
    if r.size == 0 {
      return Some(Fault(UnterminatedBlock, b));
    }
    for i := r.head to r.head + r.size
      invariant forall j: nat | r.head <= j < i ::
        InstrFits(s, s.instrs[j], defs) && IsTerminator(s.instrs[j].op) == (j + 1 == r.head + r.size)
    {
      assert InSpan(r, i);
      var last := i + 1 == r.head + r.size;
      if IsTerminator(s.instrs[i].op) != last {
        return Some(if last then Fault(UnterminatedBlock, b) else Fault(MisplacedTerminator, i));
      }
      fault := VerifyInstr(s, i, defined, defs);
      if fault.Some? {
        return;
      }
    }
    return None;
  }

  method VerifyInstr(s: Storage, i: nat, defined: array<bool>, ghost defs: seq<nat>) returns (fault: Option<Fault>)
    requires i < |s.instrs| && BlocksFit(s, |s.blocks|) && defs == Defs(s, |s.blocks|)
    requires defined.Length == |s.registers| && Marks(defined, defs)
    ensures fault.None? <==> InstrFits(s, s.instrs[i], defs)
    ensures fault.Some? ==> Explains(s, fault.value)
  {
    var r := s.instrs[i].operands;
    if !Within(r, |s.operands|) {
      return Some(Fault(InstrOperandsOutOfRange, i));
    }
    for o := r.head to r.head + r.size
      invariant forall k: nat | r.head <= k < o :: OperandFits(s, s.operands[k], defs)
    {
      assert InSpan(r, o);
      fault := VerifyOperand(s, o, defined, defs);
      if fault.Some? {
        return;
      }
    }
    fault := VerifyShape(s, i, defs);
  }

  /** What is not among the definitions has none. */
  lemma UnmarkedIsUndefined(s: Storage, r: nat)
    requires BlocksFit(s, |s.blocks|) && r !in Defs(s, |s.blocks|)
    ensures IsUndefined(s, r)
  {
    forall site | IsSite(s, site) ensures RegisterOf(s, site) != r {
      SiteIsInDefs(s, |s.blocks|, site);
    }
  }

  method VerifyOperand(s: Storage, o: nat, defined: array<bool>, ghost defs: seq<nat>) returns (fault: Option<Fault>)
    requires BlocksFit(s, |s.blocks|) && defs == Defs(s, |s.blocks|)
    requires o < |s.operands| && defined.Length == |s.registers| && Marks(defined, defs)
    ensures fault.None? <==> OperandFits(s, s.operands[o], defs)
    ensures fault.Some? ==> Explains(s, fault.value)
  {
    var operand := s.operands[o];
    if !IsTypeIdx(s, operand.typeIdx) {
      return Some(Fault(TypeIdxOutOfRange, o));
    }
    match operand.data
    case RegisterIdx(r) =>
      if r >= |s.registers| {
        return Some(Fault(OperandIdxOutOfRange, o));
      }
      if !defined[r] {
        UnmarkedIsUndefined(s, r);
        return Some(Fault(UndefinedRegister, r));
      }
      return None;
    case FunctionIdx(f) =>
      return if f < |s.functions| then None else Some(Fault(OperandIdxOutOfRange, o));
    case BlockIdx(b) =>
      return if b < |s.blocks| then None else Some(Fault(OperandIdxOutOfRange, o));
    case ImmutableIdx(i) =>
      return if i < |s.immutables| then None else Some(Fault(OperandIdxOutOfRange, o));
    case ExternalIdx(x) =>
      return if x < |s.externals| then None else Some(Fault(OperandIdxOutOfRange, o));
    case Nothing =>
      return Some(Fault(UnknownOperandTag, o));
  }

  // ----- Shapes -----

  method VerifyShape(s: Storage, i: nat, ghost defs: seq<nat>) returns (fault: Option<Fault>)
    requires i < |s.instrs| && OperandsFit(s, s.instrs[i].operands, defs)
    ensures fault.None? <==> ShapeFits(s, s.instrs[i])
    ensures fault.Some? ==> Explains(s, fault.value)
  {
    var op, r := s.instrs[i].op, s.instrs[i].operands;
    if op == Call {
      fault := VerifyCall(s, i, defs);
    } else if op == Br {
      fault := if r.size == 0 || !s.operands[r.head].data.BlockIdx? then Some(Fault(InvalidBranchTarget, i)) else None;
    } else if op == CondBr {
      fault := VerifyCondBr(s, i, defs);
    } else if op == Switch {
      fault := VerifySwitch(s, i, defs);
    } else if op == GetElementPtr {
      fault := VerifyGetElementPtr(s, i, defs);
    } else if op == ExtractValue {
      fault := VerifyIndices(s, i, 1, defs);
    } else if op == InsertValue {
      fault := VerifyIndices(s, i, 2, defs);
    } else {
      fault := None;
    }
  }

  method VerifyCall(s: Storage, i: nat, ghost defs: seq<nat>) returns (fault: Option<Fault>)
    requires i < |s.instrs| && s.instrs[i].op == Call && OperandsFit(s, s.instrs[i].operands, defs)
    ensures fault.None? <==> CallFits(s, s.instrs[i].operands)
    ensures fault.Some? ==> Explains(s, fault.value)
  {
    var r := s.instrs[i].operands;
    if r.size == 0 {
      return Some(Fault(InvalidCallee, i));
    }
    assert InSpan(r, r.head);
    var head := s.operands[r.head].data;
    if !head.FunctionIdx? && !head.ExternalIdx? {
      return Some(Fault(InvalidCallee, i));
    }
    var meta := if head.FunctionIdx? then s.functions[head.idx].meta else s.externals[head.idx];
    return if r.size - 1 == meta.paramTypes.size then None else Some(Fault(InvalidCallee, i));
  }

  /** An operand that fits names a block that is there. */
  lemma TargetExists(s: Storage, r: Range, o: nat, defs: seq<nat>)
    requires OperandsFit(s, r, defs) && InSpan(r, o)
    ensures o < |s.operands| && IsTypeIdx(s, s.operands[o].typeIdx)
    ensures s.operands[o].data.BlockIdx? ==> s.operands[o].data.idx < |s.blocks|
  {
    assert OperandFits(s, s.operands[o], defs);
  }

  method VerifyCondBr(s: Storage, i: nat, ghost defs: seq<nat>) returns (fault: Option<Fault>)
    requires i < |s.instrs| && s.instrs[i].op == CondBr && OperandsFit(s, s.instrs[i].operands, defs)
    ensures fault.None? <==> CondBrFits(s, s.instrs[i].operands)
    ensures fault.Some? ==> Explains(s, fault.value)
  {
    var r := s.instrs[i].operands;
    if r.size != 3 {
      return Some(Fault(InvalidCondBr, i));
    }
    TargetExists(s, r, r.head, defs);
    if s.table.types[s.operands[r.head].typeIdx].tag != 1 {
      return Some(Fault(InvalidCondBr, i));
    }
    for offset := 1 to 3
      invariant forall o: nat | r.head < o < r.head + offset :: IsPlainTarget(s, o)
    {
      TargetExists(s, r, r.head + offset, defs);
      var target := s.operands[r.head + offset].data;
      if !target.BlockIdx? || s.blocks[target.idx].params.size != 0 {
        assert !IsPlainTarget(s, r.head + offset);
        return Some(Fault(InvalidCondBr, i));
      }
    }
    return None;
  }

  method VerifySwitch(s: Storage, i: nat, ghost defs: seq<nat>) returns (fault: Option<Fault>)
    requires i < |s.instrs| && s.instrs[i].op == Switch && OperandsFit(s, s.instrs[i].operands, defs)
    ensures fault.None? <==> SwitchFits(s, s.instrs[i].operands)
    ensures fault.Some? ==> Explains(s, fault.value)
  {
    var r := s.instrs[i].operands;
    if r.size < 2 || r.size % 2 != 0 {
      return Some(Fault(InvalidSwitch, i));
    }
    TargetExists(s, r, r.head, defs);
    TargetExists(s, r, r.head + 1, defs);
    if !IsInteger(s.table.types[s.operands[r.head].typeIdx].tag) {
      return Some(Fault(InvalidSwitch, i));
    }
    var default' := s.operands[r.head + 1].data;
    if !default'.BlockIdx? || s.blocks[default'.idx].params.size != 0 {
      return Some(Fault(InvalidSwitch, i));
    }
    var offset := 2;
    while offset < r.size
      invariant 2 <= offset <= r.size && offset % 2 == 0
      invariant forall k: nat | 1 <= k < offset / 2 :: CaseFits(s, r.head + 2 * k)
    {
      TargetExists(s, r, r.head + offset, defs);
      TargetExists(s, r, r.head + offset + 1, defs);
      var case', target := s.operands[r.head + offset].data, s.operands[r.head + offset + 1].data;
      if !case'.ImmutableIdx? || !target.BlockIdx? || s.blocks[target.idx].params.size != 0 {
        assert !CaseFits(s, r.head + 2 * (offset / 2));
        return Some(Fault(InvalidSwitch, i));
      }
      offset := offset + 2;
    }
    return None;
  }

  method VerifyGetElementPtr(s: Storage, i: nat, ghost defs: seq<nat>) returns (fault: Option<Fault>)
    requires i < |s.instrs| && s.instrs[i].op == GetElementPtr && OperandsFit(s, s.instrs[i].operands, defs)
    ensures fault.None? <==> GetElementPtrFits(s, s.instrs[i].operands)
    ensures fault.Some? ==> Explains(s, fault.value)
  {
    var r := s.instrs[i].operands;
    if r.size < 2 || !s.operands[r.head].data.RegisterIdx? {
      return Some(Fault(InvalidGetElementPtr, i));
    }
    for o := r.head + 1 to r.head + r.size
      invariant forall k: nat | r.head < k < o :: IsIntegerOperand(s, k)
    {
      TargetExists(s, r, o, defs);
      if !IsInteger(s.table.types[s.operands[o].typeIdx].tag) {
        assert !IsIntegerOperand(s, o);
        return Some(Fault(InvalidGetElementPtr, i));
      }
    }
    return None;
  }

  /** Indices are integer immediates, from the `first` operand on. */
  method VerifyIndices(s: Storage, i: nat, first: nat, ghost defs: seq<nat>) returns (fault: Option<Fault>)
    requires i < |s.instrs| && OperandsFit(s, s.instrs[i].operands, defs)
    requires if first == 1 then s.instrs[i].op == ExtractValue else first == 2 && s.instrs[i].op == InsertValue
    ensures fault.None? <==> IndicesFit(s, s.instrs[i].operands, first)
    ensures fault.Some? ==> Explains(s, fault.value)
  {
    var r := s.instrs[i].operands;
    if r.size < first + 1 {
      return Some(Fault(InvalidExtractInsert, i));
    }
    for o := r.head + first to r.head + r.size
      invariant forall k: nat | r.head + first <= k < o :: IsIndexOperand(s, k)
    {
      TargetExists(s, r, o, defs);
      if !s.operands[o].data.ImmutableIdx? || !IsInteger(s.table.types[s.operands[o].typeIdx].tag) {
        assert !IsIndexOperand(s, o);
        return Some(Fault(InvalidExtractInsert, i));
      }
    }
    return None;
  }
}
