/** What a storage must be like to be executed: said by what types hold, by where registers
    are defined and by what opcodes ask for.  It is what the verifier accepts. */
module Execution {
  import opened Options
  import opened TypeTable
  import opened Ir
  import opened Demands
  import opened Machine

  // ----- Types -----

  /** The table has the list of parts that the node names, even if there are none. */
  ghost predicate HasParts(t: Table, n: Node) {
    && (n.tag == Struct ==> n.data < |t.structs| && t.structs[n.data].head <= |t.types|)
    && (n.tag == Array ==> n.data < |t.arrays|)
    && (n.tag == Enum ==> n.data < |t.enums| && HasVariants(t, t.enums[n.data]))
    && (n.tag == Tuple ==> n.data < |t.tuples| && t.tuples[n.data].head <= |t.types|)
  }

  ghost predicate HasVariants(t: Table, r: Range) {
    && r.head <= |t.variants|
    && forall v: nat | InSpan(r, v) :: v < |t.variants| && t.variants[v].head <= |t.types|
  }

  /** What the type holds by value are types. */
  ghost predicate HoldsTypes(t: Table, i: nat) {
    forall j: nat | Holds(t, i, j) :: j < |t.types|
  }

  lemma SpanEnds(r: Range, n: nat)
    ensures Within(r, n) <==> (r.head <= n && forall j: nat | InSpan(r, j) :: j < n)
  {
    if r.size > 0 && !Within(r, n) {
      assert InSpan(r, r.head + r.size - 1);
    }
  }

  lemma VariantsEnd(t: Table, i: nat)
    requires i < |t.types| && t.types[i].tag == Enum && t.types[i].data < |t.enums|
    ensures var r := t.enums[t.types[i].data]; VariantsFit(t, r) <==> (HasVariants(t, r) && HoldsTypes(t, i))
  {
    var r := t.enums[t.types[i].data];
    SpanEnds(r, |t.variants|);
    forall v: nat | InSpan(r, v) && v < |t.variants|
      ensures Within(t.variants[v], |t.types|) <==>
        (t.variants[v].head <= |t.types| && forall j: nat | InSpan(t.variants[v], j) :: j < |t.types|)
    {
      SpanEnds(t.variants[v], |t.types|);
    }
    if HasVariants(t, r) && HoldsTypes(t, i) {
      forall v: nat, j: nat | InSpan(r, v) && InSpan(t.variants[v], j) ensures j < |t.types| {
        assert InVariants(t, r, j);
        assert Holds(t, i, j);
      }
    }
  }

  lemma RangeEnds(t: Table, i: nat, r: Range)
    requires i < |t.types| && forall j: nat :: Holds(t, i, j) <==> InSpan(r, j)
    ensures Within(r, |t.types|) <==> (r.head <= |t.types| && HoldsTypes(t, i))
  {
    SpanEnds(r, |t.types|);
  }

  /** The parts of a node are in the table exactly when it has its list of them and they are
      types. */
  lemma NodeIs(t: Table, i: nat)
    requires i < |t.types|
    ensures NodeFits(t, t.types[i]) <==> (HasParts(t, t.types[i]) && HoldsTypes(t, i))
  {
    var n := t.types[i];
    if n.tag == Enum && n.data < |t.enums| {
      VariantsEnd(t, i);
    } else if n.tag == Struct && n.data < |t.structs| {
      RangeEnds(t, i, t.structs[n.data]);
    } else if n.tag == Tuple && n.data < |t.tuples| {
      RangeEnds(t, i, t.tuples[n.data]);
    } else if n.tag == Array && n.data < |t.arrays| {
      assert Holds(t, i, t.arrays[n.data].element);
    }
  }

  // ----- Definitions -----

  /** No register is defined in two places. */
  ghost predicate DefinesOnce(s: Storage) {
    forall a, b :: IsSite(s, a) && IsSite(s, b) && RegisterOf(s, a) == RegisterOf(s, b) ==> a == b
  }

  lemma ConcatDistinct(xs: seq<nat>, ys: seq<nat>)
    requires Distinct(xs) && Distinct(ys) && forall x <- xs, y <- ys :: x != y
    ensures Distinct(xs + ys)
  {
    forall i, j | 0 <= i < j < |xs + ys| ensures (xs + ys)[i] != (xs + ys)[j] {
      if i < |xs| && |xs| <= j {
        assert xs[i] in xs && ys[j - |xs|] in ys;
      }
    }
  }

  lemma {:induction false} ParamsOnce(s: Storage, block: nat, n: nat)
    requires block < |s.blocks| && Within(s.blocks[block].params, |s.params|) && n <= s.blocks[block].params.size
    requires DefinesOnce(s)
    ensures Distinct(ParamDefs(s, s.blocks[block].params, n))
  {
    if n > 0 {
      var r := s.blocks[block].params;
      ParamsOnce(s, block, n - 1);
      var p := r.head + n - 1;
      assert IsSite(s, ParamSite(block, p));
      if s.params[p].reg in ParamDefs(s, r, n - 1) {
        var site := ParamDefHasSite(s, block, n - 1, s.params[p].reg);
      }
      ConcatDistinct(ParamDefs(s, r, n - 1), [s.params[p].reg]);
    }
  }

  lemma {:induction false} InstrsOnce(s: Storage, block: nat, n: nat)
    requires block < |s.blocks| && Within(s.blocks[block].instrs, |s.instrs|) && n <= s.blocks[block].instrs.size
    requires DefinesOnce(s)
    ensures Distinct(InstrDefs(s, s.blocks[block].instrs, n))
  {
    if n > 0 {
      var r := s.blocks[block].instrs;
      InstrsOnce(s, block, n - 1);
      var i := r.head + n - 1;
      if s.instrs[i].dst.Some? {
        assert IsSite(s, InstrSite(block, i));
        if s.instrs[i].dst.value in InstrDefs(s, r, n - 1) {
          var site := InstrDefHasSite(s, block, n - 1, s.instrs[i].dst.value);
        }
        ConcatDistinct(InstrDefs(s, r, n - 1), [s.instrs[i].dst.value]);
      }
    }
  }

  /** What the blocks before and the parameters of a block define has a site there. */
  lemma EarlierSite(s: Storage, n: nat, reg: nat) returns (site: Site)
    requires 0 < n <= |s.blocks| && BlocksFit(s, n)
    requires reg in Defs(s, n - 1) + BlockParamDefs(s, s.blocks[n - 1])
    ensures IsSite(s, site) && RegisterOf(s, site) == reg && (site.block < n - 1 || site.ParamSite?)
  {
    if reg in Defs(s, n - 1) {
      site := DefHasSite(s, n - 1, reg);
    } else {
      site := ParamDefHasSite(s, n - 1, s.blocks[n - 1].params.size, reg);
    }
  }

  lemma {:induction false} BlocksOnce(s: Storage, n: nat)
    requires n <= |s.blocks| && BlocksFit(s, n) && DefinesOnce(s)
    ensures Distinct(Defs(s, n))
  {
    if n > 0 {
      var b := s.blocks[n - 1];
      assert BlockFits(s, b);
      var before, params, instrs := Defs(s, n - 1), BlockParamDefs(s, b), BlockInstrDefs(s, b);
      BlocksOnce(s, n - 1);
      ParamsOnce(s, n - 1, b.params.size);
      InstrsOnce(s, n - 1, b.instrs.size);
      forall x <- before, y <- params ensures x != y {
        var a := DefHasSite(s, n - 1, x);
        var c := ParamDefHasSite(s, n - 1, b.params.size, y);
      }
      ConcatDistinct(before, params);
      forall x <- before + params, y <- instrs ensures x != y {
        var a := EarlierSite(s, n, x);
        var c := InstrDefHasSite(s, n - 1, b.instrs.size, y);
      }
      ConcatDistinct(before + params, instrs);
    }
  }

  lemma OnceIs(s: Storage)
    requires BlocksFit(s, |s.blocks|)
    ensures Distinct(Defs(s, |s.blocks|)) <==> DefinesOnce(s)
  {
    if Distinct(Defs(s, |s.blocks|)) {
      forall a, b | IsSite(s, a) && IsSite(s, b) && RegisterOf(s, a) == RegisterOf(s, b) ensures a == b {
        if a != b {
          if a.block <= b.block {
            SitesDifferBelow(s, |s.blocks|, a, b);
          } else {
            SitesDifferBelow(s, |s.blocks|, b, a);
          }
        }
      }
    } else if DefinesOnce(s) {
      BlocksOnce(s, |s.blocks|);
    }
  }

  // ----- Code -----

  /** Each operand has a type. */
  ghost predicate IsTyped(s: Storage, i: Instruction) {
    forall o: nat | InSpan(i.operands, o) && o < |s.operands| :: s.operands[o].typeIdx < |s.table.types|
  }

  /** Ready, typed, and giving control away exactly when it is the last of its block. */
  ghost predicate IsExecutableAt(s: Storage, p: Point) {
    IsPoint(s, p) && IsReady(s, At(s, p)) && IsTyped(s, At(s, p)) &&
    (At(s, p).op in {Br, CondBr, Switch, Ret, Unreachable} <==> p.offset + 1 == s.blocks[p.block].instrs.size)
  }

  /** The block has code and all of it can be executed; its parameters have types and
      registers. */
  ghost predicate IsExecutableBlock(s: Storage, block: nat)
    requires block < |s.blocks|
  {
    var b := s.blocks[block];
    && b.instrs.size > 0 && b.params.head <= |s.params|
    && (forall k: nat | k < b.instrs.size :: IsExecutableAt(s, Point(block, k)))
    && forall p: nat | InSpan(b.params, p) ::
         p < |s.params| && s.params[p].typeIdx < |s.table.types| && s.params[p].reg < |s.registers|
  }

  /** The function has blocks, and its signature has types. */
  ghost predicate IsExecutableFunction(s: Storage, f: FunctionDef) {
    && f.blocks.size > 0 && f.meta.returnType < |s.table.types|
    && (forall b: nat | InSpan(f.blocks, b) :: b < |s.blocks|)
    && forall t: nat | InSpan(f.meta.paramTypes, t) :: t < |s.table.types|
  }

  ghost predicate Executable(s: Storage) {
    && (forall i: nat | i < |s.table.types| :: HasParts(s.table, s.table.types[i]) && HoldsTypes(s.table, i))
    && (forall t <- s.registers + s.immutables :: t < |s.table.types|)
    && (forall f <- s.functions :: IsExecutableFunction(s, f))
    && (forall b: nat | b < |s.blocks| :: IsExecutableBlock(s, b))
    && DefinesOnce(s)
  }

  lemma TypesAre(s: Storage)
    ensures TypesFit(s) <==> (forall i: nat | i < |s.table.types| :: HasParts(s.table, s.table.types[i]) && HoldsTypes(s.table, i))
  {
    forall i: nat | i < |s.table.types|
      ensures NodeFits(s.table, s.table.types[i]) <==> (HasParts(s.table, s.table.types[i]) && HoldsTypes(s.table, i))
    {
      NodeIs(s.table, i);
    }
  }

  lemma TypeIdxsAre(s: Storage)
    ensures (AreTypeIdxs(s, s.registers) && AreTypeIdxs(s, s.immutables)) <==>
      (forall t <- s.registers + s.immutables :: t < |s.table.types|)
  {
    if forall t <- s.registers + s.immutables :: t < |s.table.types| {
      forall i: nat | i < |s.registers| ensures IsTypeIdx(s, s.registers[i]) {
        assert s.registers[i] in s.registers + s.immutables;
      }
      forall i: nat | i < |s.immutables| ensures IsTypeIdx(s, s.immutables[i]) {
        assert s.immutables[i] in s.registers + s.immutables;
      }
    }
  }

  lemma FunctionIs(s: Storage, f: FunctionDef)
    ensures (FunctionFits(s, f) && f.blocks.size > 0) <==> IsExecutableFunction(s, f)
  {
    SpanEnds(f.blocks, |s.blocks|);
    if f.blocks.size > 0 {
      assert InSpan(f.blocks, f.blocks.head);
    }
  }

  lemma FunctionsAre(s: Storage)
    ensures (FunctionsFit(s) && forall f: nat | f < |s.functions| :: s.functions[f].blocks.size > 0) <==>
      (forall f <- s.functions :: IsExecutableFunction(s, f))
  {
    forall f <- s.functions ensures (FunctionFits(s, f) && f.blocks.size > 0) <==> IsExecutableFunction(s, f) {
      FunctionIs(s, f);
    }
    if forall f <- s.functions :: IsExecutableFunction(s, f) {
      forall f: nat | f < |s.functions| ensures FunctionFits(s, s.functions[f]) && s.functions[f].blocks.size > 0 {
        assert s.functions[f] in s.functions;
      }
    } else if FunctionsFit(s) {
      var f :| f in s.functions && !IsExecutableFunction(s, f);
      var k :| 0 <= k < |s.functions| && s.functions[k] == f;
      assert FunctionFits(s, s.functions[k]);
    }
  }

  /** Accepted code can be executed. */
  lemma BlockIsExecutable(s: Storage, block: nat)
    requires WellFormed(s) && block < |s.blocks|
    ensures IsExecutableBlock(s, block)
  {
    var b, defs := s.blocks[block], Defs(s, |s.blocks|);
    assert BlockFits(s, b) && CodeFits(s, b, defs);
    forall k: nat | k < b.instrs.size ensures IsExecutableAt(s, Point(block, k)) {
      PointIsReady(s, Point(block, k));
      var i := At(s, Point(block, k));
      assert InSpan(b.instrs, b.instrs.head + k);
      assert InstrFits(s, i, defs);
      forall o: nat | InSpan(i.operands, o) && o < |s.operands| ensures s.operands[o].typeIdx < |s.table.types| {
        assert OperandFits(s, s.operands[o], defs);
      }
    }
  }

  lemma ExecutableBlockFits(s: Storage, block: nat)
    requires block < |s.blocks| && IsExecutableBlock(s, block)
    ensures BlockFits(s, s.blocks[block])
  {
    var b := s.blocks[block];
    SpanEnds(b.params, |s.params|);
    forall i: nat | InSpan(b.instrs, i)
      ensures i < |s.instrs| && (s.instrs[i].dst.Some? ==> s.instrs[i].dst.value < |s.registers|)
    {
      assert IsExecutableAt(s, Point(block, i - b.instrs.head));
    }
    assert IsExecutableAt(s, Point(block, 0));
    SpanEnds(b.instrs, |s.instrs|);
  }

  lemma ExecutableInstrFits(s: Storage, i: Instruction)
    requires BlocksFit(s, |s.blocks|) && IsReady(s, i) && IsTyped(s, i)
    ensures InstrFits(s, i, Defs(s, |s.blocks|))
  {
    ShapeIsTaken(s, i);
    forall o: nat | InSpan(i.operands, o) ensures OperandFits(s, s.operands[o], Defs(s, |s.blocks|)) {
      var d := s.operands[o].data;
      assert Resolves(s, d);
      if d.RegisterIdx? {
        var site :| IsSite(s, site) && RegisterOf(s, site) == d.idx;
        SiteIsInDefs(s, |s.blocks|, site);
      }
    }
  }

  lemma ExecutableCodeFits(s: Storage, block: nat)
    requires BlocksFit(s, |s.blocks|) && block < |s.blocks| && IsExecutableBlock(s, block)
    ensures BlockFits(s, s.blocks[block]) && CodeFits(s, s.blocks[block], Defs(s, |s.blocks|))
  {
    var b := s.blocks[block];
    ExecutableBlockFits(s, block);
    forall i: nat | InSpan(b.instrs, i)
      ensures InstrFits(s, s.instrs[i], Defs(s, |s.blocks|))
      ensures IsTerminator(s.instrs[i].op) == (i + 1 == b.instrs.head + b.instrs.size)
    {
      assert IsExecutableAt(s, Point(block, i - b.instrs.head));
      ExecutableInstrFits(s, s.instrs[i]);
    }
  }

  /** The verifier accepts exactly what can be executed: types hold types, every register has
      one definition, every function starts somewhere, and every point of every block is
      ready, with control given away at its end and nowhere else. */
  lemma WellFormedIsExecutable(s: Storage)
    ensures WellFormed(s) <==> Executable(s)
  {
    TypesAre(s);
    TypeIdxsAre(s);
    FunctionsAre(s);
    if WellFormed(s) {
      OnceIs(s);
      forall b: nat | b < |s.blocks| ensures IsExecutableBlock(s, b) {
        BlockIsExecutable(s, b);
      }
    } else if Executable(s) {
      forall b: nat | b < |s.blocks| ensures BlockFits(s, s.blocks[b]) {
        ExecutableBlockFits(s, b);
      }
      OnceIs(s);
      forall b: nat | b < |s.blocks| ensures CodeFits(s, s.blocks[b], Defs(s, |s.blocks|)) {
        ExecutableCodeFits(s, b);
      }
    }
  }
}
