/** What accepted code does: a machine that steps through blocks, with a stack of callers,
    whatever way its branches go. */
module Machine {
  import opened Options
  import opened TypeTable
  import opened Ir
  import opened Demands

  /** The next instruction, by its block and its place in it. */
  datatype Point = Point(block: nat, offset: nat)

  datatype Stack = Empty | Push(point: Point, rest: Stack)

  datatype State = Running(at: Point, callers: Stack) | Finished

  /** A point inside a block. */
  predicate IsPoint(s: Storage, p: Point) {
    && p.block < |s.blocks| && p.offset < s.blocks[p.block].instrs.size
    && s.blocks[p.block].instrs.head + p.offset < |s.instrs|
  }

  function At(s: Storage, p: Point): Instruction
    requires IsPoint(s, p)
  {
    s.instrs[s.blocks[p.block].instrs.head + p.offset]
  }

  function Next(p: Point): Point {
    Point(p.block, p.offset + 1)
  }

  function Start(block: nat): Point {
    Point(block, 0)
  }

  /** All that executing the instruction looks up is there: its operands, what they stand
      for, a definition of each register, and what its opcode asks of them. */
  ghost predicate IsReady(s: Storage, i: Instruction) {
    && Within(i.operands, |s.operands|)
    && (forall o: nat | InSpan(i.operands, o) :: Resolves(s, s.operands[o].data))
    && (i.dst.Some? ==> i.dst.value < |s.registers|)
    && Takes(s, i.op, Operands(s, i.operands))
  }

  ghost predicate Resolves(s: Storage, d: Payload) {
    match d
    case RegisterIdx(r) => r < |s.registers| && exists site :: IsSite(s, site) && RegisterOf(s, site) == r
    case FunctionIdx(f) => f < |s.functions|
    case BlockIdx(b) => b < |s.blocks|
    case ImmutableIdx(i) => i < |s.immutables|
    case ExternalIdx(x) => x < |s.externals|
    case Nothing => false
  }

  /** A register is defined by a parameter of a block or an instruction in one. */
  datatype Site = ParamSite(block: nat, param: nat) | InstrSite(block: nat, instr: nat)

  predicate IsSite(s: Storage, site: Site) {
    && site.block < |s.blocks|
    && var b := s.blocks[site.block];
       match site
       case ParamSite(_, p) => InSpan(b.params, p) && p < |s.params|
       case InstrSite(_, i) => InSpan(b.instrs, i) && i < |s.instrs| && s.instrs[i].dst.Some?
  }

  function RegisterOf(s: Storage, site: Site): nat
    requires IsSite(s, site)
  {
    match site
    case ParamSite(_, p) => s.params[p].reg
    case InstrSite(_, i) => s.instrs[i].dst.value
  }

  // ----- Steps -----

  /** Does the `k`-th operand name the block? */
  predicate Targets(s: Storage, i: Instruction, k: nat, block: nat) {
    k < i.operands.size && i.operands.head + k < |s.operands| && s.operands[i.operands.head + k].data == BlockIdx(block)
  }

  /** The blocks a branch may go to. */
  ghost predicate GoesTo(s: Storage, i: Instruction, block: nat) {
    if i.op == Br then Targets(s, i, 0, block)
    else if i.op == CondBr then Targets(s, i, 1, block) || Targets(s, i, 2, block)
    else i.op == Switch && exists k: nat :: k % 2 == 1 && Targets(s, i, k, block)
  }

  /** The function that a call enters; an external one is left to its own devices. */
  function Callee(s: Storage, i: Instruction): Option<nat> {
    if i.op == Call && i.operands.size > 0 && i.operands.head < |s.operands|
       && s.operands[i.operands.head].data.FunctionIdx? && s.operands[i.operands.head].data.idx < |s.functions|
    then Some(s.operands[i.operands.head].data.idx) else None
  }

  /** Does the machine get from one state to the other?  It only moves on an instruction that
      is ready. */
  ghost predicate Steps(s: Storage, m: State, to: State) {
    && m.Running? && IsPoint(s, m.at) && IsReady(s, At(s, m.at))
    && var i := At(s, m.at);
       if i.op == Ret then to == if m.callers.Empty? then Finished else Running(m.callers.point, m.callers.rest)
       else if i.op == Br || i.op == CondBr || i.op == Switch then
         to.Running? && to.callers == m.callers && to.at.offset == 0 && GoesTo(s, i, to.at.block)
       else if i.op == Unreachable then false
       else if Callee(s, i).Some? then
         to == Running(Start(s.functions[Callee(s, i).value].blocks.head), Push(Next(m.at), m.callers))
       else to == Running(Next(m.at), m.callers)
  }

  /** The point and all points to return to lie in blocks. */
  ghost predicate IsStack(s: Storage, callers: Stack) {
    callers.Push? ==> IsPoint(s, callers.point) && IsStack(s, callers.rest)
  }

  ghost predicate IsSafe(s: Storage, m: State) {
    m.Running? ==> IsPoint(s, m.at) && IsReady(s, At(s, m.at)) && IsStack(s, m.callers)
  }

  // ----- Definition sites -----

  lemma DistinctParts(xs: seq<nat>, ys: seq<nat>)
    requires Distinct(xs + ys)
    ensures Distinct(xs) && Distinct(ys)
    ensures forall x <- xs, y <- ys :: x != y
  {
    forall i, j | 0 <= i < j < |xs| ensures xs[i] != xs[j] {
      assert (xs + ys)[i] != (xs + ys)[j];
    }
    forall i, j | 0 <= i < j < |ys| ensures ys[i] != ys[j] {
      assert (xs + ys)[|xs| + i] != (xs + ys)[|xs| + j];
    }
    forall x <- xs, y <- ys ensures x != y {
      var i :| 0 <= i < |xs| && xs[i] == x;
      var j :| 0 <= j < |ys| && ys[j] == y;
      assert (xs + ys)[i] != (xs + ys)[|xs| + j];
    }
  }

  lemma {:induction false} ParamDefined(s: Storage, r: Range, n: nat, p: nat)
    requires Within(r, |s.params|) && n <= r.size && r.head <= p < r.head + n
    ensures s.params[p].reg in ParamDefs(s, r, n)
  {
    if p < r.head + n - 1 {
      ParamDefined(s, r, n - 1, p);
    }
  }

  lemma {:induction false} InstrDefined(s: Storage, r: Range, n: nat, i: nat)
    requires Within(r, |s.instrs|) && n <= r.size && r.head <= i < r.head + n && s.instrs[i].dst.Some?
    ensures s.instrs[i].dst.value in InstrDefs(s, r, n)
  {
    if i < r.head + n - 1 {
      InstrDefined(s, r, n - 1, i);
    }
  }

  lemma {:induction false} ParamsDiffer(s: Storage, r: Range, n: nat, p: nat, q: nat)
    requires Within(r, |s.params|) && n <= r.size && r.head <= p < q < r.head + n && Distinct(ParamDefs(s, r, n))
    ensures s.params[p].reg != s.params[q].reg
  {
    DistinctParts(ParamDefs(s, r, n - 1), [s.params[r.head + n - 1].reg]);
    if q < r.head + n - 1 {
      ParamsDiffer(s, r, n - 1, p, q);
    } else {
      ParamDefined(s, r, n - 1, p);
      assert s.params[q].reg in [s.params[q].reg];
    }
  }

  lemma {:induction false} InstrsDiffer(s: Storage, r: Range, n: nat, i: nat, j: nat)
    requires Within(r, |s.instrs|) && n <= r.size && r.head <= i < j < r.head + n && Distinct(InstrDefs(s, r, n))
    requires s.instrs[i].dst.Some? && s.instrs[j].dst.Some?
    ensures s.instrs[i].dst.value != s.instrs[j].dst.value
  {
    var last := s.instrs[r.head + n - 1].dst;
    DistinctParts(InstrDefs(s, r, n - 1), if last.Some? then [last.value] else []);
    if j < r.head + n - 1 {
      InstrsDiffer(s, r, n - 1, i, j);
    } else {
      InstrDefined(s, r, n - 1, i);
      assert last.value in [last.value];
    }
  }

  function BlockParamDefs(s: Storage, b: Block): seq<nat>
    requires Within(b.params, |s.params|)
  {
    ParamDefs(s, b.params, b.params.size)
  }

  function BlockInstrDefs(s: Storage, b: Block): seq<nat>
    requires Within(b.instrs, |s.instrs|)
  {
    InstrDefs(s, b.instrs, b.instrs.size)
  }

  /** What a site of a block defines is among the block's definitions. */
  lemma SiteDefines(s: Storage, site: Site)
    requires IsSite(s, site) && BlockFits(s, s.blocks[site.block])
    ensures var b := s.blocks[site.block];
      RegisterOf(s, site) in if site.ParamSite? then BlockParamDefs(s, b) else BlockInstrDefs(s, b)
  {
    var b := s.blocks[site.block];
    match site
    case ParamSite(_, p) => ParamDefined(s, b.params, b.params.size, p);
    case InstrSite(_, i) => InstrDefined(s, b.instrs, b.instrs.size, i);
  }

  /** What the first `n` blocks define is what those before the last do, and what it does. */
  lemma DefsAre(s: Storage, n: nat, reg: nat)
    requires 0 < n <= |s.blocks| && BlocksFit(s, n)
    ensures BlockFits(s, s.blocks[n - 1])
    ensures var b := s.blocks[n - 1];
      reg in Defs(s, n) <==> (reg in Defs(s, n - 1) || reg in BlockParamDefs(s, b) || reg in BlockInstrDefs(s, b))
  {
  }

  lemma {:induction false} SiteIsInDefs(s: Storage, n: nat, site: Site)
    requires n <= |s.blocks| && BlocksFit(s, n) && IsSite(s, site) && site.block < n
    ensures RegisterOf(s, site) in Defs(s, n)
  {
    DefsAre(s, n, RegisterOf(s, site));
    if site.block == n - 1 {
      SiteDefines(s, site);
    } else {
      SiteIsInDefs(s, n - 1, site);
    }
  }

  lemma DefsParts(s: Storage, n: nat)
    requires 0 < n <= |s.blocks| && BlocksFit(s, n) && Distinct(Defs(s, n))
    ensures var b := s.blocks[n - 1];
      var before, params, instrs := Defs(s, n - 1), BlockParamDefs(s, b), BlockInstrDefs(s, b);
      && Distinct(before) && Distinct(params) && Distinct(instrs)
      && (forall x <- before, y <- params :: x != y) && (forall x <- before, y <- instrs :: x != y)
      && forall x <- params, y <- instrs :: x != y
  {
    var b := s.blocks[n - 1];
    var before, params, instrs := Defs(s, n - 1), BlockParamDefs(s, b), BlockInstrDefs(s, b);
    DistinctParts(before + params, instrs);
    DistinctParts(before, params);
    forall x <- params, y <- instrs ensures x != y {
      assert x in before + params;
    }
    forall x <- before, y <- instrs ensures x != y {
      assert x in before + params;
    }
  }

  lemma SameBlockSitesDiffer(s: Storage, a: Site, b: Site)
    requires IsSite(s, a) && IsSite(s, b) && a != b && a.block == b.block && BlockFits(s, s.blocks[a.block])
    requires var block := s.blocks[a.block];
      && Distinct(BlockParamDefs(s, block)) && Distinct(BlockInstrDefs(s, block))
      && forall x <- BlockParamDefs(s, block), y <- BlockInstrDefs(s, block) :: x != y
    ensures RegisterOf(s, a) != RegisterOf(s, b)
  {
    var block := s.blocks[a.block];
    if a.ParamSite? && b.ParamSite? {
      var p, q := if a.param < b.param then a.param else b.param, if a.param < b.param then b.param else a.param;
      ParamsDiffer(s, block.params, block.params.size, p, q);
    } else if a.InstrSite? && b.InstrSite? {
      var i, j := if a.instr < b.instr then a.instr else b.instr, if a.instr < b.instr then b.instr else a.instr;
      InstrsDiffer(s, block.instrs, block.instrs.size, i, j);
    } else {
      SiteDefines(s, a);
      SiteDefines(s, b);
    }
  }

  lemma {:induction false} SitesDifferBelow(s: Storage, n: nat, a: Site, b: Site)
    requires n <= |s.blocks| && BlocksFit(s, n) && Distinct(Defs(s, n))
    requires IsSite(s, a) && IsSite(s, b) && a != b && a.block <= b.block < n
    ensures RegisterOf(s, a) != RegisterOf(s, b)
  {
    DefsParts(s, n);
    if b.block < n - 1 {
      SitesDifferBelow(s, n - 1, a, b);
    } else if a.block < n - 1 {
      SiteIsInDefs(s, n - 1, a);
      SiteDefines(s, b);
    } else {
      SameBlockSitesDiffer(s, a, b);
    }
  }

  /** In accepted code no register is defined in two places. */
  lemma SitesDiffer(s: Storage, a: Site, b: Site)
    requires WellFormed(s) && IsSite(s, a) && IsSite(s, b) && a != b
    ensures RegisterOf(s, a) != RegisterOf(s, b)
  {
    if a.block <= b.block {
      SitesDifferBelow(s, |s.blocks|, a, b);
    } else {
      SitesDifferBelow(s, |s.blocks|, b, a);
    }
  }

  lemma {:induction false} ParamDefHasSite(s: Storage, block: nat, n: nat, reg: nat) returns (site: Site)
    requires block < |s.blocks| && Within(s.blocks[block].params, |s.params|) && n <= s.blocks[block].params.size
    requires reg in ParamDefs(s, s.blocks[block].params, n)
    ensures IsSite(s, site) && RegisterOf(s, site) == reg
    ensures site.ParamSite? && site.block == block && site.param < s.blocks[block].params.head + n
  {
    var p := s.blocks[block].params.head + n - 1;
    if s.params[p].reg == reg {
      site := ParamSite(block, p);
    } else {
      site := ParamDefHasSite(s, block, n - 1, reg);
    }
  }

  lemma {:induction false} InstrDefHasSite(s: Storage, block: nat, n: nat, reg: nat) returns (site: Site)
    requires block < |s.blocks| && Within(s.blocks[block].instrs, |s.instrs|) && n <= s.blocks[block].instrs.size
    requires reg in InstrDefs(s, s.blocks[block].instrs, n)
    ensures IsSite(s, site) && RegisterOf(s, site) == reg
    ensures site.InstrSite? && site.block == block && site.instr < s.blocks[block].instrs.head + n
  {
    var i := s.blocks[block].instrs.head + n - 1;
    if s.instrs[i].dst == Some(reg) {
      site := InstrSite(block, i);
    } else {
      site := InstrDefHasSite(s, block, n - 1, reg);
    }
  }

  /** What counts as defined has a definition. */
  lemma {:induction false} DefHasSite(s: Storage, n: nat, reg: nat) returns (site: Site)
    requires n <= |s.blocks| && BlocksFit(s, n) && reg in Defs(s, n)
    ensures IsSite(s, site) && RegisterOf(s, site) == reg && site.block < n
  {
    var b := s.blocks[n - 1];
    if reg in Defs(s, n - 1) {
      site := DefHasSite(s, n - 1, reg);
    } else if reg in ParamDefs(s, b.params, b.params.size) {
      site := ParamDefHasSite(s, n - 1, b.params.size, reg);
    } else {
      site := InstrDefHasSite(s, n - 1, b.instrs.size, reg);
    }
  }

  // ----- Safety -----

  /** Every instruction of a block of accepted code is ready. */
  lemma PointIsReady(s: Storage, p: Point)
    requires WellFormed(s) && p.block < |s.blocks| && p.offset < s.blocks[p.block].instrs.size
    ensures IsPoint(s, p) && IsReady(s, At(s, p)) && ShapeFits(s, At(s, p))
    ensures IsTerminator(At(s, p).op) <==> p.offset + 1 == s.blocks[p.block].instrs.size
  {
    var b, defs := s.blocks[p.block], Defs(s, |s.blocks|);
    assert BlockFits(s, b) && CodeFits(s, b, defs);
    var k := b.instrs.head + p.offset;
    assert InSpan(b.instrs, k);
    var i := s.instrs[k];
    assert InstrFits(s, i, defs);
    ShapeIsTaken(s, i);
    forall o: nat | InSpan(i.operands, o) ensures Resolves(s, s.operands[o].data) {
      assert OperandFits(s, s.operands[o], defs);
      if s.operands[o].data.RegisterIdx? {
        var site := DefHasSite(s, |s.blocks|, s.operands[o].data.idx);
      }
    }
  }

  /** A block that an operand of a ready instruction names can be entered. */
  lemma BlockCanBeEntered(s: Storage, block: nat)
    requires WellFormed(s) && block < |s.blocks|
    ensures IsPoint(s, Start(block)) && IsReady(s, At(s, Start(block)))
  {
    assert CodeFits(s, s.blocks[block], Defs(s, |s.blocks|));
    PointIsReady(s, Start(block));
  }

  /** Every function can be started. */
  lemma StartIsSafe(s: Storage, f: nat)
    requires WellFormed(s) && f < |s.functions|
    ensures IsSafe(s, Running(Start(s.functions[f].blocks.head), Empty))
  {
    assert FunctionFits(s, s.functions[f]);
    BlockCanBeEntered(s, s.functions[f].blocks.head);
  }

  lemma TargetIsBlock(s: Storage, i: Instruction, k: nat, block: nat)
    requires IsReady(s, i) && Targets(s, i, k, block)
    ensures block < |s.blocks|
  {
    assert InSpan(i.operands, i.operands.head + k);
    assert Resolves(s, s.operands[i.operands.head + k].data);
  }

  /** Whatever way it goes, a step from a safe state leads to a safe state. */
  lemma StepIsSafe(s: Storage, m: State, to: State)
    requires WellFormed(s) && IsSafe(s, m) && Steps(s, m, to)
    ensures IsSafe(s, to)
  {
    var i := At(s, m.at);
    PointIsReady(s, m.at);
    if i.op == Ret {
      if m.callers.Push? {
        PointIsReady(s, m.callers.point);
      }
    } else if IsTerminator(i.op) {
      var k: nat :| Targets(s, i, k, to.at.block);
      TargetIsBlock(s, i, k, to.at.block);
      BlockCanBeEntered(s, to.at.block);
    } else {
      PointIsReady(s, Next(m.at));
      if Callee(s, i).Some? {
        StartIsSafe(s, Callee(s, i).value);
      }
    }
  }

  /** A safe state only stops at an `Unreachable`; a `Ret` without callers is the end. */
  lemma SafeIsNotStuck(s: Storage, m: State) returns (to: State)
    requires WellFormed(s) && m.Running? && IsSafe(s, m) && At(s, m.at).op != Unreachable
    ensures Steps(s, m, to)
  {
    var i := At(s, m.at);
    PointIsReady(s, m.at);
    var head := i.operands.head;
    if i.op == Ret {
      to := if m.callers.Empty? then Finished else Running(m.callers.point, m.callers.rest);
    } else if i.op == Br {
      to := Running(Start(s.operands[head].data.idx), m.callers);
      assert Targets(s, i, 0, to.at.block);
    } else if i.op == CondBr || i.op == Switch {
      to := Running(Start(s.operands[head + 1].data.idx), m.callers);
      assert Targets(s, i, 1, to.at.block);
    } else if Callee(s, i).Some? {
      to := Running(Start(s.functions[Callee(s, i).value].blocks.head), Push(Next(m.at), m.callers));
    } else {
      to := Running(Next(m.at), m.callers);
    }
  }

  // ----- Runs -----

  /** A run, last state first. */
  datatype Run = Begin(start: nat) | Then(before: Run, state: State)

  function Last(s: Storage, run: Run): State
    requires RunStart(run) < |s.functions|
  {
    match run
    case Begin(f) => Running(Start(s.functions[f].blocks.head), Empty)
    case Then(_, m) => m
  }

  function RunStart(run: Run): nat {
    match run
    case Begin(f) => f
    case Then(before, _) => RunStart(before)
  }

  /** Each state follows from the one before it by a step. */
  ghost predicate IsRun(s: Storage, run: Run) {
    && RunStart(run) < |s.functions|
    && (run.Then? ==> IsRun(s, run.before) && Steps(s, Last(s, run.before), run.state))
  }

  /** Every run of accepted code, of any function and any length and whatever its branches
      do, stands in a block with all that its instruction needs, and goes on, unless it has
      returned to nobody or is at an `Unreachable`. */
  lemma {:induction false} RunsAreSafe(s: Storage, run: Run)
    requires WellFormed(s) && IsRun(s, run)
    ensures IsSafe(s, Last(s, run))
    ensures var m := Last(s, run);
      m.Finished? || At(s, m.at).op == Unreachable || exists to :: IsRun(s, Then(run, to))
  {
    match run {
      case Begin(f) => StartIsSafe(s, f);
      case Then(before, to) =>
        RunsAreSafe(s, before);
        StepIsSafe(s, Last(s, before), to);
    }
    var m := Last(s, run);
    if m.Running? && At(s, m.at).op != Unreachable {
      var to := SafeIsNotStuck(s, m);
      assert IsRun(s, Then(run, to));
    }
  }
}
