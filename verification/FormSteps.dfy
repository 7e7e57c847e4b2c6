/** What each rule of the grammar for control forms and statements does, given what the rules
    it calls do. */
module FormSteps {
  import opened Options
  import opened Tokens
  import opened Grammar
  import opened TypeSyntax
  import opened ExprSyntax
  import A = Ast

  /** The rule for a rung. */
  function ParseAt(level: int, c: Cursor): Parsed<A.Expr>
    requires 0 <= level <= POSTFIX
  {
    if level <= POW then ParseBinary(level, c)
    else if level == CAST then ParseCast(c)
    else if level == UNARY then ParseUnary(c)
    else ParsePostfix(c)
  }

  lemma Step(x: Word, k: Stream, c: Cursor)
    requires c.ts == More(x, k) && x.reserved == 0 && x.kind != Eof
    ensures c.Check(x.kind) && Advance(c) == c.(ts := k)
  {
  }

  // ----- From a primary to a whole expression -----

  /** Nothing extends an expression in front of these words, even if no struct literal may
      start. */
  lemma NothingFollows(e: A.Expr, k: Stream, c: Cursor)
    requires c.ts == k && Follows(-1, k, false)
    ensures ParsePostfixRest(e, c) == Ok(e, c)
    ensures !c.Check(As) && !c.Check(StarStar) && !IsRangeOp(c.Peek())
    ensures forall level: nat | level < POW :: OpAt(level, c.Peek()).None?
  {
  }

  lemma {:induction false} BinaryIsExpr(level: nat, e: A.Expr, c: Cursor, c1: Cursor)
    requires level <= POW && ParsePow(c) == Ok(e, c1) && forall l: nat | l < POW :: OpAt(l, c1.Peek()).None?
    ensures ParseBinary(level, c) == Ok(e, c1)
    decreases POW - level
  {
    if level < POW {
      BinaryIsExpr(level + 1, e, c, c1);
      assert OpAt(level, c1.Peek()).None?;
    }
  }

  /** A primary expression that nothing extends is one on every rung. */
  lemma PrimaryIsAt(level: nat, e: A.Expr, c: Cursor, c1: Cursor)
    requires level <= POSTFIX && ParsePrimary(c) == Ok(e, c1) && Follows(-1, c1.ts, false)
    requires c.Peek() != Amp && UnaryOpOf(c.Peek()).None?
    ensures ParseAt(level, c) == Ok(e, c1)
  {
    NothingFollows(e, c1.ts, c1);
    assert ParsePostfix(c) == Ok(e, c1);
    assert ParseUnary(c) == Ok(e, c1);
    assert ParseCast(c) == Ok(e, c1);
    assert ParsePow(c) == Ok(e, c1);
    if level <= POW {
      BinaryIsExpr(level, e, c, c1);
    }
  }

  /** And a whole one. */
  lemma PrimaryIsExpr(e: A.Expr, c: Cursor, c1: Cursor)
    requires ParsePrimary(c) == Ok(e, c1) && Follows(-1, c1.ts, false)
    requires !IsRangeOp(c.Peek()) && c.Peek() != Amp && UnaryOpOf(c.Peek()).None?
    ensures ParseExpr(c) == Ok(e, c1)
  {
    NothingFollows(e, c1.ts, c1);
    PrimaryIsAt(OR, e, c, c1);
  }

  lemma BorrowStep(isMut: bool, c: Cursor, c1: Cursor)
    requires c.Peek() == Amp && Advance(c).Check(Mut) == isMut
    requires c1 == (if isMut then Advance(Advance(c)) else Advance(c)) && ParseUnary(c1).Ok?
    ensures ParseUnary(c) == Ok(A.BorrowExpr(isMut, ParseUnary(c1).value), ParseUnary(c1).c)
  {
  }

  // ----- Control forms -----

  lemma PatternCondStep(cond: A.Cond, c: Cursor, c1: Cursor)
    requires cond.PatternCond? && ScanLead(c.ts, 0) == DeclLead
    requires ParsePattern(c) == Ok(cond.pattern, c1) && c1.Check(ColonEq)
    requires ParseExpr(Advance(c1)).Ok? && ParseExpr(Advance(c1)).value == cond.init
    ensures ParseCond(c) == Ok(cond, ParseExpr(Advance(c1)).c)
  {
  }

  lemma IfStep(cond: A.Cond, thenBlock: A.Block, c: Cursor, c1: Cursor, c2: Cursor)
    requires c.Check(If) && ParseCond(Advance(c)) == Ok(cond, c1) && ParseBlock(c1) == Ok(thenBlock, c2)
    requires c2.Check(Else) ==> ParseBlock(Advance(c2)).Ok?
    ensures ParsePrimary(c) ==
      if !c2.Check(Else) then Ok(A.IfExpr(cond, thenBlock, None), c2)
      else var r := ParseBlock(Advance(c2)); Ok(A.IfExpr(cond, thenBlock, Some(r.value)), r.c)
  {
    assert ParseIf(c).Ok?;
  }

  lemma ReturnStep(result: Option<A.Expr>, c: Cursor, c1: Cursor)
    requires c.Check(Ret)
    requires var c' := Advance(c); var ends := c'.Check(Semicolon) || c'.Check(RBrace) || c'.AtEnd();
      if result.None? then ends && c1 == c' else !ends && ParseExpr(c') == Ok(result.value, c1)
    ensures ParsePrimary(c) == Ok(A.ReturnExpr(result), c1)
  {
    assert ParseReturn(c) == Ok(A.ReturnExpr(result), c1);
  }

  lemma RangeStart(start: Option<A.Expr>, c: Cursor, c1: Cursor)
    requires IsRangeOp(c1.Peek())
    requires if start.None? then c1 == c else ParseBinary(OR, c) == Ok(start.value, c1) && !IsRangeOp(c.Peek())
    ensures ParseExpr(c) == ParseRangeEnd(c1, start)
  {
  }

  lemma RangeEnd(start: Option<A.Expr>, end: Option<A.Expr>, inclusive: bool, c: Cursor, c1: Cursor, c2: Cursor)
    requires c.Check(RangeWord(end, inclusive).kind) && c1 == Advance(c)
    requires if end.None? then c2 == c1 && (inclusive ==> EndsRange(c1)) else !EndsRange(c1) && ParseBinary(OR, c1) == Ok(end.value, c2)
    ensures ParseRangeEnd(c, start) == Ok(A.RangeExpr(start, end, inclusive), c2)
  {
  }

  lemma MatchStep(scrutinee: A.Expr, arms: seq<A.MatchArm>, c: Cursor, c1: Cursor, c3: Cursor)
    requires c.Check(Match) && ParseHeadExpr(Advance(c)) == Ok(scrutinee, c1) && c1.Check(LBrace)
    requires ParseArms(Advance(c1), []) == (arms, c3) && c3.Check(RBrace)
    ensures ParsePrimary(c) == Ok(A.MatchExpr(scrutinee, arms), Advance(c3))
  {
    assert ParseMatch(c) == Ok(A.MatchExpr(scrutinee, arms), Advance(c3));
  }

  lemma ArmsStep(before: seq<A.MatchArm>, arm: A.MatchArm, c: Cursor, c1: Cursor)
    requires !LoopEnds(c) && !c.Check(Comma) && !c.Check(Semicolon) && ParseArm(c) == Ok(arm, c1)
    requires c1.Check(Comma) || c1.Check(Semicolon)
    ensures ParseArms(c, before) == ParseArms(Advance(c1), before + [arm])
  {
    assert ParseArms(c, before) == ParseArms(c1, before + [arm]);
  }

  lemma StructStep(e: A.Expr, c: Cursor, c1: Cursor, c2: Cursor)
    requires e.StructExpr? && IsPathSegment(c.Peek()) && c.lit
    requires ParsePath(c, []) == Ok(e.path, c1) && c1.Check(LBrace) && c1.lit
    requires ParseInits(Advance(c1), []) == Ok((e.init, e.baseExpr), c2) && c2.Check(RBrace)
    ensures ParsePrimary(c) == Ok(e, Advance(c2))
  {
    assert ParseLateBase(e.baseExpr, c2) == Ok(e.baseExpr, c2);
    assert ParseStructLiteral(e.path, Advance(c1)) == Ok(e, Advance(c2));
    assert ParsePathExpr(c) == Ok(e, Advance(c2));
  }

  lemma InitsStep(before: seq<A.FieldInit>, f: A.FieldInit, c: Cursor, c1: Cursor)
    requires !c.Check(RBrace) && !c.AtEnd() && !c.Check(DotDot) && ParseInit(c) == Ok(f, c1)
    requires c1.Check(Comma) || c1.Check(RBrace)
    ensures ParseInits(c, before) ==
      if c1.Check(Comma) then ParseInits(Advance(c1), before + [f]) else ParseInits(c1, before + [f])
  {
  }

  lemma ArmStep(arm: A.MatchArm, c: Cursor, c1: Cursor, c2: Cursor)
    requires ParsePattern(c) == Ok(arm.pattern, c1) && c1.Check(FatArrow) && ParseExpr(Advance(c1)) == Ok(arm.body, c2)
    ensures ParseArm(c) == Ok(arm, c2)
  {
  }

  lemma PathStep(path: A.Path, c: Cursor, c1: Cursor)
    requires IsPathSegment(c.Peek()) && ParsePath(c, []) == Ok(path, c1)
    requires !c1.Check(LParen) && !(c1.lit && c1.Check(LBrace))
    ensures ParsePostfix(c) == ParsePostfixRest(A.PathExpr(path), c1)
  {
    assert ParsePathExpr(c) == Ok(A.PathExpr(path), c1);
    assert ParsePrimary(c) == Ok(A.PathExpr(path), c1);
  }

  // ----- Statements -----

  lemma ReassignStep(s: A.Stmt, c: Cursor, c1: Cursor, c2: Cursor)
    requires s.ReassignStmt? && (s.compound.Some? ==> IsCompound(s.compound.value))
    requires ScanLead(c.ts, 0) == ReassignLead && ParseExpr(c) == Ok(s.place, c1)
    requires c1.Check(AssignWord(s.compound).kind) && ParseExpr(Advance(c1)) == Ok(s.value, c2)
    ensures ParseStmt(c) == Ok(s, c2)
  {
    AssignWordIs(s.compound);
  }

  lemma AssignWordIs(compound: Option<A.BinaryOp>)
    requires compound.Some? ==> IsCompound(compound.value)
    ensures var w := AssignWord(compound);
      && w.reserved == 0 && w.kind != Eof
      && (if compound.None? then w.kind == Eq else w.kind != Eq && IsCompoundAssign(w.kind) && CompoundOp(w.kind) == compound.value)
      && forall lit :: Extends(w.kind, lit) < -1
  {
  }

  lemma DeclStep(s: A.Stmt, c: Cursor, c1: Cursor, c2: Cursor)
    requires s.DeclStmt? && ScanLead(c.ts, 0) == DeclLead && ParsePattern(c) == Ok(s.pattern, c1)
    requires ParseAscription(c1) == Ok(s.ascription, c2) && c2.Check(ColonEq)
    requires ParseExpr(Advance(c2)).Ok? && ParseExpr(Advance(c2)).value == s.init
    ensures ParseStmt(c) == Ok(s, ParseExpr(Advance(c2)).c)
  {
  }

  lemma StmtStep(before: seq<A.Stmt>, s: A.Stmt, c: Cursor, c1: Cursor)
    requires !LoopEnds(c) && !c.Check(Semicolon) && ParseStmt(c) == Ok(s, c1) && c1.Check(Semicolon)
    ensures ParseStmts(c, before) == ParseStmts(Advance(c1), before + [s])
  {
  }

  lemma ValueStep(before: seq<A.Stmt>, value: A.Expr, c: Cursor, c1: Cursor)
    requires !LoopEnds(c) && !c.Check(Semicolon) && ParseStmt(c) == Ok(A.ExprStmt(value), c1) && LoopEnds(c1)
    ensures ParseStmts(c, before) == (before, Some(value), c1)
  {
  }

  lemma BlockStep(b: A.Block, c: Cursor, c1: Cursor)
    requires c.Check(LBrace) && ParseStmts(Advance(c), []) == (b.statements, b.value, c1) && c1.Check(RBrace)
    ensures ParseBlock(c) == Ok(b, Advance(c1))
  {
  }

  /** What ends in a bare `ret` does not look like a declaration. */
  lemma {:induction false} BareIsNoDeclaration(e: A.Expr)
    requires Lead(e) == Some(DeclLead)
    ensures !EndsBare(e) && Level(e) < OR
    decreases e, 0
  {
    match e
    case UnaryExpr(_, inner) => OperandIsNoDeclaration(UNARY, inner);
    case BorrowExpr(_, inner) => OperandIsNoDeclaration(UNARY, inner);
    case BinaryExpr(op, lhs, rhs) =>
      OperandIsNoDeclaration(LeftLevel(op), lhs);
      OperandIsNoDeclaration(RightLevel(op), rhs);
    case CastExpr(inner, _) => OperandIsNoDeclaration(UNARY, inner);
    case CallExpr(callee, _) => OperandIsNoDeclaration(POSTFIX, callee);
    case MethodCallExpr(receiver, _, _) => OperandIsNoDeclaration(POSTFIX, receiver);
    case FieldExpr(receiver, _) => OperandIsNoDeclaration(POSTFIX, receiver);
    case IndexExpr(receiver, _) => OperandIsNoDeclaration(POSTFIX, receiver);
    case QuestionExpr(inner) => OperandIsNoDeclaration(POSTFIX, inner);
    case ReturnExpr(result) => if result.Some? { BareIsNoDeclaration(result.value); }
    case RangeExpr(start, end, _) =>
      if start.Some? { OperandIsNoDeclaration(OR, start.value); }
      if end.Some? { OperandIsNoDeclaration(OR, end.value); }
    case _ =>
  }

  lemma {:induction false} OperandIsNoDeclaration(level: int, e: A.Expr)
    requires level >= OR
    ensures LeadAt(level, e) != Some(DeclLead)
    decreases e, 1
  {
    if Lead(e) == Some(DeclLead) {
      BareIsNoDeclaration(e);
    }
  }
}
