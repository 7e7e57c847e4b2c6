/** Where the names in a tree come from: every rule spells them as the words it reads. */
module ReadNames {
  import opened Options
  import opened Tokens
  import opened Grammar
  import opened SourceNames
  import A = Ast
  import Spelling

  lemma IdentIsWord(c: Cursor)
    requires FromText(c.ts) && ParseIdent(c).Ok?
    ensures Spelling.IsWord(ParseIdent(c).value)
  {
  }

  lemma {:induction false} PathIsSource(c: Cursor, segments: A.Path)
    requires FromText(c.ts) && SourcePath(segments)
    ensures ParsePath(c, segments).Ok? ==> SourcePath(ParsePath(c, segments).value)
    decreases c.Left()
  {
    if IsPathSegment(c.Peek()) && Advance(c).Check(ColonColon) && !Advance(Advance(c)).AtEnd() {
      PathIsSource(Advance(Advance(c)), segments + [c.ts.head.spelling]);
    }
  }

  // ----- Patterns -----

  ghost predicate GivesPattern(r: Parsed<A.Pattern>) {
    r.Ok? ==> SourcePattern(r.value)
  }

  ghost predicate GivesPatterns(r: Parsed<seq<A.Pattern>>) {
    r.Ok? ==> SourcePatterns(r.value)
  }

  lemma {:induction false} PatternIsSource(c: Cursor)
    requires FromText(c.ts)
    ensures GivesPattern(ParsePattern(c))
    decreases c.Left(), 4
  {
    PrimaryPatternIsSource(c);
    var r := ParsePrimaryPattern(c);
    if r.Ok? && r.c.Check(Pipe) {
      AlternativesAreSource(Advance(r.c), []);
    }
  }

  lemma {:induction false} AlternativesAreSource(c: Cursor, rest: seq<A.Pattern>)
    requires FromText(c.ts) && SourcePatterns(rest)
    ensures GivesPatterns(ParseAlternatives(c, rest))
    decreases c.Left(), 4
  {
    PrimaryPatternIsSource(c);
    var r := ParsePrimaryPattern(c);
    if r.Ok? && r.c.Check(Pipe) {
      AlternativesAreSource(Advance(r.c), rest + [r.value]);
    }
  }

  lemma {:induction false} PrimaryPatternIsSource(c: Cursor)
    requires FromText(c.ts)
    ensures GivesPattern(ParsePrimaryPattern(c))
    decreases c.Left(), 3
  {
    var kind := c.Peek();
    if kind == Underscore || kind == Mut || IsLiteral(kind) || kind == Minus {
    } else if kind == Amp {
      var c1 := Advance(c);
      PrimaryPatternIsSource(if c1.Check(Mut) then Advance(c1) else c1);
    } else if kind == LParen {
      PatternIsSource(Advance(c));
      var r := ParsePattern(Advance(c));
      if r.Ok? && r.c.Check(Comma) {
        TuplePatternsAreSource(Advance(r.c), [r.value]);
      }
    } else {
      PathPatternIsSource(c);
    }
  }

  lemma {:induction false} PathPatternIsSource(c: Cursor)
    requires FromText(c.ts)
    ensures GivesPattern(ParsePathPattern(c))
    decreases c.Left(), 2
  {
    PathIsSource(c, []);
    var r := ParsePath(c, []);
    if r.Ok? && !IsBinding(r.value) {
      if r.c.Check(LParen) {
        PatternArgsAreSource(Advance(r.c));
      } else if r.c.Check(LBrace) {
        FieldPatternsAreSource(Advance(r.c), []);
      }
    }
  }

  lemma {:induction false} TuplePatternsAreSource(c: Cursor, elements: seq<A.Pattern>)
    requires FromText(c.ts) && SourcePatterns(elements)
    ensures GivesPatterns(ParseTuplePatterns(c, elements))
    decreases c.Left(), 5
  {
    if !c.Check(RParen) && !c.AtEnd() {
      PatternIsSource(c);
      var r := ParsePattern(c);
      if r.Ok? && r.c.Check(Comma) {
        TuplePatternsAreSource(Advance(r.c), elements + [r.value]);
      }
    }
  }

  lemma {:induction false} PatternArgsAreSource(c: Cursor)
    requires FromText(c.ts)
    ensures GivesPatterns(ParsePatternArgs(c))
    decreases c.Left(), 6
  {
    if !c.Check(RParen) {
      PatternListIsSource(c, []);
    }
  }

  lemma {:induction false} PatternListIsSource(c: Cursor, elements: seq<A.Pattern>)
    requires FromText(c.ts) && SourcePatterns(elements)
    ensures GivesPatterns(ParsePatternList(c, elements))
    decreases c.Left(), 5
  {
    PatternIsSource(c);
    var r := ParsePattern(c);
    if r.Ok? && r.c.Check(Comma) && !Advance(r.c).Check(RParen) {
      PatternListIsSource(Advance(r.c), elements + [r.value]);
    }
  }

  lemma {:induction false} FieldPatternsAreSource(c: Cursor, fields: seq<A.FieldPattern>)
    requires FromText(c.ts) && SourceFields(fields)
    ensures var r := ParseFieldPatterns(c, fields); r.Ok? ==> SourceFields(r.value)
    decreases c.Left(), 5
  {
    if !c.Check(RBrace) && !c.AtEnd() {
      var r := ParseIdent(c);
      if r.Ok? && r.c.Check(Colon) {
        PatternIsSource(Advance(r.c));
        var sub := ParsePattern(Advance(r.c));
        if sub.Ok? && sub.c.Check(Comma) {
          FieldPatternsAreSource(Advance(sub.c), fields + [A.FieldPattern(r.value, sub.value)]);
        }
      } else if r.Ok? && r.c.Check(Comma) {
        FieldPatternsAreSource(Advance(r.c), fields + [A.FieldPattern(r.value, A.IdentPattern(r.value))]);
      }
    }
  }

  // ----- Expressions -----

  ghost predicate GivesExpr(r: Parsed<A.Expr>) {
    r.Ok? ==> SourceExpr(r.value)
  }

  ghost predicate GivesExprs(r: Parsed<seq<A.Expr>>) {
    r.Ok? ==> SourceExprs(r.value)
  }

  lemma {:induction false} ExprIsSource(c: Cursor)
    requires FromText(c.ts)
    ensures GivesExpr(ParseExpr(c))
    decreases c.Left(), 31
  {
    RangeIsSource(c);
  }

  lemma {:induction false} RangeIsSource(c: Cursor)
    requires FromText(c.ts)
    ensures GivesExpr(ParseRange(c))
    decreases c.Left(), 30
  {
    if IsRangeOp(c.Peek()) {
      RangeEndIsSource(c, None);
    } else {
      BinaryIsSource(OR, c);
      var r := ParseBinary(OR, c);
      if r.Ok? && IsRangeOp(r.c.Peek()) {
        RangeEndIsSource(r.c, Some(r.value));
      }
    }
  }

  lemma {:induction false} RangeEndIsSource(c: Cursor, start: Option<A.Expr>)
    requires FromText(c.ts) && IsRangeOp(c.Peek()) && SourceOption(start)
    ensures GivesExpr(ParseRangeEnd(c, start))
    decreases c.Left(), 0
  {
    if c.Peek() != DotDot && !EndsRange(Advance(c)) {
      BinaryIsSource(OR, Advance(c));
    }
  }

  lemma {:induction false} BinaryIsSource(level: nat, c: Cursor)
    requires level <= POW && FromText(c.ts)
    ensures GivesExpr(ParseBinary(level, c))
    decreases c.Left(), 29 - level
  {
    if level == POW {
      PowIsSource(c);
    } else {
      BinaryIsSource(level + 1, c);
      var r := ParseBinary(level + 1, c);
      if r.Ok? && level != CMP {
        BinaryRestIsSource(level, r.value, r.c);
      } else if r.Ok? && OpAt(CMP, r.c.Peek()).Some? {
        BinaryIsSource(BIT_OR, Advance(r.c));
      }
    }
  }

  lemma {:induction false} BinaryRestIsSource(level: nat, lhs: A.Expr, c: Cursor)
    requires level < POW && level != CMP && FromText(c.ts) && SourceExpr(lhs)
    ensures GivesExpr(ParseBinaryRest(level, lhs, c))
    decreases c.Left(), 29
  {
    var op := OpAt(level, c.Peek());
    if op.Some? {
      BinaryIsSource(level + 1, Advance(c));
      var r := ParseBinary(level + 1, Advance(c));
      if r.Ok? {
        BinaryRestIsSource(level, A.BinaryExpr(op.value, lhs, r.value), r.c);
      }
    }
  }

  lemma {:induction false} PowIsSource(c: Cursor)
    requires FromText(c.ts)
    ensures GivesExpr(ParsePow(c))
    decreases c.Left(), 19
  {
    CastIsSource(c);
    var r := ParseCast(c);
    if r.Ok? && r.c.Check(StarStar) {
      PowIsSource(Advance(r.c));
    }
  }

  lemma {:induction false} CastIsSource(c: Cursor)
    requires FromText(c.ts)
    ensures GivesExpr(ParseCast(c))
    decreases c.Left(), 18
  {
    UnaryIsSource(c);
  }

  lemma {:induction false} UnaryIsSource(c: Cursor)
    requires FromText(c.ts)
    ensures GivesExpr(ParseUnary(c))
    decreases c.Left(), 17
  {
    if c.Peek() == Amp {
      var c1 := Advance(c);
      UnaryIsSource(if c1.Check(Mut) then Advance(c1) else c1);
    } else if UnaryOpOf(c.Peek()).Some? {
      UnaryIsSource(Advance(c));
    } else {
      PostfixIsSource(c);
    }
  }

  lemma {:induction false} PostfixIsSource(c: Cursor)
    requires FromText(c.ts)
    ensures GivesExpr(ParsePostfix(c))
    decreases c.Left(), 16
  {
    PrimaryIsSource(c);
    var r := ParsePrimary(c);
    if r.Ok? {
      PostfixRestIsSource(r.value, r.c);
    }
  }

  lemma {:induction false} PostfixRestIsSource(receiver: A.Expr, c: Cursor)
    requires FromText(c.ts) && SourceExpr(receiver)
    ensures GivesExpr(ParsePostfixRest(receiver, c))
    decreases c.Left(), 16
  {
    if c.Check(LParen) {
      CallIsSource(receiver, c);
    } else if c.Check(Dot) {
      MemberIsSource(receiver, c);
    } else if c.Check(LBracket) {
      IndexIsSource(receiver, c);
    } else if c.Check(Question) {
      PostfixRestIsSource(A.QuestionExpr(receiver), Advance(c));
    }
  }

  lemma {:induction false} CallIsSource(receiver: A.Expr, c: Cursor)
    requires FromText(c.ts) && SourceExpr(receiver) && c.Check(LParen)
    ensures GivesExpr(ParsePostfixRest(receiver, c))
    decreases c.Left(), 0
  {
    ArgsAreSource(Advance(c));
    var r := ParseArgs(Advance(c));
    if r.Ok? {
      PostfixRestIsSource(A.CallExpr(receiver, r.value), r.c);
    }
  }

  lemma {:induction false} IndexIsSource(receiver: A.Expr, c: Cursor)
    requires FromText(c.ts) && SourceExpr(receiver) && c.Check(LBracket)
    ensures GivesExpr(ParsePostfixRest(receiver, c))
    decreases c.Left(), 0
  {
    ExprIsSource(Advance(c));
    var r := ParseExpr(Advance(c));
    if r.Ok? && r.c.Check(RBracket) {
      PostfixRestIsSource(A.IndexExpr(receiver, r.value), Advance(r.c));
    }
  }

  lemma {:induction false} MemberIsSource(receiver: A.Expr, c: Cursor)
    requires FromText(c.ts) && SourceExpr(receiver) && c.Check(Dot)
    ensures GivesExpr(ParsePostfixRest(receiver, c))
    decreases c.Left(), 0
  {
    var c1 := Advance(c);
    if c1.Peek() == Integer {
      PostfixRestIsSource(A.FieldExpr(receiver, c1.ts.head.spelling), Advance(c1));
    } else {
      NamedMemberIsSource(receiver, c1);
      var r := ParseNamedMember(receiver, c1);
      if r.Ok? {
        PostfixRestIsSource(r.value, r.c);
      }
    }
  }

  lemma {:induction false} NamedMemberIsSource(receiver: A.Expr, c: Cursor)
    requires FromText(c.ts) && SourceExpr(receiver)
    ensures GivesExpr(ParseNamedMember(receiver, c))
    decreases c.Left(), 0
  {
    var r := ParseIdent(c);
    if r.Ok? && r.c.Check(LParen) {
      ArgsAreSource(Advance(r.c));
    }
  }

  lemma {:induction false} ArgsAreSource(c: Cursor)
    requires FromText(c.ts)
    ensures GivesExprs(ParseArgs(c))
    decreases c.Left(), 33
  {
    if !c.Check(RParen) {
      ArgListIsSource(c, []);
    }
  }

  lemma {:induction false} ArgListIsSource(c: Cursor, args: seq<A.Expr>)
    requires FromText(c.ts) && SourceExprs(args)
    ensures GivesExprs(ParseArgList(c, args))
    decreases c.Left(), 32
  {
    ExprIsSource(c);
    var r := ParseExpr(c);
    if r.Ok? && r.c.Check(Comma) && !Advance(r.c).Check(RParen) {
      ArgListIsSource(Advance(r.c), args + [r.value]);
    }
  }

  lemma {:induction false} PrimaryIsSource(c: Cursor)
    requires FromText(c.ts)
    ensures GivesExpr(ParsePrimary(c))
    decreases c.Left(), 15
  {
    var kind := c.Peek();
    if IsLiteral(kind) || kind == Break || kind == Continue {
    } else if kind == LParen {
      ParenthesizedIsSource(c);
    } else if kind == LBrace {
      BlockIsSource(c);
    } else if kind == If {
      IfIsSource(c);
    } else if kind == Match {
      MatchIsSource(c);
    } else if kind == Loop {
      BlockIsSource(Advance(c));
    } else if kind == While {
      WhileIsSource(c);
    } else if kind == Ret {
      ReturnIsSource(c);
    } else {
      PathExprIsSource(c);
    }
  }

  lemma {:induction false} WhileIsSource(c: Cursor)
    requires FromText(c.ts) && c.Peek() == While
    ensures GivesExpr(ParsePrimary(c))
    decreases c.Left(), 0
  {
    CondIsSource(Advance(c));
    var r := ParseCond(Advance(c));
    if r.Ok? {
      BlockIsSource(r.c);
    }
  }

  lemma {:induction false} ParenthesizedIsSource(c: Cursor)
    requires FromText(c.ts) && c.Peek() == LParen
    ensures GivesExpr(ParseParenthesized(c))
    decreases c.Left(), 0
  {
    ExprIsSource(Advance(c));
    var r := ParseExpr(Advance(c));
    if r.Ok? && r.c.Check(Comma) {
      TupleIsSource(Advance(r.c), [r.value]);
    }
  }

  lemma {:induction false} TupleIsSource(c: Cursor, elements: seq<A.Expr>)
    requires FromText(c.ts) && SourceExprs(elements)
    ensures GivesExprs(ParseTuple(c, elements))
    decreases c.Left(), 32
  {
    if !c.Check(RParen) && !c.AtEnd() {
      ExprIsSource(c);
      var r := ParseExpr(c);
      if r.Ok? && r.c.Check(Comma) {
        TupleIsSource(Advance(r.c), elements + [r.value]);
      }
    }
  }

  lemma {:induction false} ReturnIsSource(c: Cursor)
    requires FromText(c.ts) && c.Peek() == Ret
    ensures GivesExpr(ParseReturn(c))
    decreases c.Left(), 0
  {
    ExprIsSource(Advance(c));
  }

  lemma {:induction false} PathExprIsSource(c: Cursor)
    requires FromText(c.ts)
    ensures GivesExpr(ParsePathExpr(c))
    decreases c.Left(), 14
  {
    PathIsSource(c, []);
    var r := ParsePath(c, []);
    if r.Ok? && r.c.Check(LParen) {
      ArgsAreSource(Advance(r.c));
    } else if r.Ok? && r.c.lit && r.c.Check(LBrace) {
      StructLiteralIsSource(r.value, Advance(r.c));
    }
  }

  lemma {:induction false} StructLiteralIsSource(path: A.Path, c: Cursor)
    requires FromText(c.ts)
    ensures GivesExpr(ParseStructLiteral(path, c))
    decreases c.Left(), 34
  {
    InitsAreSource(c, []);
    var r := ParseInits(c, []);
    if r.Ok? && r.value.1.None? && r.c.Check(DotDot) {
      ExprIsSource(Advance(r.c));
    }
  }

  lemma {:induction false} InitsAreSource(c: Cursor, init: seq<A.FieldInit>)
    requires FromText(c.ts) && SourceInits(init)
    ensures var r := ParseInits(c, init); r.Ok? ==> SourceInits(r.value.0) && SourceOption(r.value.1)
    decreases c.Left(), 33
  {
    if !c.Check(RBrace) && !c.AtEnd() {
      if c.Check(DotDot) {
        ExprIsSource(Advance(c));
      } else {
        InitIsSource(c);
        var r := ParseInit(c);
        if r.Ok? && r.c.Check(Comma) {
          InitsAreSource(Advance(r.c), init + [r.value]);
        }
      }
    }
  }

  lemma {:induction false} InitIsSource(c: Cursor)
    requires FromText(c.ts)
    ensures ParseInit(c).Ok? ==> SourceExpr(ParseInit(c).value.value)
    decreases c.Left(), 32
  {
    var r := ParseIdent(c);
    if r.Ok? && r.c.Check(Colon) {
      ExprIsSource(Advance(r.c));
    }
  }

  lemma {:induction false} HeadExprIsSource(c: Cursor)
    requires FromText(c.ts)
    ensures GivesExpr(ParseHeadExpr(c))
    decreases c.Left(), 32
  {
    ExprIsSource(c.(lit := false));
  }

  lemma {:induction false} CondIsSource(c: Cursor)
    requires FromText(c.ts)
    ensures ParseCond(c).Ok? ==> SourceCond(ParseCond(c).value)
    decreases c.Left(), 33
  {
    if ScanLead(c.ts, 0) != DeclLead {
      HeadExprIsSource(c);
    } else {
      PatternIsSource(c);
      var r := ParsePattern(c);
      if r.Ok? && r.c.Check(ColonEq) {
        ExprIsSource(Advance(r.c));
      }
    }
  }

  lemma {:induction false} IfIsSource(c: Cursor)
    requires FromText(c.ts) && c.Peek() == If
    ensures GivesExpr(ParseIf(c))
    decreases c.Left(), 0
  {
    CondIsSource(Advance(c));
    var cond := ParseCond(Advance(c));
    if cond.Ok? {
      BlockIsSource(cond.c);
      var r := ParseBlock(cond.c);
      if r.Ok? && r.c.Check(Else) {
        BlockIsSource(Advance(r.c));
      }
    }
  }

  lemma {:induction false} MatchIsSource(c: Cursor)
    requires FromText(c.ts) && c.Peek() == Match
    ensures GivesExpr(ParseMatch(c))
    decreases c.Left(), 0
  {
    HeadExprIsSource(Advance(c));
    var r := ParseHeadExpr(Advance(c));
    if r.Ok? && r.c.Check(LBrace) {
      ArmsAreSource(Advance(r.c), []);
    }
  }

  lemma {:induction false} ArmsAreSource(c: Cursor, arms: seq<A.MatchArm>)
    requires FromText(c.ts) && SourceArms(arms)
    ensures SourceArms(ParseArms(c, arms).0)
    decreases c.Left(), 40 + AtEndRank(c)
  {
    if !LoopEnds(c) {
      if c.Check(Comma) || c.Check(Semicolon) {
        ArmsAreSource(Advance(c), arms);
      } else {
        ArmIsSource(c);
        var r := ParseArm(c);
        if r.Ok? {
          ArmsAreSource(r.c, arms + [r.value]);
        } else {
          ArmsAreSource(Synchronize(r.c), arms);
        }
      }
    }
  }

  lemma {:induction false} ArmIsSource(c: Cursor)
    requires FromText(c.ts)
    ensures ParseArm(c).Ok? ==> SourceArm(ParseArm(c).value)
    decreases c.Left(), 32
  {
    PatternIsSource(c);
    var r := ParsePattern(c);
    if r.Ok? && r.c.Check(FatArrow) {
      ExprIsSource(Advance(r.c));
    }
  }

  // ----- Blocks and statements -----

  lemma {:induction false} BlockIsSource(c: Cursor)
    requires FromText(c.ts)
    ensures ParseBlock(c).Ok? ==> SourceBlock(ParseBlock(c).value)
    decreases c.Left(), 13
  {
    if c.Check(LBrace) {
      StmtsAreSource(Advance(c), []);
    }
  }

  lemma {:induction false} StmtsAreSource(c: Cursor, statements: seq<A.Stmt>)
    requires FromText(c.ts) && SourceStmts(statements)
    ensures var (ss, value, _) := ParseStmts(c, statements); SourceStmts(ss) && SourceOption(value)
    decreases c.Left(), 40 + AtEndRank(c)
  {
    if !LoopEnds(c) {
      if c.Check(Semicolon) {
        StmtsAreSource(Advance(c), statements);
      } else {
        StmtIsSource(c);
        var r := ParseStmt(c);
        if r.Fail? {
          StmtsAreSource(Synchronize(r.c), statements);
        } else if !r.value.ExprStmt? || !LoopEnds(r.c) {
          StmtsAreSource(EndStmt(r.c), statements + [r.value]);
        }
      }
    }
  }

  lemma {:induction false} StmtIsSource(c: Cursor)
    requires FromText(c.ts)
    ensures ParseStmt(c).Ok? ==> SourceStmt(ParseStmt(c).value)
    decreases c.Left(), 32
  {
    if ScanLead(c.ts, 0) == DeclLead {
      PatternIsSource(c);
      var p := ParsePattern(c);
      if p.Ok? {
        var t := ParseAscription(p.c);
        if t.Ok? && t.c.Check(ColonEq) {
          ExprIsSource(Advance(t.c));
        }
      }
    } else {
      ExprIsSource(c);
      var r := ParseExpr(c);
      if r.Ok? && (r.c.Check(Eq) || IsCompoundAssign(r.c.Peek())) {
        ExprIsSource(Advance(r.c));
      }
    }
  }

  // ----- Items -----

  ghost predicate GivesItem(r: Parsed<A.Item>) {
    r.Ok? ==> SourceItem(r.value)
  }

  lemma {:induction false} ItemIsSource(c: Cursor)
    requires FromText(c.ts)
    ensures GivesItem(ParseItem(c))
    decreases c.Left(), 1
  {
    var isPub := c.Check(Pub);
    var c1 := if isPub then Advance(c) else c;
    var kind := c1.Peek();
    if kind == Fn {
      FnIsSource(c1, isPub);
    } else if kind == Mod {
      ModIsSource(Advance(c1), isPub);
    } else if kind == Static || kind == Const {
      ValueItemIsSource(Advance(c1));
    } else {
      FlatItemIsSource(c1, isPub);
    }
  }

  lemma ValueItemIsSource(c: Cursor)
    requires FromText(c.ts)
    ensures ParseValueItem(c).Ok? ==> SourceExpr(ParseValueItem(c).value.2)
  {
    var r := ParseStructField(c);
    if r.Ok? && r.c.Check(Eq) {
      ExprIsSource(Advance(r.c));
    }
  }

  lemma FlatItemIsSource(c: Cursor, isPub: bool)
    requires FromText(c.ts)
    ensures GivesItem(ParseFlatItem(c, isPub))
  {
    if c.Peek() == Impl {
      ImplIsSource(Advance(c), isPub);
    } else {
      BareItemIsSource(c, isPub);
    }
  }

  lemma ImplIsSource(c: Cursor, isPub: bool)
    requires FromText(c.ts)
    ensures GivesItem(ParseImpl(c, isPub))
  {
    var target := ParseClosedType(c);
    if target.Ok? && target.c.Check(LBrace) {
      MethodsAreSource(Advance(target.c), []);
    }
  }

  lemma BareItemIsSource(c: Cursor, isPub: bool)
    requires FromText(c.ts)
    ensures GivesItem(ParseBareItem(c, isPub))
  {
    if c.Peek() == Use {
      UseIsSource(Advance(c), isPub);
    } else {
      PlainItemIsSource(c, isPub);
    }
  }

  lemma UseIsSource(c: Cursor, isPub: bool)
    requires FromText(c.ts)
    ensures GivesItem(ParseUse(c, isPub))
  {
    PathIsSource(c, []);
  }

  lemma PlainItemIsSource(c: Cursor, isPub: bool)
    requires c.Peek() != Use
    ensures GivesItem(ParseBareItem(c, isPub))
  {
  }

  lemma {:induction false} ModIsSource(c: Cursor, isPub: bool)
    requires FromText(c.ts)
    ensures GivesItem(ParseMod(c, isPub))
    decreases c.Left(), 0
  {
    var name := ParseIdent(c);
    if name.Ok? {
      IdentIsWord(c);
      if !name.c.Check(Semicolon) && name.c.Check(LBrace) {
        ItemsAreSource(Advance(name.c), true, []);
      }
    }
  }

  lemma {:induction false} ItemsAreSource(c: Cursor, inModule: bool, items: seq<A.Item>)
    requires FromText(c.ts) && SourceItems(items)
    ensures SourceItems(ParseItems(c, inModule, items).0)
    decreases c.Left(), 40 + AtEndRank(c)
  {
    if !c.AtEnd() && !(inModule && c.Check(RBrace)) {
      if c.Check(Semicolon) {
        ItemsAreSource(Advance(c), inModule, items);
      } else {
        ItemIsSource(c);
        var r := ParseItem(c);
        if r.Ok? {
          ItemsAreSource(r.c, inModule, items + [r.value]);
        } else {
          ItemsAreSource(Synchronize(r.c), inModule, items);
        }
      }
    }
  }

  lemma {:induction false} MethodsAreSource(c: Cursor, methods: seq<A.Item>)
    requires FromText(c.ts) && SourceItems(methods)
    ensures SourceItems(ParseMethods(c, methods).0)
    decreases c.Left(), AtEndRank(c)
  {
    if !LoopEnds(c) {
      if c.Check(Semicolon) {
        MethodsAreSource(Advance(c), methods);
      } else {
        FnIsSource(c, false);
        var r := ParseFn(c, false);
        if r.Ok? {
          MethodsAreSource(r.c, methods + [r.value]);
        } else {
          MethodsAreSource(Synchronize(r.c), methods);
        }
      }
    }
  }

  lemma FnIsSource(c: Cursor, isPub: bool)
    requires FromText(c.ts)
    ensures GivesItem(ParseFn(c, isPub))
  {
    if c.Check(Fn) {
      var name := ParseIdent(Advance(c));
      if name.Ok? && name.c.Check(LParen) {
        ParamsAreSource(Advance(name.c));
        var params := ParseParams(Advance(name.c));
        if params.Ok? {
          FnRestIsSource(params.c, isPub, name.value, params.value);
        }
      }
    }
  }

  lemma FnRestIsSource(c: Cursor, isPub: bool, name: string, params: seq<A.FnParam>)
    requires FromText(c.ts) && SourceParams(params)
    ensures GivesItem(ParseFnRest(c, isPub, name, params))
  {
    var r := ParseReturnType(c);
    if r.Ok? {
      BlockIsSource(r.c);
    }
  }

  lemma ParamsAreSource(c: Cursor)
    requires FromText(c.ts)
    ensures ParseParams(c).Ok? ==> SourceParams(ParseParams(c).value)
  {
    if !c.Check(RParen) {
      ParamListIsSource(c, []);
    }
  }

  lemma {:induction false} ParamListIsSource(c: Cursor, params: seq<A.FnParam>)
    requires FromText(c.ts) && SourceParams(params)
    ensures var r := ParseParamList(c, params); r.Ok? ==> SourceParams(r.value)
    decreases c.Left()
  {
    PatternIsSource(c);
    var r := ParseParam(c);
    if r.Ok? && r.c.Check(Comma) && !Advance(r.c).Check(RParen) {
      ParamListIsSource(Advance(r.c), params + [r.value]);
    }
  }

  /** A whole file. */
  lemma FileIsSource(tokens: TokenList)
    requires FromText(Words(tokens, 0))
    ensures SourceItems(ParseFile(tokens).0)
  {
    ItemsAreSource(Cursor(Words(tokens, 0), 0, true, ReservedAhead(tokens, 0)), false, []);
  }
}
