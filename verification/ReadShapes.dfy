/** Whatever is read can be printed: every type, expression and block has the shape that its
    round trip asks for, and so has every file. */
module ReadShapes {
  import opened Options
  import opened Tokens
  import opened Grammar
  import opened TypeSyntax
  import opened ExprSyntax
  import opened FormSteps
  import P = PatternSyntax
  import R = PatternRoundTrip
  import T = TypeRoundTrip
  import V = VariantRoundTrip
  import E = ExprRoundTrip
  import I = ItemRoundTrip
  import A = Ast

  // ----- Types -----

  predicate AreShaped(ts: seq<A.Type>) {
    forall t <- ts :: IsType(t)
  }

  lemma {:induction false} TypeIsShaped(c: Cursor)
    ensures ParseType(c).Ok? ==> IsType(ParseType(c).value)
    decreases c.Left(), 2
  {
    if c.Peek() == LParen {
      ParenthesizedTypeIsShaped(c);
    } else if c.Peek() == Amp {
      var c1 := Advance(c);
      TypeIsShaped(if c1.Check(Mut) then Advance(c1) else c1);
    } else if c.Peek() != Bang && c.Peek() != Str && PrimitiveOf(c.Peek()).None? {
      PathTypeIsShaped(c);
    }
  }

  lemma {:induction false} ParenthesizedTypeIsShaped(c: Cursor)
    requires c.Peek() == LParen
    ensures var r := ParseParenthesizedType(c); r.Ok? ==> IsType(r.value)
    decreases c.Left(), 0
  {
    var c1 := Advance(c);
    if !c1.Check(RParen) {
      TypeIsShaped(c1);
      var r := ParseType(c1);
      if r.Ok? && r.c.Check(Comma) {
        TupleTypesAreShaped(Advance(r.c), [r.value]);
      }
    }
  }

  lemma {:induction false} PathTypeIsShaped(c: Cursor)
    ensures ParsePathType(c).Ok? ==> IsType(ParsePathType(c).value)
    decreases c.Left(), 1
  {
    var r := ParsePath(c, []);
    if r.Ok? && r.c.Check(Less) && !ClosesArgs(Advance(r.c)) {
      TypeArgsAreShaped(Advance(r.c), []);
    }
  }

  lemma {:induction false} TupleTypesAreShaped(c: Cursor, elements: seq<A.Type>)
    requires AreShaped(elements)
    ensures var r := ParseTupleTypes(c, elements); r.Ok? ==> AreShaped(r.value)
    decreases c.Left(), 3
  {
    if !c.Check(RParen) && !c.AtEnd() {
      TypeIsShaped(c);
      var r := ParseType(c);
      if r.Ok? && r.c.Check(Comma) {
        TupleTypesAreShaped(Advance(r.c), elements + [r.value]);
      }
    }
  }

  lemma {:induction false} TypeArgsAreShaped(c: Cursor, args: seq<A.Type>)
    requires AreShaped(args)
    ensures var r := ParseTypeArgs(c, args); r.Ok? ==> AreShaped(r.value)
    decreases c.Left(), 3
  {
    TypeIsShaped(c);
    var r := ParseType(c);
    if r.Ok? && r.c.Check(Comma) && !ClosesArgs(Advance(r.c)) {
      TypeArgsAreShaped(Advance(r.c), args + [r.value]);
    }
  }

  /** Every type that is read, from whatever words, reads back from its print. */
  lemma TypeReadsAgain(c: Cursor, c1: Cursor, k: Stream)
    requires ParseType(c).Ok? && T.EndsType(ParseType(c).value, k)
    requires c1.bank == 0 && c1.ts == PrintType(ParseType(c).value, k)
    ensures ParseClosedType(c1) == Ok(ParseType(c).value, c1.(ts := k))
  {
    TypeIsShaped(c);
    T.PrintedTypeReads(ParseType(c).value, c1, k);
  }

  // ----- Expressions -----

  /** Behind a bare `ret` there is nothing but what may stand there. */
  predicate Closes(e: A.Expr, c: Cursor) {
    EndsBare(e) ==> c.Peek() == Semicolon || c.Peek() == RBrace || c.Peek() == Eof
  }

  /** What a rung gives can be printed on it. */
  ghost predicate Gives(level: int, c: Cursor, r: Parsed<A.Expr>) {
    r.Ok? ==> IsOperand(level, r.value, c.lit) && Closes(r.value, r.c)
  }

  predicate AreParts(es: seq<A.Expr>, lit: bool) {
    forall e <- es :: IsPart(e, lit)
  }

  /** What stands in front of such a token is no bare `ret`. */
  lemma NotBare(e: A.Expr, c: Cursor, lit: bool)
    requires IsPlain(e, lit) && Closes(e, c) && c.Peek() !in {Semicolon, RBrace, Eof}
    ensures IsPart(e, lit)
  {
  }

  lemma {:induction false} ExprPrints(c: Cursor)
    ensures Gives(-1, c, ParseExpr(c))
    decreases c.Left(), 31
  {
    if IsRangeOp(c.Peek()) {
      RangeEndPrints(c, None);
    } else {
      BinaryPrints(OR, c);
      var r := ParseBinary(OR, c);
      if r.Ok? && IsRangeOp(r.c.Peek()) {
        NotBare(r.value, r.c, c.lit);
        RangeEndPrints(r.c, Some(r.value));
      }
    }
  }

  lemma {:induction false} RangeEndPrints(c: Cursor, start: Option<A.Expr>)
    requires IsRangeOp(c.Peek()) && (start.Some? ==> IsPart(start.value, c.lit))
    ensures Gives(-1, c, ParseRangeEnd(c, start))
    decreases c.Left(), 0
  {
    var c1 := Advance(c);
    if c.Peek() != DotDot && !EndsRange(c1) {
      BinaryPrints(OR, c1);
    }
    if ParseRangeEnd(c, start).Ok? {
      FormIsPlain(ParseRangeEnd(c, start).value, c.lit);
    }
  }

  lemma FormIsPlain(e: A.Expr, lit: bool)
    requires IsForm(e, lit)
    ensures IsPlain(e, lit)
  {
  }

  lemma {:induction false} BinaryPrints(level: nat, c: Cursor)
    requires level <= POW
    ensures Gives(level, c, ParseBinary(level, c))
    decreases c.Left(), 29 - level
  {
    if level == POW {
      PowPrints(c);
    } else {
      BinaryPrints(level + 1, c);
      var r := ParseBinary(level + 1, c);
      if r.Ok? && level != CMP {
        BinaryRestPrints(level, r.value, r.c);
      } else if r.Ok? && OpAt(CMP, r.c.Peek()).Some? {
        ComparisonPrints(r.value, r.c);
      }
    }
  }

  lemma {:induction false} ComparisonPrints(lhs: A.Expr, c: Cursor)
    requires OpAt(CMP, c.Peek()).Some? && IsPlain(lhs, c.lit) && Closes(lhs, c)
    ensures ParseBinary(BIT_OR, Advance(c)).Ok? ==>
      var r := ParseBinary(BIT_OR, Advance(c));
      Gives(CMP, c, Ok(A.BinaryExpr(OpAt(CMP, c.Peek()).value, lhs, r.value), r.c))
    decreases c.Left(), 0
  {
    BinaryPrints(BIT_OR, Advance(c));
    var r := ParseBinary(BIT_OR, Advance(c));
    if r.Ok? {
      OperationPrints(CMP, OpAt(CMP, c.Peek()).value, lhs, r.value, c, r.c);
    }
  }

  lemma OperationPrints(level: nat, op: A.BinaryOp, lhs: A.Expr, rhs: A.Expr, c: Cursor, c1: Cursor)
    requires OpLevel(op) == level && IsPlain(lhs, c.lit) && Closes(lhs, c) && c.Peek() !in {Semicolon, RBrace, Eof}
    requires IsOperand(RightLevel(op), rhs, c.lit) && Closes(rhs, c1)
    ensures Gives(level, c, Ok(A.BinaryExpr(op, lhs, rhs), c1))
  {
    NotBare(lhs, c, c.lit);
  }

  lemma OpIs(level: nat, kind: Kind)
    requires OpAt(level, kind).Some?
    ensures var op := OpAt(level, kind).value;
      OpLevel(op) == level && RightLevel(op) == level + 1 && kind !in {Semicolon, RBrace, Eof}
  {
  }

  lemma {:induction false} BinaryRestPrints(level: nat, lhs: A.Expr, c: Cursor)
    requires level < POW && level != CMP && IsOperand(level, lhs, c.lit) && Closes(lhs, c)
    ensures Gives(level, c, ParseBinaryRest(level, lhs, c))
    decreases c.Left(), 29
  {
    var op := OpAt(level, c.Peek());
    if op.Some? {
      OpIs(level, c.Peek());
      BinaryPrints(level + 1, Advance(c));
      var r := ParseBinary(level + 1, Advance(c));
      if r.Ok? {
        OperationPrints(level, op.value, lhs, r.value, c, r.c);
        BinaryRestPrints(level, A.BinaryExpr(op.value, lhs, r.value), r.c);
      }
    }
  }

  lemma {:induction false} PowPrints(c: Cursor)
    ensures Gives(POW, c, ParsePow(c))
    decreases c.Left(), 19
  {
    CastPrints(c);
    var r := ParseCast(c);
    if r.Ok? && r.c.Check(StarStar) {
      PowPrints(Advance(r.c));
      var rhs := ParsePow(Advance(r.c));
      if rhs.Ok? {
        OperationPrints(POW, A.Pow, r.value, rhs.value, r.c, rhs.c);
      }
    }
  }

  lemma {:induction false} CastPrints(c: Cursor)
    ensures Gives(CAST, c, ParseCast(c))
    decreases c.Left(), 18
  {
    UnaryPrints(c);
    var r := ParseUnary(c);
    if r.Ok? && r.c.Check(As) {
      NotBare(r.value, r.c, c.lit);
      TypeIsShaped(Advance(r.c));
    }
  }

  lemma {:induction false} UnaryPrints(c: Cursor)
    ensures Gives(UNARY, c, ParseUnary(c))
    decreases c.Left(), 17
  {
    if c.Peek() == Amp {
      var c1 := Advance(c);
      UnaryPrints(if c1.Check(Mut) then Advance(c1) else c1);
    } else if UnaryOpOf(c.Peek()).Some? {
      UnaryPrints(Advance(c));
    } else {
      PostfixPrints(c);
    }
  }

  lemma {:induction false} PostfixPrints(c: Cursor)
    ensures Gives(POSTFIX, c, ParsePostfix(c))
    decreases c.Left(), 16
  {
    PrimaryPrints(c);
    var r := ParsePrimary(c);
    if r.Ok? {
      PostfixRestPrints(r.value, r.c);
    }
  }

  lemma {:induction false} PostfixRestPrints(receiver: A.Expr, c: Cursor)
    requires IsOperand(POSTFIX, receiver, c.lit) && Closes(receiver, c)
    ensures Gives(POSTFIX, c, ParsePostfixRest(receiver, c))
    decreases c.Left(), 16
  {
    if c.Check(LParen) {
      CallPrints(receiver, c);
    } else if c.Check(Dot) {
      MemberPrints(receiver, c);
    } else if c.Check(LBracket) {
      IndexPrints(receiver, c);
    } else if c.Check(Question) {
      QuestionPrints(receiver, c);
    }
  }

  lemma {:induction false} CallPrints(receiver: A.Expr, c: Cursor)
    requires IsPlain(receiver, c.lit) && Closes(receiver, c) && c.Check(LParen)
    ensures Gives(POSTFIX, c, ParsePostfixRest(receiver, c))
    decreases c.Left(), 0
  {
    NotBare(receiver, c, c.lit);
    ArgsPrint(Advance(c));
    var r := ParseArgs(Advance(c));
    if r.Ok? {
      PostfixRestPrints(A.CallExpr(receiver, r.value), r.c);
    }
  }

  lemma {:induction false} IndexPrints(receiver: A.Expr, c: Cursor)
    requires IsPlain(receiver, c.lit) && Closes(receiver, c) && c.Check(LBracket)
    ensures Gives(POSTFIX, c, ParsePostfixRest(receiver, c))
    decreases c.Left(), 0
  {
    NotBare(receiver, c, c.lit);
    ExprPrints(Advance(c));
    var r := ParseExpr(Advance(c));
    if r.Ok? && r.c.Check(RBracket) {
      NotBare(r.value, r.c, c.lit);
      PostfixRestPrints(A.IndexExpr(receiver, r.value), Advance(r.c));
    }
  }

  lemma {:induction false} MemberPrints(receiver: A.Expr, c: Cursor)
    requires IsPlain(receiver, c.lit) && Closes(receiver, c) && c.Check(Dot)
    ensures Gives(POSTFIX, c, ParsePostfixRest(receiver, c))
    decreases c.Left(), 0
  {
    NotBare(receiver, c, c.lit);
    var c1 := Advance(c);
    if c1.Peek() == Integer {
      FieldPrints(receiver, c1.ts.head.spelling, Advance(c1));
    } else {
      NamedMemberPrints(receiver, c1);
      var r := ParseNamedMember(receiver, c1);
      if r.Ok? {
        PostfixRestPrints(r.value, r.c);
      }
    }
  }

  lemma {:induction false} FieldPrints(receiver: A.Expr, name: string, c: Cursor)
    requires IsPart(receiver, c.lit)
    ensures Gives(POSTFIX, c, ParsePostfixRest(A.FieldExpr(receiver, name), c))
    decreases c.Left(), 17
  {
    PostfixRestPrints(A.FieldExpr(receiver, name), c);
  }

  lemma {:induction false} QuestionPrints(receiver: A.Expr, c: Cursor)
    requires IsPlain(receiver, c.lit) && Closes(receiver, c) && c.Check(Question)
    ensures Gives(POSTFIX, c, ParsePostfixRest(receiver, c))
    decreases c.Left(), 0
  {
    NotBare(receiver, c, c.lit);
    PostfixRestPrints(A.QuestionExpr(receiver), Advance(c));
  }

  lemma {:induction false} NamedMemberPrints(receiver: A.Expr, c: Cursor)
    requires IsPart(receiver, c.lit)
    ensures var r := ParseNamedMember(receiver, c); r.Ok? ==> IsPart(r.value, c.lit)
    decreases c.Left(), 0
  {
    var r := ParseIdent(c);
    if r.Ok? && r.c.Check(LParen) {
      ArgsPrint(Advance(r.c));
    }
  }

  lemma {:induction false} ArgsPrint(c: Cursor)
    ensures ParseArgs(c).Ok? ==> AreParts(ParseArgs(c).value, c.lit)
    decreases c.Left(), 33
  {
    if !c.Check(RParen) {
      ArgListPrints(c, []);
    }
  }

  lemma {:induction false} ArgListPrints(c: Cursor, args: seq<A.Expr>)
    requires AreParts(args, c.lit)
    ensures var r := ParseArgList(c, args); r.Ok? && r.c.Check(RParen) ==> AreParts(r.value, c.lit)
    decreases c.Left(), 32
  {
    ExprPrints(c);
    var r := ParseExpr(c);
    if r.Ok? && r.c.Check(Comma) {
      NotBare(r.value, r.c, c.lit);
      if !Advance(r.c).Check(RParen) {
        ArgListPrints(Advance(r.c), args + [r.value]);
      }
    } else if r.Ok? && r.c.Check(RParen) {
      NotBare(r.value, r.c, c.lit);
    }
  }

  lemma {:induction false} PrimaryPrints(c: Cursor)
    ensures Gives(POSTFIX, c, ParsePrimary(c))
    decreases c.Left(), 15
  {
    var kind := c.Peek();
    if IsLiteral(kind) {
    } else if kind == Break || kind == Continue {
      FormIsPlain(A.BreakExpr, c.lit);
      FormIsPlain(A.ContinueExpr, c.lit);
    } else if kind == LParen {
      ParenthesizedPrints(c);
    } else if kind == LBrace {
      BlockExprPrints(c);
    } else if kind == If {
      IfPrints(c);
    } else if kind == Match {
      MatchPrints(c);
    } else if kind == Loop {
      LoopPrints(c);
    } else if kind == While {
      WhilePrints(c);
    } else if kind == Ret {
      ReturnPrints(c);
    } else {
      PathExprPrints(c);
    }
  }

  lemma {:induction false} ParenthesizedPrints(c: Cursor)
    requires c.Peek() == LParen
    ensures var r := ParseParenthesized(c); r.Ok? ==> IsPart(r.value, c.lit)
    decreases c.Left(), 0
  {
    ExprPrints(Advance(c));
    var r := ParseExpr(Advance(c));
    if r.Ok? && r.c.Check(Comma) {
      NotBare(r.value, r.c, c.lit);
      TuplePrints(Advance(r.c), [r.value]);
    } else if r.Ok? && r.c.Check(RParen) {
      NotBare(r.value, r.c, c.lit);
    }
  }

  lemma {:induction false} TuplePrints(c: Cursor, elements: seq<A.Expr>)
    requires AreParts(elements, c.lit) && elements != []
    ensures var r := ParseTuple(c, elements); r.Ok? && r.c.Check(RParen) ==> AreParts(r.value, c.lit) && r.value != []
    decreases c.Left(), 32
  {
    if !c.Check(RParen) && !c.AtEnd() {
      ExprPrints(c);
      var r := ParseExpr(c);
      if r.Ok? && r.c.Check(Comma) {
        NotBare(r.value, r.c, c.lit);
        TuplePrints(Advance(r.c), elements + [r.value]);
      } else if r.Ok? && r.c.Check(RParen) {
        NotBare(r.value, r.c, c.lit);
      }
    }
  }

  lemma {:induction false} PathExprPrints(c: Cursor)
    ensures var r := ParsePathExpr(c); r.Ok? ==> IsPart(r.value, c.lit)
    decreases c.Left(), 14
  {
    var r := ParsePath(c, []);
    if r.Ok? && r.c.Check(LParen) {
      ArgsPrint(Advance(r.c));
    } else if r.Ok? && r.c.lit && r.c.Check(LBrace) {
      StructLiteralPrints(r.value, Advance(r.c));
    }
  }

  // ----- Control forms -----

  lemma {:induction false} BlockExprPrints(c: Cursor)
    requires c.Peek() == LBrace
    ensures var r := ParsePrimary(c); r.Ok? ==> IsPart(r.value, c.lit)
    decreases c.Left(), 14
  {
    BlockPrints(c);
    var r := ParseBlock(c);
    if r.Ok? {
      FormIsPlain(A.BlockExpr(r.value), c.lit);
    }
  }

  lemma {:induction false} LoopPrints(c: Cursor)
    requires c.Peek() == Loop
    ensures var r := ParsePrimary(c); r.Ok? ==> IsPart(r.value, c.lit)
    decreases c.Left(), 0
  {
    BlockPrints(Advance(c));
    var r := ParseBlock(Advance(c));
    if r.Ok? {
      FormIsPlain(A.LoopExpr(r.value), c.lit);
    }
  }

  lemma {:induction false} ReturnPrints(c: Cursor)
    requires c.Peek() == Ret
    ensures Gives(POSTFIX, c, ParseReturn(c))
    decreases c.Left(), 0
  {
    var c1 := Advance(c);
    if !c1.Check(Semicolon) && !c1.Check(RBrace) && !c1.AtEnd() {
      ExprPrints(c1);
    }
    if ParseReturn(c).Ok? {
      FormIsPlain(ParseReturn(c).value, c.lit);
    }
  }

  /** In a literal only the last value may end in a bare `ret`. */
  ghost predicate AreInits(init: seq<A.FieldInit>, lit: bool) {
    forall f <- init :: IsPart(f.value, lit)
  }

  ghost predicate AreLiteralParts(init: seq<A.FieldInit>, base: Option<A.Expr>, c: Cursor, lit: bool) {
    && (forall f <- init :: IsPlain(f.value, lit))
    && (forall i | 0 <= i < |init| && EndsBare(init[i].value) :: i == |init| - 1 && base.None? && Closes(init[i].value, c))
    && (base.Some? ==> IsPlain(base.value, lit))
  }

  lemma {:induction false} InitsPrint(c: Cursor, init: seq<A.FieldInit>)
    requires AreInits(init, c.lit)
    ensures var r := ParseInits(c, init); r.Ok? ==> AreLiteralParts(r.value.0, r.value.1, r.c, c.lit)
    decreases c.Left(), 33
  {
    if c.Check(RBrace) || c.AtEnd() {
    } else if c.Check(DotDot) {
      ExprPrints(Advance(c));
    } else {
      InitPrints(c);
      var r := ParseInit(c);
      if r.Ok? && r.c.Check(Comma) {
        NotBare(r.value.value, r.c, c.lit);
        InitsPrint(Advance(r.c), init + [r.value]);
      }
    }
  }

  lemma {:induction false} InitPrints(c: Cursor)
    ensures var r := ParseInit(c); r.Ok? ==> IsPlain(r.value.value, c.lit) && Closes(r.value.value, r.c)
    decreases c.Left(), 32
  {
    var r := ParseIdent(c);
    if r.Ok? && r.c.Check(Colon) {
      ExprPrints(Advance(r.c));
    }
  }

  lemma {:induction false} StructLiteralPrints(path: A.Path, c: Cursor)
    requires path != [] && c.lit
    ensures var r := ParseStructLiteral(path, c); r.Ok? ==> IsPart(r.value, c.lit)
    decreases c.Left(), 34
  {
    InitsPrint(c, []);
    var r := ParseInits(c, []);
    if r.Ok? && r.value.1.None? && r.c.Check(DotDot) {
      ExprPrints(Advance(r.c));
    }
  }

  /** In front of a block there is no bare `ret`. */
  lemma {:induction false} HeadPrints(c: Cursor)
    ensures var r := ParseHeadExpr(c); r.Ok? && r.c.Check(LBrace) ==> IsPart(r.value, false)
    decreases c.Left(), 32
  {
    var c0 := c.(lit := false);
    ExprPrints(c0);
    var r := ParseExpr(c0);
    if r.Ok? && r.c.Check(LBrace) {
      NotBare(r.value, r.c, false);
    }
  }

  lemma {:induction false} CondPrints(c: Cursor)
    ensures var r := ParseCond(c); r.Ok? && r.c.Check(LBrace) ==> IsCond(r.value, c.lit)
    decreases c.Left(), 33
  {
    if ScanLead(c.ts, 0) != DeclLead {
      HeadPrints(c);
    } else {
      R.ReadPatternPrints(c);
      var r := ParsePattern(c);
      if r.Ok? && r.c.Check(ColonEq) {
        ExprPrints(Advance(r.c));
        var init := ParseExpr(Advance(r.c));
        if init.Ok? && init.c.Check(LBrace) {
          NotBare(init.value, init.c, c.lit);
        }
      }
    }
  }

  lemma BlockNeedsBrace(c: Cursor)
    ensures ParseBlock(c).Ok? ==> c.Check(LBrace)
  {
  }

  lemma {:induction false} IfPrints(c: Cursor)
    requires c.Peek() == If
    ensures var r := ParseIf(c); r.Ok? ==> IsPart(r.value, c.lit)
    decreases c.Left(), 0
  {
    CondPrints(Advance(c));
    var cond := ParseCond(Advance(c));
    if cond.Ok? {
      BlockNeedsBrace(cond.c);
      BlockPrints(cond.c);
      var b := ParseBlock(cond.c);
      if b.Ok? && b.c.Check(Else) {
        BlockPrints(Advance(b.c));
      }
    }
  }

  lemma {:induction false} WhilePrints(c: Cursor)
    requires c.Peek() == While
    ensures var r := ParsePrimary(c); r.Ok? ==> IsPart(r.value, c.lit)
    decreases c.Left(), 0
  {
    CondPrints(Advance(c));
    var cond := ParseCond(Advance(c));
    if cond.Ok? {
      BlockNeedsBrace(cond.c);
      BlockPrints(cond.c);
    }
  }

  ghost predicate AreArms(arms: seq<A.MatchArm>, lit: bool) {
    forall arm <- arms :: P.IsPattern(arm.pattern) && IsPlain(arm.body, lit)
  }

  lemma {:induction false} MatchPrints(c: Cursor)
    requires c.Peek() == Match
    ensures var r := ParseMatch(c); r.Ok? ==> IsPart(r.value, c.lit)
    decreases c.Left(), 0
  {
    HeadPrints(Advance(c));
    var r := ParseHeadExpr(Advance(c));
    if r.Ok? && r.c.Check(LBrace) {
      ArmsPrint(Advance(r.c), []);
    }
  }

  lemma {:induction false} ArmsPrint(c: Cursor, arms: seq<A.MatchArm>)
    requires AreArms(arms, c.lit)
    ensures AreArms(ParseArms(c, arms).0, c.lit)
    decreases c.Left(), 40 + AtEndRank(c)
  {
    if LoopEnds(c) {
    } else if c.Check(Comma) || c.Check(Semicolon) {
      ArmsPrint(Advance(c), arms);
    } else {
      ArmPrints(c);
      match ParseArm(c)
      case Fail(c1) => ArmsPrint(Synchronize(c1), arms);
      case Ok(arm, c1) => ArmsPrint(c1, arms + [arm]);
    }
  }

  lemma {:induction false} ArmPrints(c: Cursor)
    ensures var r := ParseArm(c); r.Ok? ==> P.IsPattern(r.value.pattern) && IsPlain(r.value.body, c.lit)
    decreases c.Left(), 32
  {
    R.ReadPatternPrints(c);
    var r := ParsePattern(c);
    if r.Ok? && r.c.Check(FatArrow) {
      ExprPrints(Advance(r.c));
    }
  }

  // ----- Blocks and statements -----

  ghost predicate AreStmts(ss: seq<A.Stmt>, lit: bool) {
    forall s <- ss :: IsStmt(s, lit)
  }

  lemma {:induction false} BlockPrints(c: Cursor)
    ensures var r := ParseBlock(c); r.Ok? ==> IsBlock(r.value, c.lit)
    decreases c.Left(), 13
  {
    if c.Check(LBrace) {
      StmtsPrint(Advance(c), []);
    }
  }

  lemma {:induction false} StmtsPrint(c: Cursor, statements: seq<A.Stmt>)
    requires AreStmts(statements, c.lit)
    ensures var r := ParseStmts(c, statements); AreStmts(r.0, c.lit) && (r.1.Some? ==> IsPlain(r.1.value, c.lit))
    decreases c.Left(), 40 + AtEndRank(c)
  {
    if LoopEnds(c) {
    } else if c.Check(Semicolon) {
      StmtsPrint(Advance(c), statements);
    } else {
      StmtPrints(c);
      match ParseStmt(c)
      case Fail(c1) => StmtsPrint(Synchronize(c1), statements);
      case Ok(stmt, c1) =>
        if !(stmt.ExprStmt? && LoopEnds(c1)) {
          StmtsPrint(EndStmt(c1), statements + [stmt]);
        }
    }
  }

  lemma {:induction false} StmtPrints(c: Cursor)
    ensures var r := ParseStmt(c); r.Ok? ==> IsStmt(r.value, c.lit)
    decreases c.Left(), 32
  {
    match ScanLead(c.ts, 0)
    case DeclLead => DeclPrints(c);
    case ReassignLead => ReassignPrints(c);
    case NoLead => ExprPrints(c);
  }

  lemma {:induction false} DeclPrints(c: Cursor)
    requires ScanLead(c.ts, 0) == DeclLead
    ensures var r := ParseStmt(c); r.Ok? ==> IsStmt(r.value, c.lit)
    decreases c.Left(), 31
  {
    R.ReadPatternPrints(c);
    var p := ParsePattern(c);
    if p.Ok? {
      if p.c.Check(Colon) { TypeIsShaped(Advance(p.c)); }
      var t := ParseAscription(p.c);
      if t.Ok? && t.c.Check(ColonEq) {
        ExprPrints(Advance(t.c));
      }
    }
  }

  lemma {:induction false} ReassignPrints(c: Cursor)
    requires ScanLead(c.ts, 0) == ReassignLead
    ensures var r := ParseStmt(c); r.Ok? ==> IsStmt(r.value, c.lit)
    decreases c.Left(), 32, 0
  {
    ExprPrints(c);
    var place := ParseExpr(c);
    if place.Ok? && (place.c.Check(Eq) || IsCompoundAssign(place.c.Peek())) {
      NotBare(place.value, place.c, c.lit);
      ExprPrints(Advance(place.c));
      CompoundIs(place.c.Peek());
    }
  }

  lemma CompoundIs(kind: Kind)
    ensures IsCompound(CompoundOp(kind))
  {
  }

  /** Every expression that is read, from whatever words, reads back from its print. */
  lemma ExprReadsAgain(c: Cursor, c1: Cursor, k: Stream)
    requires ParseExpr(c).Ok? && c1.lit == c.lit
    requires var e := ParseExpr(c).value;
      c1.bank == 0 && c1.ts == Bare(e, k) && Follows(-1, k, c1.lit) && Stops(e, k)
    ensures ParseExpr(c1) == Ok(ParseExpr(c).value, c1.(ts := k))
  {
    ExprPrints(c);
    E.ExpressionRoundTrip(ParseExpr(c).value, k, c1);
  }

  /** And so does every block. */
  lemma BlockReadsAgain(c: Cursor, c1: Cursor, k: Stream)
    requires ParseBlock(c).Ok? && c1.lit == c.lit
    requires c1.bank == 0 && c1.ts == PrintBlock(ParseBlock(c).value, k)
    ensures ParseBlock(c1) == Ok(ParseBlock(c).value, c1.(ts := k))
  {
    BlockPrints(c);
    E.BlockReads(ParseBlock(c).value, k, c1);
  }

  // ----- Items -----

  /** What an item rule gives can be printed. */
  ghost predicate GivesItem(r: Parsed<A.Item>) {
    r.Ok? ==> I.IsItem(r.value)
  }

  ghost predicate AreItems(items: seq<A.Item>) {
    forall i <- items :: I.IsItem(i)
  }

  ghost predicate AreMethods(items: seq<A.Item>) {
    forall m <- items :: m.FnItem? && !m.isPub && I.IsItem(m)
  }

  lemma {:induction false} ItemPrints(c: Cursor)
    requires c.lit
    ensures GivesItem(ParseItem(c))
    decreases c.Left(), 1
  {
    var c1 := if c.Check(Pub) then Advance(c) else c;
    if c1.Peek() == Fn {
      FnPrints(c1, c.Check(Pub));
    } else if c1.Peek() == Mod {
      ModPrints(Advance(c1), c.Check(Pub));
    } else if c1.Peek() == Static || c1.Peek() == Const {
      ValueItemPrints(Advance(c1));
    } else {
      FlatItemPrints(c1, c.Check(Pub));
    }
  }

  lemma ValueItemPrints(c: Cursor)
    requires c.lit
    ensures var r := ParseValueItem(c); r.Ok? ==> IsType(r.value.1) && IsPlain(r.value.2, true)
  {
    FieldPrintsOne(c);
    var r := ParseStructField(c);
    if r.Ok? && r.c.Check(Eq) {
      ExprPrints(Advance(r.c));
    }
  }

  lemma FieldPrintsOne(c: Cursor)
    ensures var r := ParseStructField(c); r.Ok? ==> IsType(r.value.fieldType)
  {
    var r := ParseIdent(c);
    if r.Ok? && r.c.Check(Colon) { TypeIsShaped(Advance(r.c)); }
  }

  lemma FlatItemPrints(c: Cursor, isPub: bool)
    requires c.lit
    ensures GivesItem(ParseFlatItem(c, isPub))
  {
    if c.Peek() == Impl {
      ImplPrints(Advance(c), isPub);
    } else if c.Peek() == Struct {
      StructPrints(Advance(c), isPub);
    } else if c.Peek() == Enum {
      EnumPrints(Advance(c), isPub);
    }
  }

  lemma StructPrints(c: Cursor, isPub: bool)
    ensures GivesItem(ParseStruct(c, isPub))
  {
    var r := ParseIdent(c);
    if r.Ok? && r.c.Check(LBrace) { FieldsPrint(Advance(r.c), []); }
  }

  lemma {:induction false} FieldsPrint(c: Cursor, fields: seq<A.StructField>)
    requires I.AreFields(fields)
    ensures var r := ParseStructFields(c, fields); r.Ok? ==> I.AreFields(r.value)
    decreases c.Left()
  {
    if !LoopEnds(c) {
      FieldPrintsOne(c);
      var r := ParseStructField(c);
      if r.Ok? && r.c.Check(Comma) { FieldsPrint(Advance(r.c), fields + [r.value]); }
    }
  }

  ghost predicate AreVariants(vs: seq<A.EnumVariant>) {
    forall v <- vs :: V.IsVariant(v)
  }

  lemma EnumPrints(c: Cursor, isPub: bool)
    ensures GivesItem(ParseEnum(c, isPub))
  {
    var r := ParseIdent(c);
    if r.Ok? && r.c.Check(LBrace) { VariantsPrint(Advance(r.c), []); }
  }

  lemma {:induction false} VariantsPrint(c: Cursor, variants: seq<A.EnumVariant>)
    requires AreVariants(variants)
    ensures var r := ParseVariants(c, variants); r.Ok? ==> AreVariants(r.value)
    decreases c.Left()
  {
    if !LoopEnds(c) {
      VariantPrints(c);
      var r := ParseVariant(c);
      if r.Ok? && r.c.Check(Comma) { VariantsPrint(Advance(r.c), variants + [r.value]); }
    }
  }

  lemma VariantPrints(c: Cursor)
    ensures var r := ParseVariant(c); r.Ok? ==> V.IsVariant(r.value)
  {
    var r := ParseIdent(c);
    if r.Ok? && r.c.Check(LParen) && !Advance(r.c).Check(RParen) { PayloadPrints(Advance(r.c), []); }
  }

  lemma {:induction false} PayloadPrints(c: Cursor, fields: seq<A.Type>)
    requires AreShaped(fields)
    ensures var r := ParsePayloadTypes(c, fields); r.Ok? ==> AreShaped(r.value)
    decreases c.Left()
  {
    TypeIsShaped(c);
    var r := ParseType(c);
    if r.Ok? && r.c.Check(Comma) && !Advance(r.c).Check(RParen) {
      PayloadPrints(Advance(r.c), fields + [r.value]);
    }
  }

  lemma ImplPrints(c: Cursor, isPub: bool)
    requires c.lit
    ensures GivesItem(ParseImpl(c, isPub))
  {
    TypeIsShaped(c);
    var r := ParseClosedType(c);
    if r.Ok? && r.c.Check(LBrace) { MethodsPrint(Advance(r.c), []); }
  }

  lemma {:induction false} MethodsPrint(c: Cursor, methods: seq<A.Item>)
    requires c.lit && AreMethods(methods)
    ensures AreMethods(ParseMethods(c, methods).0)
    decreases c.Left(), AtEndRank(c)
  {
    if LoopEnds(c) {
    } else if c.Check(Semicolon) {
      MethodsPrint(Advance(c), methods);
    } else {
      FnPrints(c, false);
      match ParseFn(c, false)
      case Fail(c1) => MethodsPrint(Synchronize(c1), methods);
      case Ok(m, c1) => MethodsPrint(c1, methods + [m]);
    }
  }

  lemma FnPrints(c: Cursor, isPub: bool)
    requires c.lit
    ensures var r := ParseFn(c, isPub); r.Ok? ==> r.value.FnItem? && r.value.isPub == isPub && I.IsItem(r.value)
  {
    if c.Check(Fn) && Advance(c).Check(Ident) && Advance(Advance(c)).Check(LParen) {
      var c3 := Advance(Advance(Advance(c)));
      ParamsPrint(c3);
      var r := ParseParams(c3);
      if r.Ok? { FnRestPrints(r.c, isPub, Advance(c).ts.head.spelling, r.value); }
    }
  }

  lemma FnRestPrints(c: Cursor, isPub: bool, name: string, params: seq<A.FnParam>)
    requires c.lit && I.AreParams(params)
    ensures var r := ParseFnRest(c, isPub, name, params);
      r.Ok? ==> r.value.FnItem? && r.value.isPub == isPub && I.IsItem(r.value)
  {
    if c.Check(Arrow) { TypeIsShaped(Advance(c)); }
    var r := ParseReturnType(c);
    if r.Ok? { BlockPrints(r.c); }
  }

  lemma ParamsPrint(c: Cursor)
    ensures var r := ParseParams(c); r.Ok? ==> I.AreParams(r.value)
  {
    if !c.Check(RParen) { ParamListPrints(c, []); }
  }

  lemma {:induction false} ParamListPrints(c: Cursor, params: seq<A.FnParam>)
    requires I.AreParams(params)
    ensures var r := ParseParamList(c, params); r.Ok? ==> I.AreParams(r.value)
    decreases c.Left()
  {
    ParamPrints(c);
    var r := ParseParam(c);
    if r.Ok? && r.c.Check(Comma) && !Advance(r.c).Check(RParen) {
      ParamListPrints(Advance(r.c), params + [r.value]);
    }
  }

  lemma ParamPrints(c: Cursor)
    ensures var r := ParseParam(c); r.Ok? ==> P.IsPattern(r.value.pattern) && IsType(r.value.paramType)
  {
    R.ReadPatternPrints(c);
    var r := ParsePattern(c);
    if r.Ok? && r.c.Check(Colon) { TypeIsShaped(Advance(r.c)); }
  }

  lemma {:induction false} ModPrints(c: Cursor, isPub: bool)
    requires c.lit
    ensures GivesItem(ParseMod(c, isPub))
    decreases c.Left(), 0
  {
    var r := ParseIdent(c);
    if r.Ok? && r.c.Check(LBrace) { ItemsPrint(Advance(r.c), true, []); }
  }

  lemma {:induction false} ItemsPrint(c: Cursor, inModule: bool, items: seq<A.Item>)
    requires c.lit && AreItems(items)
    ensures AreItems(ParseItems(c, inModule, items).0)
    decreases c.Left(), 40 + AtEndRank(c)
  {
    if c.AtEnd() || (inModule && c.Check(RBrace)) {
    } else if c.Check(Semicolon) {
      ItemsPrint(Advance(c), inModule, items);
    } else {
      ItemPrints(c);
      match ParseItem(c)
      case Fail(c1) => ItemsPrint(Synchronize(c1), inModule, items);
      case Ok(item, c1) => ItemsPrint(c1, inModule, items + [item]);
    }
  }

  /** Whatever the tokens, and however much of them does not parse: the print of the items
      read is read as the same items again, without diagnostics. */
  lemma FileReadsAgain(tokens: TokenList, printed: TokenList)
    requires ReservedAhead(printed, 0) == 0
    requires Words(printed, 0) == I.PrintItems(ParseFile(tokens).0, More(Word(Eof, "", 0), End))
    ensures ParseFile(printed).0 == ParseFile(tokens).0 && ParseFile(printed).1.diags == 0
  {
    ItemsPrint(Cursor(Words(tokens, 0), 0, true, ReservedAhead(tokens, 0)), false, []);
    I.FileRoundTrip(ParseFile(tokens).0, printed);
  }
}
