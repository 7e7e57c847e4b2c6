/** Reading back printed expressions, statements and blocks. */
module ExprRoundTrip {
  import opened Options
  import opened Tokens
  import opened Grammar
  import opened TypeSyntax
  import opened ExprSyntax
  import opened FormSteps
  import opened Lookahead
  import P = PatternSyntax
  import R = PatternRoundTrip
  import T = TypeRoundTrip
  import A = Ast

  lemma PathParses(path: A.Path, k: Stream, c: Cursor)
    requires path != [] && c.ts == PrintPath(path, k) && c.bank == 0
    requires k.More? && k.head.kind != ColonColon
    ensures ParsePath(c, []) == Ok(path, c.(ts := k))
  {
    T.PrintedPathReads(path, c, k);
  }

  lemma TargetParses(t: A.Type, k: Stream, c: Cursor)
    requires IsType(t) && c.ts == PrintTarget(t, k) && c.bank == 0 && k.More?
    ensures ParseClosedType(c) == Ok(t, c.(ts := k))
  {
    if IsDelimited(t) {
      T.PrintedTypeReads(t, c, k);
    } else {
      var close := More(RPAREN, k);
      var inside := PrintType(t, close);
      Step(LPAREN, inside, c);
      TypeHead(t, close);
      assert !Advance(c).Check(RParen);
      T.PrintedTypeReads(t, Advance(c), close);
      assert ParseType(Advance(c)) == Ok(t, c.(ts := close));
      Step(RPAREN, k, c.(ts := close));
      assert ParseParenthesizedType(c) == Ok(t, c.(ts := k));
    }
  }

  // ----- Rungs -----

  /** Fit to be an operand, but for a bare `ret` by itself. */
  predicate IsOnRung(level: int, e: A.Expr, lit: bool) {
    IsPlain(e, lit) && (EndsBare(e) ==> Level(e) >= level)
  }

  /** An expression printed on a rung reads back on that rung. */
  lemma {:induction false} PrintedReads(level: int, e: A.Expr, k: Stream, c: Cursor)
    requires 0 <= level <= POSTFIX && IsOperand(level, e, c.lit) && MayStop(e, k) && c.bank == 0
    requires c.ts == Print(level, e, k) && Follows(level, k, c.lit)
    ensures ParseAt(level, c) == Ok(e, c.(ts := k))
    decreases e, if NeedsParens(level, e) then 1 else 0, 60 - 3 * level
  {
    if EndsBare(e) && e.ReturnExpr? {
      BareReturnPrints(level, e, k, c.lit);
      BareReturnReads(level, e.result, k, c);
    } else {
      RungReads(level, e, k, c);
    }
  }

  lemma BareReturnPrints(level: int, e: A.Expr, k: Stream, lit: bool)
    requires EndsBare(e) && e.ReturnExpr? && IsPlain(e, lit)
    ensures Print(level, e, k) == More(RET, PrintResult(e.result, k))
    ensures e.result.Some? ==> IsPlain(e.result.value, lit) && EndsBare(e.result.value)
  {
    assert Bare(e, k) == PrintForm(e, k);
    assert IsForm(e, lit);
  }

  lemma {:induction false} RungReads(level: int, e: A.Expr, k: Stream, c: Cursor)
    requires 0 <= level <= POSTFIX && IsOnRung(level, e, c.lit) && MayStop(e, k) && c.bank == 0
    requires c.ts == Print(level, e, k) && Follows(level, k, c.lit)
    ensures ParseAt(level, c) == Ok(e, c.(ts := k))
    decreases e, if NeedsParens(level, e) then 1 else 0, 59 - 3 * level
  {
    if level == POSTFIX {
      PostfixReads(e, k, c);
      PostfixEnds(e, k, c.(ts := k));
    } else if level == UNARY {
      UnaryReads(e, k, c);
    } else if level == CAST {
      CastReads(e, k, c);
    } else if level == POW {
      PowReads(e, k, c);
    } else if level == CMP {
      ComparisonReads(e, k, c);
    } else {
      SpineReads(level, e, k, c);
      ChainEnd(level, e, k, c.(ts := k));
    }
  }

  /** Each operator is the one its word stands for, on its own rung only. */
  lemma OpReads(op: A.BinaryOp, lit: bool)
    ensures op != A.Pow ==> OpAt(OpLevel(op), BinaryWord(op).kind) == Some(op)
    ensures Extends(BinaryWord(op).kind, lit) == OpLevel(op)
    ensures BinaryWord(op).reserved == 0 && BinaryWord(op).kind != Eof
  {
  }

  lemma NoOp(level: nat, kind: Kind, lit: bool)
    requires Extends(kind, lit) < level <= POW
    ensures OpAt(level, kind).None?
  {
  }

  lemma ChainStep(level: int, op: A.BinaryOp, lhs: A.Expr, rhs: A.Expr, c: Cursor, c1: Cursor)
    requires 0 <= level < POW && level != CMP && OpAt(level, c.Peek()) == Some(op)
    requires ParseBinary(level + 1, Advance(c)) == Ok(rhs, c1)
    ensures ParseBinaryRest(level, lhs, c) == ParseBinaryRest(level, A.BinaryExpr(op, lhs, rhs), c1)
  {
  }

  lemma ChainStart(level: int, lhs: A.Expr, c: Cursor, c1: Cursor)
    requires 0 <= level < POW && level != CMP && ParseBinary(level + 1, c) == Ok(lhs, c1)
    ensures ParseBinary(level, c) == ParseBinaryRest(level, lhs, c1)
  {
  }

  lemma ChainEnd(level: int, e: A.Expr, k: Stream, c: Cursor)
    requires 0 <= level < POW && level != CMP
    requires c.ts == k && Follows(level, k, c.lit)
    ensures ParseBinaryRest(level, e, c) == Ok(e, c)
  {
    NoOp(level, k.head.kind, c.lit);
  }

  /** On a left-associative rung, reading the printed form of `e` is like having `e` as the
      left operand already. */
  lemma {:induction false} SpineReads(level: int, e: A.Expr, k: Stream, c: Cursor)
    requires 0 <= level < POW && level != CMP && IsOnRung(level, e, c.lit) && MayStop(e, k) && c.bank == 0
    requires c.ts == Print(level, e, k) && Follows(level + 1, k, c.lit)
    ensures ParseBinary(level, c) == ParseBinaryRest(level, e, c.(ts := k))
    decreases e, if NeedsParens(level, e) then 1 else 0, 58 - 3 * level
  {
    if Level(e) == level {
      var right := Print(level + 1, e.rhs, k);
      var next := More(BinaryWord(e.op), right);
      OpReads(e.op, c.lit);
      SpineReads(level, e.lhs, next, c);
      var c1 := c.(ts := next);
      Step(BinaryWord(e.op), right, c1);
      PrintedReads(level + 1, e.rhs, k, Advance(c1));
      ChainStep(level, e.op, e.lhs, e.rhs, c1, c.(ts := k));
    } else {
      PrintedReads(level + 1, e, k, c);
      ChainStart(level, e, c, c.(ts := k));
    }
  }

  lemma {:induction false} ComparisonReads(e: A.Expr, k: Stream, c: Cursor)
    requires IsOnRung(CMP, e, c.lit) && MayStop(e, k) && c.bank == 0
    requires c.ts == Print(CMP, e, k) && Follows(CMP, k, c.lit)
    ensures ParseBinary(CMP, c) == Ok(e, c.(ts := k))
    decreases e, if NeedsParens(CMP, e) then 1 else 0, 58 - 3 * CMP
  {
    if Level(e) == CMP {
      var right := Print(BIT_OR, e.rhs, k);
      var next := More(BinaryWord(e.op), right);
      PrintedReads(BIT_OR, e.lhs, next, c);
      var c1 := c.(ts := next);
      Step(BinaryWord(e.op), right, c1);
      PrintedReads(BIT_OR, e.rhs, k, Advance(c1));
      OpReads(e.op, c.lit);
      CompareStep(e.op, e.lhs, e.rhs, c, c1, c.(ts := k));
    } else {
      PrintedReads(BIT_OR, e, k, c);
      NoOp(CMP, k.head.kind, c.lit);
    }
  }

  lemma CompareStep(op: A.BinaryOp, lhs: A.Expr, rhs: A.Expr, c: Cursor, c1: Cursor, c2: Cursor)
    requires ParseBinary(BIT_OR, c) == Ok(lhs, c1) && OpAt(CMP, c1.Peek()) == Some(op)
    requires ParseBinary(BIT_OR, Advance(c1)) == Ok(rhs, c2)
    ensures ParseBinary(CMP, c) == Ok(A.BinaryExpr(op, lhs, rhs), c2)
  {
  }

  lemma {:induction false} PowReads(e: A.Expr, k: Stream, c: Cursor)
    requires IsOnRung(POW, e, c.lit) && MayStop(e, k) && c.bank == 0
    requires c.ts == Print(POW, e, k) && Follows(POW, k, c.lit)
    ensures ParseBinary(POW, c) == Ok(e, c.(ts := k))
    decreases e, if NeedsParens(POW, e) then 1 else 0, 58 - 3 * POW
  {
    if Level(e) == POW {
      var right := Print(POW, e.rhs, k);
      var next := More(BinaryWord(A.Pow), right);
      PrintedReads(CAST, e.lhs, next, c);
      var c1 := c.(ts := next);
      Step(BinaryWord(A.Pow), right, c1);
      PrintedReads(POW, e.rhs, k, Advance(c1));
    } else {
      PrintedReads(CAST, e, k, c);
    }
  }

  lemma {:induction false} CastReads(e: A.Expr, k: Stream, c: Cursor)
    requires IsOnRung(CAST, e, c.lit) && MayStop(e, k) && c.bank == 0
    requires c.ts == Print(CAST, e, k) && Follows(CAST, k, c.lit)
    ensures ParseCast(c) == Ok(e, c.(ts := k))
    decreases e, if NeedsParens(CAST, e) then 1 else 0, 58 - 3 * CAST
  {
    if e.CastExpr? {
      var right := PrintTarget(e.target, k);
      var next := More(AS, right);
      PrintedReads(UNARY, e.inner, next, c);
      var c1 := c.(ts := next);
      Step(AS, right, c1);
      TargetParses(e.target, k, Advance(c1));
    } else {
      PrintedReads(UNARY, e, k, c);
    }
  }

  lemma {:induction false} UnaryReads(e: A.Expr, k: Stream, c: Cursor)
    requires IsOnRung(UNARY, e, c.lit) && MayStop(e, k) && c.bank == 0
    requires c.ts == Print(UNARY, e, k) && Follows(UNARY, k, c.lit)
    ensures ParseUnary(c) == Ok(e, c.(ts := k))
    decreases e, if NeedsParens(UNARY, e) then 1 else 0, 58 - 3 * UNARY
  {
    if e.UnaryExpr? {
      NegationReads(e.uop, e.inner, k, c);
    } else if e.BorrowExpr? {
      BorrowReads(e.isMut, e.inner, k, c);
    } else {
      PrintHead(POSTFIX, e, k, c.lit);
      PrintedReads(POSTFIX, e, k, c);
    }
  }

  lemma {:induction false} NegationReads(op: A.UnaryOp, inner: A.Expr, k: Stream, c: Cursor)
    requires IsOperand(UNARY, inner, c.lit) && MayStop(inner, k) && c.bank == 0
    requires c.ts == More(UnaryWord(op), Print(UNARY, inner, k)) && Follows(UNARY, k, c.lit)
    ensures ParseUnary(c) == Ok(A.UnaryExpr(op, inner), c.(ts := k))
    decreases inner, 2
  {
    Step(UnaryWord(op), Print(UNARY, inner, k), c);
    PrintedReads(UNARY, inner, k, Advance(c));
  }

  lemma {:induction false} BorrowReads(isMut: bool, inner: A.Expr, k: Stream, c: Cursor)
    requires IsOperand(UNARY, inner, c.lit) && MayStop(inner, k) && c.bank == 0 && Follows(UNARY, k, c.lit)
    requires var right := Print(UNARY, inner, k); c.ts == More(AMP, if isMut then More(MUT, right) else right)
    ensures ParseUnary(c) == Ok(A.BorrowExpr(isMut, inner), c.(ts := k))
    decreases inner, 2
  {
    var right := Print(UNARY, inner, k);
    PrintHead(UNARY, inner, k, c.lit);
    if isMut {
      Step(AMP, More(MUT, right), c);
      Step(MUT, right, Advance(c));
    } else {
      Step(AMP, right, c);
    }
    PrintedReads(UNARY, inner, k, c.(ts := right));
    BorrowStep(isMut, c, c.(ts := right));
  }

  // ----- Postfix forms -----

  /** Reading the printed form of a tightest expression is like having it as the receiver
      already, whatever postfix forms come next. */
  predicate Carries(e: A.Expr, k: Stream, lit: bool) {
    k.More? && k.head.kind != ColonColon && k.head.kind != Else && !(k.head.kind == LBrace && lit)
    && !(IsNamedField(e) && k.head.kind == LParen)
  }

  lemma {:induction false} PostfixReads(e: A.Expr, k: Stream, c: Cursor)
    requires IsPart(e, c.lit) && c.bank == 0
    requires c.ts == Print(POSTFIX, e, k) && (Carries(e, k, c.lit) || NeedsParens(POSTFIX, e))
    ensures ParsePostfix(c) == ParsePostfixRest(e, c.(ts := k))
    decreases e, if NeedsParens(POSTFIX, e) then 1 else 0, 3
  {
    if NeedsParens(POSTFIX, e) {
      ParenthesizedReads(e, k, c);
    } else {
      TightReads(e, k, c);
    }
  }

  lemma PostfixEnds(e: A.Expr, k: Stream, c: Cursor)
    requires c.ts == k && Follows(POSTFIX, k, c.lit)
    ensures ParsePostfixRest(e, c) == Ok(e, c) && Carries(e, k, c.lit)
  {
  }

  /** A `ret` without a value at the end of another expression. */
  lemma {:induction false} BareReturnReads(level: nat, result: Option<A.Expr>, k: Stream, c: Cursor)
    requires level <= POSTFIX && (result.Some? ==> IsPlain(result.value, c.lit) && EndsBare(result.value))
    requires k.More? && k.head.kind in {Semicolon, RBrace, Eof} && c.bank == 0 && c.ts == More(RET, PrintResult(result, k))
    ensures ParseAt(level, c) == Ok(A.ReturnExpr(result), c.(ts := k))
    decreases result, 1
  {
    if result.Some? { BareIsClosed(result.value); }
    ReturnReads(result, k, c);
    PrimaryIsAt(level, A.ReturnExpr(result), c, c.(ts := k));
  }

  lemma BareIsClosed(e: A.Expr)
    requires EndsBare(e)
    ensures !IsOpen(e)
  {
  }

  lemma {:induction false} TightReads(e: A.Expr, k: Stream, c: Cursor)
    requires Level(e) == POSTFIX && IsPart(e, c.lit) && c.bank == 0
    requires c.ts == Bare(e, k) && Carries(e, k, c.lit)
    ensures ParsePostfix(c) == ParsePostfixRest(e, c.(ts := k))
    decreases e, 0, 2
  {
    if e.LiteralExpr? {
      Step(P.LiteralWord(e.value), k, c);
    } else if e.PathExpr? {
      PathReads(e.path, k, c, e);
    } else if e.CallExpr? {
      CallReads(e.callee, e.args, k, c, e);
    } else if e.MethodCallExpr? {
      MethodCallReads(e.receiver, e.name, e.args, k, c, e);
    } else if e.FieldExpr? {
      FieldReads(e.receiver, e.name, k, c, e);
    } else if e.IndexExpr? {
      IndexReads(e.receiver, e.index, k, c, e);
    } else if e.QuestionExpr? {
      QuestionReads(e.inner, k, c, e);
    } else if e.TupleExpr? {
      TupleReads(e.elements, k, c, e);
    } else {
      FormReads(e, k, c);
    }
  }

  lemma {:induction false} ParenthesizedReads(e: A.Expr, k: Stream, c: Cursor)
    requires IsPart(e, c.lit) && c.bank == 0
    requires c.ts == InParens(e, k)
    ensures ParsePrimary(c) == Ok(e, c.(ts := k)) && ParsePostfix(c) == ParsePostfixRest(e, c.(ts := k))
    decreases e, 0, 63
  {
    var close := More(RPAREN, k);
    var inside := Bare(e, close);
    Step(LPAREN, inside, c);
    PartReads(e, close, Advance(c));
    Step(RPAREN, k, c.(ts := close));
    assert ParseParenthesized(c) == Ok(e, c.(ts := k));
  }

  /** A whole expression. */
  lemma {:induction false} WholeReads(e: A.Expr, k: Stream, c: Cursor)
    requires IsPlain(e, c.lit) && c.bank == 0
    requires c.ts == Bare(e, k) && Follows(-1, k, c.lit) && Stops(e, k)
    ensures ParseExpr(c) == Ok(e, c.(ts := k))
    decreases e, 0, 61
  {
    if Level(e) < OR {
      LooseReads(e, k, c);
    } else {
      PrintHead(OR, e, k, c.lit);
      PrintedReads(OR, e, k, c);
    }
  }

  /** An expression that is part of another, up to a comma or a closing bracket. */
  lemma {:induction false} PartReads(e: A.Expr, k: Stream, c: Cursor)
    requires IsPart(e, c.lit) && c.bank == 0
    requires c.ts == Bare(e, k) && k.More? && k.head in {COMMA, RPAREN, RBRACKET, RBRACE}
    ensures ParseExpr(c) == Ok(e, c.(ts := k))
    decreases e, 0, 62
  {
    WholeReads(e, k, c);
  }

  /** A path before `(` is read as the callee at once, with the same outcome. */
  lemma PathReads(path: A.Path, k: Stream, c: Cursor, e: A.Expr)
    requires e == A.PathExpr(path) && IsPart(e, c.lit) && c.bank == 0
    requires c.ts == Bare(e, k) && Carries(e, k, c.lit)
    ensures ParsePostfix(c) == ParsePostfixRest(e, c.(ts := k))
  {
    PathParses(path, k, c);
    var c1 := c.(ts := k);
    assert ParsePath(c, []) == Ok(path, c1);
    if c1.Check(LParen) {
      CalledPathStep(path, c, c1);
    } else {
      PathStep(path, c, c1);
    }
  }

  lemma CalledPathStep(path: A.Path, c: Cursor, c1: Cursor)
    requires IsPathSegment(c.Peek()) && ParsePath(c, []) == Ok(path, c1) && c1.Check(LParen)
    ensures ParsePostfix(c) == ParsePostfixRest(A.PathExpr(path), c1)
  {
    match ParseArgs(Advance(c1))
    case Fail(c2) =>
      assert ParsePathExpr(c) == Fail(c2);
    case Ok(args, c2) =>
      assert ParsePathExpr(c) == Ok(A.CallExpr(A.PathExpr(path), args), c2);
  }

  lemma {:induction false} CallReads(callee: A.Expr, args: seq<A.Expr>, k: Stream, c: Cursor, e: A.Expr)
    requires e == A.CallExpr(callee, args) && IsPart(e, c.lit) && c.bank == 0
    requires c.ts == Bare(e, k) && k.More?
    ensures ParsePostfix(c) == ParsePostfixRest(e, c.(ts := k))
    decreases e, 0, 0
  {
    var list := PrintList(args, More(RPAREN, k));
    var next := More(LPAREN, list);
    if IsNamedField(callee) {
      ParenthesizedReads(callee, next, c);
    } else {
      PostfixReads(callee, next, c);
    }
    var c1 := c.(ts := next);
    Step(LPAREN, list, c1);
    ArgsRead(args, k, Advance(c1));
    CallStep(callee, args, c1, c.(ts := k));
  }

  lemma CallStep(callee: A.Expr, args: seq<A.Expr>, c: Cursor, c1: Cursor)
    requires c.Check(LParen) && ParseArgs(Advance(c)) == Ok(args, c1)
    ensures ParsePostfixRest(callee, c) == ParsePostfixRest(A.CallExpr(callee, args), c1)
  {
  }

  lemma {:induction false} MethodCallReads(receiver: A.Expr, name: string, args: seq<A.Expr>, k: Stream, c: Cursor, e: A.Expr)
    requires e == A.MethodCallExpr(receiver, name, args) && IsPart(e, c.lit) && c.bank == 0
    requires c.ts == Bare(e, k) && k.More?
    ensures ParsePostfix(c) == ParsePostfixRest(e, c.(ts := k))
    decreases e, 0, 0
  {
    var list := PrintList(args, More(RPAREN, k));
    var named := More(Word(Ident, name, 0), More(LPAREN, list));
    var next := More(DOT, named);
    PostfixReads(receiver, next, c);
    var c1 := c.(ts := next);
    Step(DOT, named, c1);
    Step(Word(Ident, name, 0), More(LPAREN, list), Advance(c1));
    Step(LPAREN, list, Advance(Advance(c1)));
    ArgsRead(args, k, Advance(Advance(Advance(c1))));
    MethodCallStep(receiver, args, c1, c.(ts := k));
  }

  lemma MethodCallStep(receiver: A.Expr, args: seq<A.Expr>, c: Cursor, c1: Cursor)
    requires c.Check(Dot) && Advance(c).Check(Ident) && Advance(Advance(c)).Check(LParen)
    requires ParseArgs(Advance(Advance(Advance(c)))) == Ok(args, c1)
    ensures ParsePostfixRest(receiver, c)
      == ParsePostfixRest(A.MethodCallExpr(receiver, Advance(c).ts.head.spelling, args), c1)
  {
  }

  lemma {:induction false} FieldReads(receiver: A.Expr, name: string, k: Stream, c: Cursor, e: A.Expr)
    requires e == A.FieldExpr(receiver, name) && IsPart(e, c.lit) && c.bank == 0
    requires c.ts == Bare(e, k) && Carries(e, k, c.lit)
    ensures ParsePostfix(c) == ParsePostfixRest(e, c.(ts := k))
    decreases e, 0, 0
  {
    var named := More(FieldWord(name), k);
    var next := More(DOT, named);
    PostfixReads(receiver, next, c);
    var c1 := c.(ts := next);
    Step(DOT, named, c1);
    Step(FieldWord(name), k, Advance(c1));
    FieldStep(receiver, c1);
  }

  lemma FieldStep(receiver: A.Expr, c: Cursor)
    requires c.Check(Dot) && (Advance(c).Check(Integer) || Advance(c).Check(Ident))
    requires Advance(c).Check(Ident) ==> !Advance(Advance(c)).Check(LParen)
    ensures ParsePostfixRest(receiver, c)
      == ParsePostfixRest(A.FieldExpr(receiver, Advance(c).ts.head.spelling), Advance(Advance(c)))
  {
  }

  lemma {:induction false} IndexReads(receiver: A.Expr, index: A.Expr, k: Stream, c: Cursor, e: A.Expr)
    requires e == A.IndexExpr(receiver, index) && IsPart(e, c.lit) && c.bank == 0
    requires c.ts == Bare(e, k) && k.More?
    ensures ParsePostfix(c) == ParsePostfixRest(e, c.(ts := k))
    decreases e, 0, 0
  {
    var close := More(RBRACKET, k);
    var inside := Bare(index, close);
    var next := More(LBRACKET, inside);
    PostfixReads(receiver, next, c);
    var c1 := c.(ts := next);
    Step(LBRACKET, inside, c1);
    PartReads(index, close, Advance(c1));
    Step(RBRACKET, k, c.(ts := close));
    IndexStep(receiver, index, c1, c.(ts := close));
  }

  lemma IndexStep(receiver: A.Expr, index: A.Expr, c: Cursor, c1: Cursor)
    requires c.Check(LBracket) && ParseExpr(Advance(c)) == Ok(index, c1) && c1.Check(RBracket)
    ensures ParsePostfixRest(receiver, c) == ParsePostfixRest(A.IndexExpr(receiver, index), Advance(c1))
  {
  }

  lemma {:induction false} QuestionReads(inner: A.Expr, k: Stream, c: Cursor, e: A.Expr)
    requires e == A.QuestionExpr(inner) && IsPart(e, c.lit) && c.bank == 0
    requires c.ts == Bare(e, k) && k.More?
    ensures ParsePostfix(c) == ParsePostfixRest(e, c.(ts := k))
    decreases e, 0, 0
  {
    var next := More(QUESTION, k);
    PostfixReads(inner, next, c);
    Step(QUESTION, k, c.(ts := next));
  }

  // ----- Lists -----

  /** Call arguments with their closing parenthesis. */
  lemma {:induction false} ArgsRead(args: seq<A.Expr>, k: Stream, c: Cursor)
    requires (forall arg <- args :: IsPart(arg, c.lit)) && c.bank == 0
    requires c.ts == PrintList(args, More(RPAREN, k))
    ensures ParseArgs(c) == Ok(args, c.(ts := k))
    decreases args, 2
  {
    var close := More(RPAREN, k);
    if args == [] {
      Step(RPAREN, k, c);
    } else {
      assert IsPart(args[0], c.lit);
      BareHead(args[0], AfterFirstExpr(args, close), c.lit);
      ArgListReads(args, [], close, c);
      assert [] + args == args;
      Step(RPAREN, k, c.(ts := close));
    }
  }

  lemma {:induction false} ArgListReads(args: seq<A.Expr>, before: seq<A.Expr>, close: Stream, c: Cursor)
    requires args != [] && (forall arg <- args :: IsPart(arg, c.lit)) && c.bank == 0
    requires c.ts == PrintList(args, close) && close.More? && close.head == RPAREN
    ensures ParseArgList(c, before) == Ok(before + args, c.(ts := close))
    decreases args, 1
  {
    var more := AfterFirstExpr(args, close);
    PartReads(args[0], more, c);
    T.Regroup(before, args);
    ArgStep(before, args[0], c, c.(ts := more));
    if |args| > 1 {
      var later := PrintList(args[1..], close);
      Step(COMMA, later, c.(ts := more));
      assert IsPart(args[1], c.lit);
      NoArgsEnd(args[1..], close, c.(ts := later));
      ArgListReads(args[1..], before + [args[0]], close, c.(ts := later));
    }
  }

  lemma NoArgsEnd(args: seq<A.Expr>, close: Stream, c: Cursor)
    requires args != [] && IsPart(args[0], c.lit) && c.ts == PrintList(args, close)
    ensures !c.Check(RParen)
  {
    BareHead(args[0], AfterFirstExpr(args, close), c.lit);
  }

  lemma ArgStep(before: seq<A.Expr>, e: A.Expr, c: Cursor, c1: Cursor)
    requires ParseExpr(c) == Ok(e, c1)
    ensures ParseArgList(c, before) ==
      if !c1.Check(Comma) then Ok(before + [e], c1)
      else if Advance(c1).Check(RParen) then Ok(before + [e], Advance(c1))
      else ParseArgList(Advance(c1), before + [e])
  {
  }

  lemma {:induction false} TupleReads(elements: seq<A.Expr>, k: Stream, c: Cursor, e: A.Expr)
    requires e == A.TupleExpr(elements) && IsPart(e, c.lit) && c.bank == 0
    requires c.ts == Bare(e, k) && k.More?
    ensures ParsePostfix(c) == ParsePostfixRest(e, c.(ts := k))
    decreases e, 0, 0
  {
    var close := More(RPAREN, k);
    var later := PrintList(elements[1..], close);
    var next := More(COMMA, later);
    TuplePrints(elements, k);
    Step(LPAREN, Bare(elements[0], next), c);
    PartReads(elements[0], next, Advance(c));
    Step(COMMA, later, c.(ts := next));
    ElementsRead(elements[1..], [elements[0]], close, c.(ts := later));
    assert [elements[0]] + elements[1..] == elements;
    Step(RPAREN, k, c.(ts := close));
    TupleStep(elements, c, c.(ts := next), c.(ts := close));
  }

  lemma TuplePrints(elements: seq<A.Expr>, k: Stream)
    requires elements != []
    ensures Bare(A.TupleExpr(elements), k)
      == More(LPAREN, Bare(elements[0], More(COMMA, PrintList(elements[1..], More(RPAREN, k)))))
  {
    assert PrintList(elements, More(RPAREN, k)) == Bare(elements[0], AfterFirstExpr(elements, More(RPAREN, k)));
    assert |elements| == 1 ==> PrintList(elements[1..], More(RPAREN, k)) == More(RPAREN, k);
    assert |elements| != 1 ==>
      AfterFirstExpr(elements, More(RPAREN, k)) == More(COMMA, PrintList(elements[1..], More(RPAREN, k)));
  }

  lemma TupleStep(elements: seq<A.Expr>, c: Cursor, c1: Cursor, c2: Cursor)
    requires c.Peek() == LParen && elements != []
    requires ParseExpr(Advance(c)) == Ok(elements[0], c1) && c1.Check(Comma)
    requires ParseTuple(Advance(c1), [elements[0]]) == Ok(elements, c2) && c2.Check(RParen)
    ensures ParsePostfix(c) == ParsePostfixRest(A.TupleExpr(elements), Advance(c2))
  {
    assert ParseParenthesized(c) == Ok(A.TupleExpr(elements), Advance(c2));
    assert ParsePrimary(c) == Ok(A.TupleExpr(elements), Advance(c2));
  }

  lemma {:induction false} ElementsRead(elements: seq<A.Expr>, before: seq<A.Expr>, close: Stream, c: Cursor)
    requires (forall element <- elements :: IsPart(element, c.lit)) && c.bank == 0
    requires c.ts == PrintList(elements, close) && close.More? && close.head == RPAREN
    ensures ParseTuple(c, before) == Ok(before + elements, c.(ts := close))
    decreases elements, 1
  {
    if elements == [] {
      assert before + elements == before;
    } else {
      var more := AfterFirstExpr(elements, close);
      assert IsPart(elements[0], c.lit);
      BareHead(elements[0], more, c.lit);
      PartReads(elements[0], more, c);
      T.Regroup(before, elements);
      ElementStep(before, elements[0], c, c.(ts := more));
      if |elements| > 1 {
        var later := PrintList(elements[1..], close);
        Step(COMMA, later, c.(ts := more));
        ElementsRead(elements[1..], before + [elements[0]], close, c.(ts := later));
      }
    }
  }

  lemma ElementStep(before: seq<A.Expr>, e: A.Expr, c: Cursor, c1: Cursor)
    requires !c.Check(RParen) && !c.AtEnd() && ParseExpr(c) == Ok(e, c1)
    ensures ParseTuple(c, before)
      == if c1.Check(Comma) then ParseTuple(Advance(c1), before + [e]) else Ok(before + [e], c1)
  {
  }

  // ----- Ranges and returns -----

  lemma ResultBegins(e: A.Expr, k: Stream, c: Cursor)
    requires IsPlain(e, c.lit) && c.ts == Bare(e, k)
    ensures !c.Check(Semicolon) && !c.Check(RBrace) && !c.AtEnd()
  {
    BareHead(e, k, c.lit);
  }

  lemma {:induction false} ReturnReads(result: Option<A.Expr>, k: Stream, c: Cursor)
    requires (result.Some? ==> IsPlain(result.value, c.lit)) && c.bank == 0
    requires c.ts == More(RET, PrintResult(result, k)) && Follows(-1, k, c.lit) && Stops(A.ReturnExpr(result), k)
    ensures ParsePrimary(c) == Ok(A.ReturnExpr(result), c.(ts := k))
    decreases result, 0
  {
    Step(RET, PrintResult(result, k), c);
    if result.Some? {
      ResultBegins(result.value, k, Advance(c));
      WholeReads(result.value, k, Advance(c));
    }
    ReturnStep(result, c, c.(ts := k));
  }

  lemma BoundHead(bound: A.Expr, k: Stream, c: Cursor)
    requires IsOperand(OR, bound, c.lit) && c.ts == Print(OR, bound, k)
    ensures !IsRangeOp(c.Peek()) && !EndsRange(c)
  {
    PrintHead(OR, bound, k, c.lit);
  }

  predicate IsBound(bound: Option<A.Expr>, lit: bool) {
    bound.Some? ==> IsOperand(OR, bound.value, lit)
  }

  lemma RangeFollows(k: Stream, lit: bool)
    requires k.More? && IsRangeOp(k.head.kind)
    ensures Follows(OR, k, lit)
  {
  }

  lemma {:induction false} BoundReads(bound: A.Expr, k: Stream, c: Cursor)
    requires IsOperand(OR, bound, c.lit) && MayStop(bound, k) && c.bank == 0
    requires c.ts == Print(OR, bound, k) && Follows(OR, k, c.lit)
    ensures ParseBinary(OR, c) == Ok(bound, c.(ts := k))
    decreases bound, 2
  {
    PrintedReads(OR, bound, k, c);
  }

  lemma {:induction false} StartReads(start: Option<A.Expr>, k: Stream, c: Cursor)
    requires (start.Some? ==> IsPart(start.value, c.lit)) && c.bank == 0 && c.ts == PrintBound(start, k)
    requires k.More? && IsRangeOp(k.head.kind)
    ensures ParseExpr(c) == ParseRangeEnd(c.(ts := k), start)
    decreases start, 0
  {
    var c1 := c.(ts := k);
    if start.Some? {
      BoundHead(start.value, k, c);
      RangeFollows(k, c.lit);
      BoundReads(start.value, k, c);
    }
    RangeStart(start, c, c1);
  }

  lemma {:induction false} EndReads(start: Option<A.Expr>, end: Option<A.Expr>, inclusive: bool, k: Stream, c: Cursor)
    requires IsBound(end, c.lit) && c.bank == 0 && c.ts == More(RangeWord(end, inclusive), PrintBound(end, k))
    requires Follows(-1, k, c.lit) && Stops(A.RangeExpr(start, end, inclusive), k)
    ensures ParseRangeEnd(c, start) == Ok(A.RangeExpr(start, end, inclusive), c.(ts := k))
    decreases end, 0
  {
    var right := PrintBound(end, k);
    Step(RangeWord(end, inclusive), right, c);
    var c1 := c.(ts := right);
    if end.Some? {
      BoundHead(end.value, k, c1);
      BoundReads(end.value, k, c1);
    }
    RangeEnd(start, end, inclusive, c, c1, c.(ts := k));
  }

  lemma {:induction false} LooseReads(e: A.Expr, k: Stream, c: Cursor)
    requires Level(e) < OR && IsForm(e, c.lit) && c.bank == 0
    requires c.ts == PrintForm(e, k) && Follows(-1, k, c.lit) && Stops(e, k)
    ensures ParseExpr(c) == Ok(e, c.(ts := k))
    decreases e, 0, 4
  {
    if e.ReturnExpr? {
      ReturnReads(e.result, k, c);
      PrimaryIsExpr(e, c, c.(ts := k));
    } else if !e.RangeExpr? {
      FormReads(e, k, c);
      PrimaryIsExpr(e, c, c.(ts := k));
    } else {
      RangeReads(e.start, e.end, e.inclusive, k, c);
    }
  }

  lemma {:induction false} RangeReads(start: Option<A.Expr>, end: Option<A.Expr>, inclusive: bool, k: Stream, c: Cursor)
    requires (start.Some? ==> IsPart(start.value, c.lit)) && IsBound(end, c.lit) && c.bank == 0
    requires c.ts == PrintBound(start, More(RangeWord(end, inclusive), PrintBound(end, k)))
    requires Follows(-1, k, c.lit) && Stops(A.RangeExpr(start, end, inclusive), k)
    ensures ParseExpr(c) == Ok(A.RangeExpr(start, end, inclusive), c.(ts := k))
    decreases A.RangeExpr(start, end, inclusive), 0, 3
  {
    var next := More(RangeWord(end, inclusive), PrintBound(end, k));
    StartReads(start, next, c);
    EndReads(start, end, inclusive, k, c.(ts := next));
  }

  // ----- Forms with keywords and braces -----

  lemma {:induction false} FormReads(e: A.Expr, k: Stream, c: Cursor)
    requires IsForm(e, c.lit) && !e.ReturnExpr? && !e.RangeExpr? && c.bank == 0
    requires c.ts == PrintForm(e, k) && k.More? && k.head.kind != Else
    ensures ParsePrimary(c) == Ok(e, c.(ts := k)) && ParsePostfix(c) == ParsePostfixRest(e, c.(ts := k))
    decreases e, 0, 1
  {
    if e.StructExpr? {
      StructReads(e, k, c);
    } else if e.IfExpr? {
      IfReads(e, k, c);
    } else if e.WhileExpr? {
      WhileReads(e, k, c);
    } else if e.MatchExpr? {
      MatchReads(e, k, c);
    } else if e.LoopExpr? {
      Step(LOOP, PrintBlock(e.body, k), c);
      BlockReads(e.body, k, Advance(c));
    } else if e.BlockExpr? {
      BlockReads(e.block, k, c);
    } else if e.BreakExpr? {
      Step(BREAK, k, c);
    } else {
      Step(CONTINUE, k, c);
    }
  }

  /** A whole expression in parentheses. */
  lemma {:induction false} GroupReads(e: A.Expr, k: Stream, c: Cursor)
    requires IsPart(e, c.lit) && c.bank == 0 && c.ts == InParens(e, k) && Follows(-1, k, false)
    ensures ParseExpr(c) == Ok(e, c.(ts := k))
    decreases e, 0, 64
  {
    ParenthesizedReads(e, k, c);
    PrimaryIsExpr(e, c, c.(ts := k));
  }

  /** An expression that may be in parentheses. */
  lemma {:induction false} GuardedReads(guarded: bool, e: A.Expr, k: Stream, c: Cursor)
    requires IsPlain(e, c.lit) && (guarded ==> !EndsBare(e)) && c.bank == 0
    requires c.ts == PrintGuarded(guarded, e, k)
    requires if guarded then Follows(-1, k, false) else Follows(-1, k, c.lit) && Stops(e, k)
    ensures ParseExpr(c) == Ok(e, c.(ts := k))
    decreases e, 0, 65
  {
    if guarded {
      GroupReads(e, k, c);
    } else {
      WholeReads(e, k, c);
    }
  }

  /** An expression in front of a block. */
  lemma {:induction false} HeadReads(e: A.Expr, k: Stream, c: Cursor)
    requires IsPart(e, false) && c.bank == 0
    requires c.ts == PrintGuarded(Misleads(e), e, k) && k.More? && k.head == LBRACE
    ensures ParseHeadExpr(c) == Ok(e, c.(ts := k))
    decreases e, 0, 66
  {
    GuardedReads(Misleads(e), e, k, c.(lit := false));
  }

  lemma PatternReads(p: A.Pattern, guarded: bool, k: Stream, c: Cursor)
    requires P.IsPattern(p) && c.bank == 0 && R.EndsPattern(k)
    requires c.ts == if guarded then P.InParens(p, k) else P.Print(p, k)
    ensures ParsePattern(c) == Ok(p, c.(ts := k))
  {
    if guarded {
      R.ParensRead(p, k, c);
    } else {
      R.PatternReads(p, k, c);
    }
  }

  lemma DeclaredReads(p: A.Pattern, k: Stream, c: Cursor)
    requires P.IsPattern(p) && c.bank == 0 && c.ts == PrintPattern(p, k) && R.EndsPattern(k)
    ensures ParsePattern(c) == Ok(p, c.(ts := k))
  {
    PatternReads(p, P.ShowsBrace(p), k, c);
  }

  lemma {:induction false} CondReads(cond: A.Cond, k: Stream, c: Cursor)
    requires IsCond(cond, c.lit) && c.bank == 0
    requires c.ts == PrintCond(cond, k) && k.More? && k.head == LBRACE
    ensures ParseCond(c) == Ok(cond, c.(ts := k))
    decreases cond
  {
    CondPasses(cond, k, 0);
    if cond.ExprCond? {
      HeadReads(cond.value, k, c);
    } else {
      PatternCondReads(cond.pattern, cond.init, k, c);
    }
  }

  lemma {:induction false} PatternCondReads(pattern: A.Pattern, init: A.Expr, k: Stream, c: Cursor)
    requires P.IsPattern(pattern) && IsPart(init, c.lit) && c.bank == 0 && k.More? && k.head == LBRACE
    requires c.ts == PrintPattern(pattern, More(COLON_EQ, InParens(init, k))) && ScanLead(c.ts, 0) == DeclLead
    ensures ParseCond(c) == Ok(A.PatternCond(pattern, init), c.(ts := k))
    decreases init, 0, 65
  {
    var right := InParens(init, k);
    var next := More(COLON_EQ, right);
    DeclaredReads(pattern, next, c);
    Step(COLON_EQ, right, c.(ts := next));
    GroupReads(init, k, c.(ts := right));
    PatternCondStep(A.PatternCond(pattern, init), c, c.(ts := next));
  }

  lemma {:induction false} IfReads(e: A.Expr, k: Stream, c: Cursor)
    requires e.IfExpr? && IsForm(e, c.lit) && c.bank == 0
    requires c.ts == PrintForm(e, k) && k.More? && k.head.kind != Else
    ensures ParsePrimary(c) == Ok(e, c.(ts := k))
    decreases e, 0, 0
  {
    var tail := PrintElse(e.elseBlock, k);
    var block := PrintBlock(e.thenBlock, tail);
    Step(IF, PrintCond(e.cond, block), c);
    CondReads(e.cond, block, Advance(c));
    BlockReads(e.thenBlock, tail, c.(ts := block));
    if e.elseBlock.Some? {
      Step(ELSE, PrintBlock(e.elseBlock.value, k), c.(ts := tail));
      BlockReads(e.elseBlock.value, k, Advance(c.(ts := tail)));
    }
    IfStep(e.cond, e.thenBlock, c, c.(ts := block), c.(ts := tail));
  }

  lemma {:induction false} WhileReads(e: A.Expr, k: Stream, c: Cursor)
    requires e.WhileExpr? && IsForm(e, c.lit) && c.bank == 0
    requires c.ts == PrintForm(e, k) && k.More?
    ensures ParsePrimary(c) == Ok(e, c.(ts := k))
    decreases e, 0, 0
  {
    var block := PrintBlock(e.body, k);
    Step(WHILE, PrintCond(e.cond, block), c);
    CondReads(e.cond, block, Advance(c));
    BlockReads(e.body, k, c.(ts := block));
  }

  // ----- Matches -----

  lemma {:induction false} MatchReads(e: A.Expr, k: Stream, c: Cursor)
    requires e.MatchExpr? && IsForm(e, c.lit) && c.bank == 0
    requires c.ts == PrintForm(e, k) && k.More?
    ensures ParsePrimary(c) == Ok(e, c.(ts := k))
    decreases e, 0, 0
  {
    var close := More(RBRACE, k);
    var inside := PrintArms(e.arms, close);
    var open := More(LBRACE, inside);
    Step(MATCH, PrintGuarded(Misleads(e.scrutinee), e.scrutinee, open), c);
    HeadReads(e.scrutinee, open, Advance(c));
    Step(LBRACE, inside, c.(ts := open));
    ArmsRead(e.arms, [], k, c.(ts := inside));
    assert [] + e.arms == e.arms;
    Step(RBRACE, k, c.(ts := close));
    MatchStep(e.scrutinee, e.arms, c, c.(ts := open), c.(ts := close));
  }

  lemma {:induction false} ArmsRead(arms: seq<A.MatchArm>, before: seq<A.MatchArm>, k: Stream, c: Cursor)
    requires (forall arm <- arms :: P.IsPattern(arm.pattern) && IsPlain(arm.body, c.lit)) && c.bank == 0
    requires c.ts == PrintArms(arms, More(RBRACE, k))
    ensures ParseArms(c, before) == (before + arms, c.(ts := More(RBRACE, k)))
    decreases arms, 1
  {
    if arms == [] {
      assert before + arms == before;
    } else {
      var later := PrintArms(arms[1..], More(RBRACE, k));
      var next := More(ArmEnd(arms[0].body), later);
      ArmReads(arms[0], next, c);
      Step(ArmEnd(arms[0].body), later, c.(ts := next));
      T.Regroup(before, arms);
      ArmsStep(before, arms[0], c, c.(ts := next));
      ArmsRead(arms[1..], before + [arms[0]], k, c.(ts := later));
    }
  }

  lemma {:induction false} ArmReads(arm: A.MatchArm, k: Stream, c: Cursor)
    requires P.IsPattern(arm.pattern) && IsPlain(arm.body, c.lit) && c.bank == 0
    requires c.ts == PrintArm(arm, k) && k.More? && k.head == ArmEnd(arm.body)
    ensures ParseArm(c) == Ok(arm, c.(ts := k)) && !LoopEnds(c) && !c.Check(Comma) && !c.Check(Semicolon)
    decreases arm, 0
  {
    var right := Bare(arm.body, k);
    var next := More(FAT_ARROW, right);
    ArmBegins(arm.pattern, next, c);
    Step(FAT_ARROW, right, c.(ts := next));
    WholeReads(arm.body, k, c.(ts := right));
    ArmStep(arm, c, c.(ts := next), c.(ts := k));
  }

  lemma ArmBegins(p: A.Pattern, k: Stream, c: Cursor)
    requires P.IsPattern(p) && c.bank == 0 && c.ts == P.Print(p, k) && R.EndsPattern(k)
    ensures ParsePattern(c) == Ok(p, c.(ts := k)) && !LoopEnds(c) && !c.Check(Comma) && !c.Check(Semicolon)
  {
    R.PatternHead(p, k);
    R.PatternReads(p, k, c);
  }

  // ----- Struct literals -----

  lemma {:induction false} StructReads(e: A.Expr, k: Stream, c: Cursor)
    requires e.StructExpr? && IsForm(e, c.lit) && c.bank == 0
    requires c.ts == PrintForm(e, k) && k.More?
    ensures ParsePrimary(c) == Ok(e, c.(ts := k))
    decreases e, 0, 0
  {
    var close := More(RBRACE, k);
    var base := PrintBase(e.baseExpr, close);
    var inside := PrintInits(e.init, e.baseExpr.Some?, base);
    var open := More(LBRACE, inside);
    PathParses(e.path, open, c);
    Step(LBRACE, inside, c.(ts := open));
    InitsRead(e.init, [], e.baseExpr.Some?, base, c.(ts := inside));
    assert [] + e.init == e.init;
    BaseReads(e.baseExpr, e.init, k, c.(ts := base));
    Step(RBRACE, k, c.(ts := close));
    StructStep(e, c, c.(ts := open), c.(ts := close));
  }

  lemma {:induction false} BaseReads(base: Option<A.Expr>, init: seq<A.FieldInit>, k: Stream, c: Cursor)
    requires (base.Some? ==> IsPlain(base.value, c.lit)) && c.bank == 0
    requires c.ts == PrintBase(base, More(RBRACE, k))
    ensures ParseInits(c, init) == Ok((init, base), c.(ts := More(RBRACE, k)))
    decreases base, 0
  {
    if base.Some? {
      var right := Bare(base.value, More(RBRACE, k));
      Step(DOT_DOT, right, c);
      WholeReads(base.value, More(RBRACE, k), c.(ts := right));
    }
  }

  lemma {:induction false} InitsRead(init: seq<A.FieldInit>, before: seq<A.FieldInit>, more: bool, k: Stream, c: Cursor)
    requires (forall f <- init :: IsPlain(f.value, c.lit)) && c.bank == 0
    requires forall i | 0 <= i < |init| && EndsBare(init[i].value) :: i == |init| - 1 && !more
    requires c.ts == PrintInits(init, more, k) && k.More? && (more || k.head == RBRACE)
    ensures ParseInits(c, before) == ParseInits(c.(ts := k), before + init)
    decreases init, 1
  {
    if init == [] {
      assert before + init == before;
    } else {
      var last := |init| == 1 && !more;
      var later := PrintInits(init[1..], more, k);
      var next := if last then k else More(COMMA, later);
      InitReads(init[0], next, c);
      InitsStep(before, init[0], c, c.(ts := next));
      T.Regroup(before, init);
      if last {
        assert init == [init[0]];
      } else {
        Step(COMMA, later, c.(ts := next));
        InitsRead(init[1..], before + [init[0]], more, k, c.(ts := later));
      }
    }
  }

  lemma {:induction false} InitReads(f: A.FieldInit, k: Stream, c: Cursor)
    requires IsPlain(f.value, c.lit) && c.bank == 0
    requires c.ts == PrintInit(f, k) && k.More? && (k.head == RBRACE || (k.head == COMMA && !EndsBare(f.value)))
    ensures ParseInit(c) == Ok(f, c.(ts := k)) && !c.Check(RBrace) && !c.AtEnd() && !c.Check(DotDot)
    decreases f, 0
  {
    var right := Bare(f.value, k);
    Step(Word(Ident, f.name, 0), More(COLON, right), c);
    Step(COLON, right, Advance(c));
    WholeReads(f.value, k, c.(ts := right));
  }

  // ----- Statements and blocks -----

  /** What the lookahead finds in front of a printed statement. */
  lemma LeadIs(s: A.Stmt, guarded: bool, k: Stream, lit: bool)
    requires IsStmt(s, lit) && (s.ExprStmt? ==> ScanLead(k, 0) == NoLead)
    ensures var lead := ScanLead(PrintStmt(s, guarded, k), 0);
      match s
      case DeclStmt(pattern, _, _) => lead == if guarded || !P.ShowsBrace(pattern) then DeclLead else NoLead
      case ReassignStmt(place, _, _) => lead == if guarded || Lead(place).None? then ReassignLead else Lead(place).value
      case ExprStmt(value) => lead == if guarded || Lead(value).None? then NoLead else Lead(value).value
  {
    match s
    case DeclStmt(pattern, ascription, init) =>
      var right := More(COLON_EQ, Bare(init, k));
      var tail := PrintDeclared(ascription, right);
      if guarded {
        InParensPasses(pattern, tail, 0);
      } else if P.ShowsBrace(pattern) {
        BraceStops(pattern, tail);
      } else {
        PatternPasses(pattern, tail, 0);
      }
      AscriptionPasses(ascription, right, 0);
    case ReassignStmt(place, compound, value) =>
      AssignWordIs(compound);
      GuardedPasses(guarded, place, More(AssignWord(compound), Bare(value, k)), 0);
    case ExprStmt(value) => GuardedPasses(guarded, value, k, 0);
  }

  /** The last expression of a statement. */
  function LastExpr(s: A.Stmt): A.Expr {
    match s
    case DeclStmt(_, _, init) => init
    case ReassignStmt(_, _, value) => value
    case ExprStmt(value) => value
  }

  lemma {:induction false} DeclReads(s: A.Stmt, guarded: bool, k: Stream, c: Cursor)
    requires s.DeclStmt? && IsStmt(s, c.lit) && c.bank == 0
    requires c.ts == PrintStmt(s, guarded, k) && Follows(-1, k, c.lit) && Stops(s.init, k) && (guarded || !IsMisled(s))
    ensures ParseStmt(c) == Ok(s, c.(ts := k))
    decreases s, 0
  {
    LeadIs(s, guarded, k, c.lit);
    var init := Bare(s.init, k);
    var right := More(COLON_EQ, init);
    var tail := PrintDeclared(s.ascription, right);
    PatternReads(s.pattern, guarded, tail, c);
    var c1 := c.(ts := tail);
    if s.ascription.Some? {
      Step(COLON, PrintType(s.ascription.value, right), c1);
      T.PrintedTypeReads(s.ascription.value, Advance(c1), right);
    }
    Step(COLON_EQ, init, c.(ts := right));
    WholeReads(s.init, k, c.(ts := init));
    DeclStep(s, c, c1, c.(ts := right));
  }

  lemma {:induction false} ReassignReads(s: A.Stmt, guarded: bool, k: Stream, c: Cursor)
    requires s.ReassignStmt? && IsStmt(s, c.lit) && c.bank == 0
    requires c.ts == PrintStmt(s, guarded, k) && Follows(-1, k, c.lit) && Stops(s.value, k) && (guarded || !IsMisled(s))
    ensures ParseStmt(c) == Ok(s, c.(ts := k))
    decreases s, 0
  {
    LeadIs(s, guarded, k, c.lit);
    AssignWordIs(s.compound);
    var right := Bare(s.value, k);
    var next := More(AssignWord(s.compound), right);
    GuardedReads(guarded, s.place, next, c);
    Step(AssignWord(s.compound), right, c.(ts := next));
    WholeReads(s.value, k, c.(ts := right));
    ReassignStep(s, c, c.(ts := next), c.(ts := k));
  }

  /** A printed statement reads back if it is in parentheses or misleads nobody. */
  lemma {:induction false} StmtReads(s: A.Stmt, guarded: bool, k: Stream, c: Cursor)
    requires IsStmt(s, c.lit) && c.bank == 0 && (guarded || !IsMisled(s))
    requires s.ExprStmt? ==> ScanLead(k, 0) == NoLead && (guarded ==> !EndsBare(s.value))
    requires c.ts == PrintStmt(s, guarded, k) && Follows(-1, k, c.lit) && Stops(LastExpr(s), k)
    ensures ParseStmt(c) == Ok(s, c.(ts := k))
    decreases s, 1
  {
    if s.DeclStmt? {
      DeclReads(s, guarded, k, c);
    } else if s.ReassignStmt? {
      ReassignReads(s, guarded, k, c);
    } else {
      LeadIs(s, guarded, k, c.lit);
      GuardedReads(guarded, s.value, k, c);
    }
  }

  lemma GuardedHead(guarded: bool, e: A.Expr, k: Stream, lit: bool)
    requires IsPlain(e, lit)
    ensures var ts := PrintGuarded(guarded, e, k); ts.More? && StartsWhole(ts.head.kind)
  {
    if !guarded { BareHead(e, k, lit); }
  }

  lemma {:induction false} StmtHead(s: A.Stmt, guarded: bool, k: Stream, lit: bool)
    requires IsStmt(s, lit)
    ensures var ts := PrintStmt(s, guarded, k); ts.More? && ts.head.kind !in {RBrace, Semicolon, Eof}
  {
    match s
    case DeclStmt(pattern, ascription, init) =>
      if !guarded { R.PatternHead(pattern, PrintDeclared(ascription, More(COLON_EQ, Bare(init, k)))); }
    case ReassignStmt(place, compound, value) =>
      GuardedHead(guarded, place, More(AssignWord(compound), Bare(value, k)), lit);
    case ExprStmt(value) =>
      GuardedHead(guarded, value, k, lit);
  }

  /** A statement in its block, where it has parentheses if it would mislead the lookahead. */
  lemma {:induction false} SafeStmtReads(s: A.Stmt, k: Stream, c: Cursor)
    requires IsStmt(s, c.lit) && c.bank == 0
    requires c.ts == PrintStmt(s, IsMisled(s), k) && k.More? && k.head.kind in {Semicolon, RBrace}
    ensures ParseStmt(c) == Ok(s, c.(ts := k)) && !LoopEnds(c) && !c.Check(Semicolon)
    decreases s, 2
  {
    if s.ExprStmt? && Lead(s.value) == Some(DeclLead) {
      BareIsNoDeclaration(s.value);
    }
    StmtHead(s, IsMisled(s), k, c.lit);
    StmtReads(s, IsMisled(s), k, c);
  }

  lemma {:induction false} StmtsRead(ss: seq<A.Stmt>, before: seq<A.Stmt>, k: Stream, c: Cursor)
    requires (forall s <- ss :: IsStmt(s, c.lit)) && c.bank == 0 && c.ts == PrintStmts(ss, k)
    ensures ParseStmts(c, before) == ParseStmts(c.(ts := k), before + ss)
    decreases ss, 0
  {
    if ss == [] {
      assert before + ss == before;
    } else {
      var later := PrintStmts(ss[1..], k);
      var next := More(SEMICOLON, later);
      SafeStmtReads(ss[0], next, c);
      Step(SEMICOLON, later, c.(ts := next));
      T.Regroup(before, ss);
      StmtStep(before, ss[0], c, c.(ts := next));
      StmtsRead(ss[1..], before + [ss[0]], k, c.(ts := later));
    }
  }

  lemma {:induction false} ValueReads(value: Option<A.Expr>, before: seq<A.Stmt>, k: Stream, c: Cursor)
    requires (value.Some? ==> IsPlain(value.value, c.lit)) && c.bank == 0
    requires c.ts == PrintValue(value, k) && k.More? && k.head == RBRACE
    ensures ParseStmts(c, before) == (before, value, c.(ts := k))
    decreases value, 0
  {
    if value.Some? {
      var guarded := Lead(value.value) == Some(DeclLead);
      var s := A.ExprStmt(value.value);
      if guarded {
        BareIsNoDeclaration(value.value);
      }
      StmtHead(s, guarded, k, c.lit);
      LeadIs(s, guarded, k, c.lit);
      GuardedReads(guarded, value.value, k, c);
      ValueStep(before, value.value, c, c.(ts := k));
    }
  }

  /** A printed block reads back. */
  lemma {:induction false} BlockReads(b: A.Block, k: Stream, c: Cursor)
    requires IsBlock(b, c.lit) && c.bank == 0 && c.ts == PrintBlock(b, k)
    ensures ParseBlock(c) == Ok(b, c.(ts := k))
    decreases b, 0
  {
    var close := More(RBRACE, k);
    var value := PrintValue(b.value, close);
    var inside := PrintStmts(b.statements, value);
    Step(LBRACE, inside, c);
    StmtsRead(b.statements, [], value, c.(ts := inside));
    assert [] + b.statements == b.statements;
    ValueReads(b.value, b.statements, close, c.(ts := value));
    Step(RBRACE, k, c.(ts := close));
    BlockStep(b, c, c.(ts := close));
  }

  // ----- Whole expressions -----

  /** Printing and reading back gives the same expression, no diagnostics, and the cursor
      just past the print, when what follows cannot extend the expression. */
  lemma ExpressionRoundTrip(e: A.Expr, rest: Stream, c: Cursor)
    requires IsPlain(e, c.lit) && c.bank == 0
    requires c.ts == Bare(e, rest) && Follows(-1, rest, c.lit) && Stops(e, rest)
    ensures ParseExpr(c) == Ok(e, c.(ts := rest))
  {
    WholeReads(e, rest, c);
  }

  /** Different expressions are never printed alike. */
  lemma PrintingIsUnambiguous(e: A.Expr, e': A.Expr, rest: Stream)
    requires IsPlain(e, true) && IsPlain(e', true) && Follows(-1, rest, true) && Stops(e, rest) && Stops(e', rest)
    requires Bare(e, rest) == Bare(e', rest)
    ensures e == e'
  {
    var c := Cursor(Bare(e, rest), 0, true, 0);
    ExpressionRoundTrip(e, rest, c);
    ExpressionRoundTrip(e', rest, c);
  }
}
