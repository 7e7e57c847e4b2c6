/** The lookahead that tells what a statement is, from its words outside brackets: how it goes
    over whatever is printed in between. */
module Lookahead {
  import opened Options
  import opened Tokens
  import opened Grammar
  import opened TypeSyntax
  import opened ExprSyntax
  import P = PatternSyntax
  import A = Ast

  // ----- The lookahead passes over what is printed -----

  /** The lookahead goes on from a word as it goes on from the next. */
  predicate IsPassed(kind: Kind) {
    && kind != ColonEq && kind != Eq && !IsCompoundAssign(kind) && kind != Semicolon && kind != Eof
    && !IsOpener(kind) && !IsCloser(kind)
  }

  lemma Pass(w: Word, k: Stream, depth: nat)
    requires IsPassed(w.kind)
    ensures ScanLead(More(w, k), depth) == ScanLead(k, depth)
  {
  }

  lemma PassParens(k: Stream, depth: nat)
    ensures ScanLead(More(LPAREN, k), depth) == ScanLead(k, depth + 1)
    ensures depth > 0 ==> ScanLead(More(RPAREN, k), depth) == ScanLead(k, depth - 1)
  {
  }

  lemma {:induction false} PathPasses(path: A.Path, k: Stream, depth: nat)
    ensures ScanLead(PrintPath(path, k), depth) == ScanLead(k, depth)
  {
    if path != [] {
      var tail := if |path| == 1 then k else More(COLONS, PrintPath(path[1..], k));
      Pass(SegmentWord(path[0]), tail, depth);
      if |path| > 1 {
        Pass(COLONS, PrintPath(path[1..], k), depth);
        PathPasses(path[1..], k, depth);
      }
    }
  }

  lemma PrimitivePasses(p: A.PrimitiveKind, k: Stream, depth: nat)
    ensures ScanLead(More(PrimitiveWord(p), k), depth) == ScanLead(k, depth)
  {
    Pass(PrimitiveWord(p), k, depth);
  }

  lemma {:induction false} TypePasses(t: A.Type, k: Stream, depth: nat)
    ensures ScanLead(PrintType(t, k), depth) == ScanLead(k, depth)
    decreases t, 1
  {
    match t
    case UnitType =>
      PassParens(More(RPAREN, k), depth);
      PassParens(k, depth + 1);
    case RefType(_, inner) => TypePasses(inner, k, depth);
    case TupleType(elements) =>
      var close := More(RPAREN, k);
      PassParens(k, depth + 1);
      if |elements| == 1 {
        TypePasses(elements[0], More(COMMA, close), depth + 1);
      } else {
        TypesPass(elements, close, depth + 1);
      }
    case PathType(path, args) =>
      if args == [] {
        PathPasses(path, k, depth);
      } else {
        TypesPass(args, More(GREATER, k), depth);
        PathPasses(path, More(LESS, PrintTypes(args, More(GREATER, k))), depth);
      }
    case PrimitiveType(p) => PrimitivePasses(p, k, depth);
    case _ =>
  }

  lemma {:induction false} TypesPass(ts: seq<A.Type>, k: Stream, depth: nat)
    ensures ScanLead(PrintTypes(ts, k), depth) == ScanLead(k, depth)
    decreases ts, 0
  {
    if ts != [] {
      TypePasses(ts[0], AfterFirst(ts, k), depth);
      if |ts| > 1 {
        TypesPass(ts[1..], k, depth);
      }
    }
  }

  lemma TargetPasses(t: A.Type, k: Stream, depth: nat)
    ensures ScanLead(PrintTarget(t, k), depth) == ScanLead(k, depth)
  {
    if IsDelimited(t) {
      TypePasses(t, k, depth);
    } else {
      PassParens(k, depth + 1);
      TypePasses(t, More(RPAREN, k), depth + 1);
    }
  }

  // ----- Expressions -----

  /** Inside brackets the lookahead goes on behind what it scans; outside, what it finds there
      may end it. */
  function Seen(lead: Option<StmtLead>, k: Stream, depth: nat): StmtLead {
    if depth > 0 || lead.None? then ScanLead(k, depth) else lead.value
  }

  lemma PassBrackets(k: Stream, depth: nat)
    ensures ScanLead(More(LBRACKET, k), depth) == ScanLead(k, depth + 1)
    ensures ScanLead(More(RBRACKET, k), depth + 1) == ScanLead(k, depth)
  {
  }

  lemma PassBraces(k: Stream, depth: nat)
    ensures depth > 0 ==> ScanLead(More(LBRACE, k), depth) == ScanLead(k, depth + 1)
    ensures depth > 0 ==> ScanLead(More(RBRACE, k), depth + 1) == ScanLead(k, depth)
    ensures depth == 0 ==> ScanLead(More(LBRACE, k), depth) == NoLead
  {
  }

  lemma {:induction false} ParensPass(e: A.Expr, k: Stream, depth: nat)
    ensures ScanLead(InParens(e, k), depth) == ScanLead(k, depth)
    decreases e, 4
  {
    PassParens(Bare(e, More(RPAREN, k)), depth);
    BarePasses(e, More(RPAREN, k), depth + 1);
    PassParens(k, depth + 1);
  }

  /** Whatever depth it starts at: a printed expression has its brackets balanced, and outside
      them only what `Lead` says to stop the lookahead. */
  lemma {:induction false} ExprPasses(level: int, e: A.Expr, k: Stream, depth: nat)
    ensures ScanLead(Print(level, e, k), depth) == Seen(LeadAt(level, e), k, depth)
    decreases e, 5
  {
    if NeedsParens(level, e) {
      ParensPass(e, k, depth);
    } else {
      BarePasses(e, k, depth);
    }
  }

  lemma {:induction false} GuardedPasses(guarded: bool, e: A.Expr, k: Stream, depth: nat)
    ensures ScanLead(PrintGuarded(guarded, e, k), depth) == Seen(if guarded then None else Lead(e), k, depth)
    decreases e, 5
  {
    if guarded {
      ParensPass(e, k, depth);
    } else {
      BarePasses(e, k, depth);
    }
  }

  lemma {:induction false} ExprsPass(es: seq<A.Expr>, k: Stream, depth: nat)
    requires depth > 0
    ensures ScanLead(PrintList(es, k), depth) == ScanLead(k, depth)
    decreases es, 0
  {
    if es != [] {
      BarePasses(es[0], AfterFirstExpr(es, k), depth);
      if |es| > 1 {
        Pass(COMMA, PrintList(es[1..], k), depth);
        ExprsPass(es[1..], k, depth);
      }
    }
  }

  lemma OperatorPasses(op: A.BinaryOp, k: Stream, depth: nat)
    ensures ScanLead(More(BinaryWord(op), k), depth) == ScanLead(k, depth)
  {
    Pass(BinaryWord(op), k, depth);
  }

  /** Arguments in their parentheses. */
  lemma {:induction false} ArgsPass(es: seq<A.Expr>, k: Stream, depth: nat)
    ensures ScanLead(More(LPAREN, PrintList(es, More(RPAREN, k))), depth) == ScanLead(k, depth)
    decreases es, 1
  {
    PassParens(PrintList(es, More(RPAREN, k)), depth);
    ExprsPass(es, More(RPAREN, k), depth + 1);
    PassParens(k, depth + 1);
  }

  lemma {:induction false} BarePasses(e: A.Expr, k: Stream, depth: nat)
    ensures ScanLead(Bare(e, k), depth) == Seen(Lead(e), k, depth)
    decreases e, 3
  {
    match e
    case LiteralExpr(l) => Pass(P.LiteralWord(l), k, depth);
    case PathExpr(path) => PathPasses(path, k, depth);
    case UnaryExpr(op, inner) =>
      Pass(UnaryWord(op), Print(UNARY, inner, k), depth);
      ExprPasses(UNARY, inner, k, depth);
    case BorrowExpr(isMut, inner) => BorrowPasses(isMut, inner, k, depth);
    case BinaryExpr(op, lhs, rhs) => BinaryPasses(op, lhs, rhs, k, depth);
    case CastExpr(inner, target) => CastPasses(inner, target, k, depth);
    case CallExpr(callee, args) => CallPasses(callee, args, k, depth);
    case MethodCallExpr(receiver, name, args) => MethodPasses(receiver, name, args, k, depth);
    case FieldExpr(receiver, name) => MemberPasses(receiver, name, k, depth);
    case IndexExpr(receiver, index) => IndexPasses(receiver, index, k, depth);
    case QuestionExpr(inner) =>
      ExprPasses(POSTFIX, inner, More(QUESTION, k), depth);
      Pass(QUESTION, k, depth);
    case TupleExpr(elements) => TuplePasses(elements, k, depth);
    case _ => FormPasses(e, k, depth);
  }

  lemma {:induction false} BorrowPasses(isMut: bool, inner: A.Expr, k: Stream, depth: nat)
    ensures var e := A.BorrowExpr(isMut, inner); ScanLead(Bare(e, k), depth) == Seen(Lead(e), k, depth)
    decreases A.BorrowExpr(isMut, inner), 0, 0
  {
    var tail := Print(UNARY, inner, k);
    Pass(AMP, if isMut then More(MUT, tail) else tail, depth);
    if isMut { Pass(MUT, tail, depth); }
    ExprPasses(UNARY, inner, k, depth);
  }

  lemma {:induction false} CastPasses(inner: A.Expr, target: A.Type, k: Stream, depth: nat)
    ensures var e := A.CastExpr(inner, target); ScanLead(Bare(e, k), depth) == Seen(Lead(e), k, depth)
    decreases A.CastExpr(inner, target), 0, 0
  {
    ExprPasses(UNARY, inner, More(AS, PrintTarget(target, k)), depth);
    Pass(AS, PrintTarget(target, k), depth);
    TargetPasses(target, k, depth);
  }

  lemma {:induction false} MemberPasses(receiver: A.Expr, name: string, k: Stream, depth: nat)
    ensures var e := A.FieldExpr(receiver, name); ScanLead(Bare(e, k), depth) == Seen(Lead(e), k, depth)
    decreases A.FieldExpr(receiver, name), 0, 0
  {
    ExprPasses(POSTFIX, receiver, More(DOT, More(FieldWord(name), k)), depth);
    Pass(DOT, More(FieldWord(name), k), depth);
    Pass(FieldWord(name), k, depth);
  }

  lemma {:induction false} BinaryPasses(op: A.BinaryOp, lhs: A.Expr, rhs: A.Expr, k: Stream, depth: nat)
    ensures var e := A.BinaryExpr(op, lhs, rhs); ScanLead(Bare(e, k), depth) == Seen(Lead(e), k, depth)
    decreases A.BinaryExpr(op, lhs, rhs), 0, 0
  {
    var right := Print(RightLevel(op), rhs, k);
    ExprPasses(LeftLevel(op), lhs, More(BinaryWord(op), right), depth);
    OperatorPasses(op, right, depth);
    ExprPasses(RightLevel(op), rhs, k, depth);
  }

  lemma {:induction false} CallPasses(callee: A.Expr, args: seq<A.Expr>, k: Stream, depth: nat)
    ensures var e := A.CallExpr(callee, args); ScanLead(Bare(e, k), depth) == Seen(Lead(e), k, depth)
    decreases A.CallExpr(callee, args), 0, 0
  {
    var list := More(LPAREN, PrintList(args, More(RPAREN, k)));
    ArgsPass(args, k, depth);
    if IsNamedField(callee) {
      ParensPass(callee, list, depth);
    } else {
      ExprPasses(POSTFIX, callee, list, depth);
    }
  }

  lemma {:induction false} MethodPasses(receiver: A.Expr, name: string, args: seq<A.Expr>, k: Stream, depth: nat)
    ensures var e := A.MethodCallExpr(receiver, name, args); ScanLead(Bare(e, k), depth) == Seen(Lead(e), k, depth)
    decreases A.MethodCallExpr(receiver, name, args), 0, 0
  {
    var list := More(LPAREN, PrintList(args, More(RPAREN, k)));
    var word := Word(Ident, name, 0);
    ArgsPass(args, k, depth);
    ExprPasses(POSTFIX, receiver, More(DOT, More(word, list)), depth);
    Pass(DOT, More(word, list), depth);
    Pass(word, list, depth);
  }

  lemma {:induction false} BracketsPass(index: A.Expr, k: Stream, depth: nat)
    ensures ScanLead(More(LBRACKET, Bare(index, More(RBRACKET, k))), depth) == ScanLead(k, depth)
    decreases index, 4
  {
    PassBrackets(Bare(index, More(RBRACKET, k)), depth);
    BarePasses(index, More(RBRACKET, k), depth + 1);
    PassBrackets(k, depth);
  }

  lemma {:induction false} IndexPasses(receiver: A.Expr, index: A.Expr, k: Stream, depth: nat)
    ensures var e := A.IndexExpr(receiver, index); ScanLead(Bare(e, k), depth) == Seen(Lead(e), k, depth)
    decreases A.IndexExpr(receiver, index), 0, 0
  {
    var next := More(LBRACKET, Bare(index, More(RBRACKET, k)));
    BracketsPass(index, k, depth);
    ExprPasses(POSTFIX, receiver, next, depth);
  }

  lemma {:induction false} TuplePasses(elements: seq<A.Expr>, k: Stream, depth: nat)
    ensures ScanLead(Bare(A.TupleExpr(elements), k), depth) == ScanLead(k, depth)
    decreases A.TupleExpr(elements), 0, 0
  {
    var close := More(RPAREN, k);
    PassParens(k, depth + 1);
    if |elements| == 1 {
      BarePasses(elements[0], More(COMMA, close), depth + 1);
      Pass(COMMA, close, depth + 1);
    } else {
      ExprsPass(elements, close, depth + 1);
    }
  }

  // ----- Control forms and blocks -----

  lemma {:induction false} FormPasses(e: A.Expr, k: Stream, depth: nat)
    requires e.StructExpr? || e.IfExpr? || e.WhileExpr? || e.MatchExpr? || e.LoopExpr? || e.BlockExpr?
      || e.ReturnExpr? || e.BreakExpr? || e.ContinueExpr? || e.RangeExpr?
    ensures ScanLead(PrintForm(e, k), depth) == Seen(Lead(e), k, depth)
    decreases e, 2
  {
    match e
    case StructExpr(path, init, baseExpr) => LiteralPasses(path, init, baseExpr, k, depth);
    case IfExpr(cond, thenBlock, elseBlock) => IfPasses(cond, thenBlock, elseBlock, k, depth);
    case WhileExpr(cond, body) => WhilePasses(cond, body, k, depth);
    case MatchExpr(scrutinee, arms) => MatchPasses(scrutinee, arms, k, depth);
    case LoopExpr(body) => LoopPasses(body, k, depth);
    case BlockExpr(block) => BlockPasses(block, k, depth);
    case ReturnExpr(result) => ReturnPasses(result, k, depth);
    case BreakExpr => Pass(BREAK, k, depth);
    case ContinueExpr => Pass(CONTINUE, k, depth);
    case RangeExpr(start, end, inclusive) => RangePasses(start, end, inclusive, k, depth);
  }

  lemma {:induction false} LoopPasses(body: A.Block, k: Stream, depth: nat)
    ensures ScanLead(PrintForm(A.LoopExpr(body), k), depth) == Seen(Some(NoLead), k, depth)
    decreases A.LoopExpr(body), 0
  {
    Pass(LOOP, PrintBlock(body, k), depth);
    BlockPasses(body, k, depth);
  }

  lemma {:induction false} ReturnPasses(result: Option<A.Expr>, k: Stream, depth: nat)
    ensures var e := A.ReturnExpr(result); ScanLead(PrintForm(e, k), depth) == Seen(Lead(e), k, depth)
    decreases A.ReturnExpr(result), 0
  {
    Pass(RET, PrintResult(result, k), depth);
    if result.Some? { BarePasses(result.value, k, depth); }
  }

  lemma {:induction false} IfPasses(cond: A.Cond, thenBlock: A.Block, elseBlock: Option<A.Block>, k: Stream, depth: nat)
    ensures ScanLead(PrintForm(A.IfExpr(cond, thenBlock, elseBlock), k), depth) == Seen(Some(LeadOfCond(cond)), k, depth)
    decreases A.IfExpr(cond, thenBlock, elseBlock), 0
  {
    var tail := PrintElse(elseBlock, k);
    var block := PrintBlock(thenBlock, tail);
    Pass(IF, PrintCond(cond, block), depth);
    CondPasses(cond, block, depth);
    if depth > 0 {
      BlockPasses(thenBlock, tail, depth);
      ElsePasses(elseBlock, k, depth);
    }
  }

  lemma {:induction false} WhilePasses(cond: A.Cond, body: A.Block, k: Stream, depth: nat)
    ensures ScanLead(PrintForm(A.WhileExpr(cond, body), k), depth) == Seen(Some(LeadOfCond(cond)), k, depth)
    decreases A.WhileExpr(cond, body), 0
  {
    var block := PrintBlock(body, k);
    Pass(WHILE, PrintCond(cond, block), depth);
    CondPasses(cond, block, depth);
    if depth > 0 {
      BlockPasses(body, k, depth);
    }
  }

  lemma {:induction false} RangePasses(start: Option<A.Expr>, end: Option<A.Expr>, inclusive: bool, k: Stream, depth: nat)
    ensures var e := A.RangeExpr(start, end, inclusive); ScanLead(PrintForm(e, k), depth) == Seen(Lead(e), k, depth)
    decreases A.RangeExpr(start, end, inclusive), 0
  {
    BoundPasses(start, More(RangeWord(end, inclusive), PrintBound(end, k)), depth);
    EndPasses(end, inclusive, k, depth);
  }

  lemma {:induction false} EndPasses(end: Option<A.Expr>, inclusive: bool, k: Stream, depth: nat)
    ensures ScanLead(More(RangeWord(end, inclusive), PrintBound(end, k)), depth) == Seen(LeadOfBound(end), k, depth)
    decreases end, 1
  {
    Pass(RangeWord(end, inclusive), PrintBound(end, k), depth);
    BoundPasses(end, k, depth);
  }

  lemma {:induction false} BoundPasses(bound: Option<A.Expr>, k: Stream, depth: nat)
    ensures ScanLead(PrintBound(bound, k), depth) == Seen(LeadOfBound(bound), k, depth)
    decreases bound, 0
  {
    if bound.Some? { ExprPasses(OR, bound.value, k, depth); }
  }

  lemma {:induction false} ElsePasses(elseBlock: Option<A.Block>, k: Stream, depth: nat)
    requires depth > 0
    ensures ScanLead(PrintElse(elseBlock, k), depth) == ScanLead(k, depth)
    decreases elseBlock, 0
  {
    if elseBlock.Some? {
      Pass(ELSE, PrintBlock(elseBlock.value, k), depth);
      BlockPasses(elseBlock.value, k, depth);
    }
  }

  lemma {:induction false} DeclaredPasses(p: A.Pattern, k: Stream, depth: nat)
    ensures ScanLead(PrintPattern(p, k), depth) == ScanLead(k, depth)
  {
    if P.ShowsBrace(p) { InParensPasses(p, k, depth); } else { PatternPasses(p, k, depth); }
  }

  /** A condition in front of a block. */
  lemma {:induction false} CondPasses(cond: A.Cond, k: Stream, depth: nat)
    requires k.More? && k.head == LBRACE
    ensures ScanLead(PrintCond(cond, k), depth) == if depth > 0 then ScanLead(k, depth) else LeadOfCond(cond)
    decreases cond, 0
  {
    match cond
    case PatternCond(pattern, init) =>
      var tail := More(COLON_EQ, InParens(init, k));
      DeclaredPasses(pattern, tail, depth);
      if depth > 0 {
        PassInside(COLON_EQ, InParens(init, k), depth);
        ParensPass(init, k, depth);
      }
    case ExprCond(value) => HeadPasses(value, k, depth);
  }

  lemma PassInside(w: Word, k: Stream, depth: nat)
    requires depth > 0 && !IsOpener(w.kind) && !IsCloser(w.kind)
    ensures ScanLead(More(w, k), depth) == ScanLead(k, depth)
  {
  }

  lemma {:induction false} BracedArmsPass(arms: seq<A.MatchArm>, k: Stream, depth: nat)
    ensures ScanLead(More(LBRACE, PrintArms(arms, More(RBRACE, k))), depth) == Seen(Some(NoLead), k, depth)
    decreases arms, 2
  {
    PassBraces(PrintArms(arms, More(RBRACE, k)), depth);
    if depth > 0 {
      ArmsPass(arms, More(RBRACE, k), depth + 1);
      PassBraces(k, depth);
    }
  }

  /** What stands in front of a block does not look like a declaration. */
  lemma {:induction false} HeadPasses(e: A.Expr, k: Stream, depth: nat)
    requires k.More? && k.head == LBRACE
    ensures ScanLead(PrintGuarded(Misleads(e), e, k), depth) == if depth > 0 then ScanLead(k, depth) else NoLead
    decreases e, 6
  {
    GuardedPasses(Misleads(e), e, k, depth);
  }

  lemma {:induction false} MatchPasses(scrutinee: A.Expr, arms: seq<A.MatchArm>, k: Stream, depth: nat)
    ensures ScanLead(PrintForm(A.MatchExpr(scrutinee, arms), k), depth) == Seen(Some(NoLead), k, depth)
    decreases A.MatchExpr(scrutinee, arms), 0
  {
    var open := More(LBRACE, PrintArms(arms, More(RBRACE, k)));
    Pass(MATCH, PrintGuarded(Misleads(scrutinee), scrutinee, open), depth);
    HeadPasses(scrutinee, open, depth);
    BracedArmsPass(arms, k, depth);
  }

  lemma {:induction false} ArmsPass(arms: seq<A.MatchArm>, k: Stream, depth: nat)
    requires depth > 0
    ensures ScanLead(PrintArms(arms, k), depth) == ScanLead(k, depth)
    decreases arms, 1
  {
    if arms != [] {
      var later := PrintArms(arms[1..], k);
      var end := ArmEnd(arms[0].body);
      ArmPasses(arms[0], More(end, later), depth);
      PassInside(end, later, depth);
      ArmsPass(arms[1..], k, depth);
    }
  }

  lemma {:induction false} ArmPasses(arm: A.MatchArm, k: Stream, depth: nat)
    requires depth > 0
    ensures ScanLead(PrintArm(arm, k), depth) == ScanLead(k, depth)
    decreases arm, 0
  {
    var tail := Bare(arm.body, k);
    PatternPasses(arm.pattern, More(FAT_ARROW, tail), depth);
    Pass(FAT_ARROW, tail, depth);
    BarePasses(arm.body, k, depth);
  }

  lemma {:induction false} LiteralPasses(path: A.Path, init: seq<A.FieldInit>, baseExpr: Option<A.Expr>, k: Stream, depth: nat)
    ensures ScanLead(PrintForm(A.StructExpr(path, init, baseExpr), k), depth) == Seen(Some(NoLead), k, depth)
    decreases A.StructExpr(path, init, baseExpr), 0
  {
    var tail := PrintBase(baseExpr, More(RBRACE, k));
    var inside := PrintInits(init, baseExpr.Some?, tail);
    PathPasses(path, More(LBRACE, inside), depth);
    PassBraces(inside, depth);
    if depth > 0 {
      InitsPass(init, baseExpr.Some?, tail, depth + 1);
      BasePasses(baseExpr, More(RBRACE, k), depth + 1);
      PassBraces(k, depth);
    }
  }

  lemma {:induction false} InitsPass(init: seq<A.FieldInit>, more: bool, k: Stream, depth: nat)
    requires depth > 0
    ensures ScanLead(PrintInits(init, more, k), depth) == ScanLead(k, depth)
    decreases init, 1
  {
    if init != [] {
      var later := PrintInits(init[1..], more, k);
      InitPasses(init[0], if |init| == 1 && !more then k else More(COMMA, later), depth);
      Pass(COMMA, later, depth);
      InitsPass(init[1..], more, k, depth);
    }
  }

  lemma {:induction false} InitPasses(f: A.FieldInit, k: Stream, depth: nat)
    requires depth > 0
    ensures ScanLead(PrintInit(f, k), depth) == ScanLead(k, depth)
    decreases f, 0
  {
    var tail := Bare(f.value, k);
    Pass(Word(Ident, f.name, 0), More(COLON, tail), depth);
    Pass(COLON, tail, depth);
    BarePasses(f.value, k, depth);
  }

  lemma {:induction false} BasePasses(baseExpr: Option<A.Expr>, k: Stream, depth: nat)
    requires depth > 0
    ensures ScanLead(PrintBase(baseExpr, k), depth) == ScanLead(k, depth)
    decreases baseExpr, 0
  {
    if baseExpr.Some? {
      Pass(DOT_DOT, Bare(baseExpr.value, k), depth);
      BarePasses(baseExpr.value, k, depth);
    }
  }

  /** A brace outside parentheses stops the lookahead. */
  lemma {:induction false} BlockPasses(b: A.Block, k: Stream, depth: nat)
    ensures ScanLead(PrintBlock(b, k), depth) == Seen(Some(NoLead), k, depth)
    decreases b, 0
  {
    var tail := PrintValue(b.value, More(RBRACE, k));
    PassBraces(PrintStmts(b.statements, tail), depth);
    if depth > 0 {
      StmtsPass(b.statements, tail, depth + 1);
      ValuePasses(b.value, More(RBRACE, k), depth + 1);
      PassBraces(k, depth);
    }
  }

  lemma {:induction false} ValuePasses(value: Option<A.Expr>, k: Stream, depth: nat)
    requires depth > 0
    ensures ScanLead(PrintValue(value, k), depth) == ScanLead(k, depth)
    decreases value, 0
  {
    if value.Some? { GuardedPasses(Lead(value.value) == Some(DeclLead), value.value, k, depth); }
  }

  lemma {:induction false} StmtsPass(ss: seq<A.Stmt>, k: Stream, depth: nat)
    requires depth > 0
    ensures ScanLead(PrintStmts(ss, k), depth) == ScanLead(k, depth)
    decreases ss, 1
  {
    if ss != [] {
      var later := PrintStmts(ss[1..], k);
      StmtPasses(ss[0], IsMisled(ss[0]), More(SEMICOLON, later), depth);
      PassInside(SEMICOLON, later, depth);
      StmtsPass(ss[1..], k, depth);
    }
  }

  lemma AssignPasses(compound: Option<A.BinaryOp>, k: Stream, depth: nat)
    requires depth > 0
    ensures ScanLead(More(AssignWord(compound), k), depth) == ScanLead(k, depth)
  {
    PassInside(AssignWord(compound), k, depth);
  }

  lemma AscriptionPasses(ascription: Option<A.Type>, k: Stream, depth: nat)
    ensures ScanLead(PrintDeclared(ascription, k), depth) == ScanLead(k, depth)
  {
    if ascription.Some? {
      Pass(COLON, PrintType(ascription.value, k), depth);
      TypePasses(ascription.value, k, depth);
    }
  }

  lemma {:induction false} StmtPasses(s: A.Stmt, guarded: bool, k: Stream, depth: nat)
    requires depth > 0
    ensures ScanLead(PrintStmt(s, guarded, k), depth) == ScanLead(k, depth)
    decreases s, 0
  {
    match s
    case DeclStmt(pattern, ascription, init) =>
      var right := More(COLON_EQ, Bare(init, k));
      var tail := PrintDeclared(ascription, right);
      if guarded { InParensPasses(pattern, tail, depth); } else { PatternPasses(pattern, tail, depth); }
      AscriptionPasses(ascription, right, depth);
      PassInside(COLON_EQ, Bare(init, k), depth);
      BarePasses(init, k, depth);
    case ReassignStmt(place, compound, value) =>
      GuardedPasses(guarded, place, More(AssignWord(compound), Bare(value, k)), depth);
      AssignPasses(compound, Bare(value, k), depth);
      BarePasses(value, k, depth);
    case ExprStmt(value) => GuardedPasses(guarded, value, k, depth);
  }

  // ----- Patterns, and the brace that stops the lookahead -----

  lemma {:induction false} PatternPasses(p: A.Pattern, k: Stream, depth: nat)
    requires depth > 0 || !P.ShowsBrace(p)
    ensures ScanLead(P.Print(p, k), depth) == ScanLead(k, depth)
    decreases p, 1
  {
    match p
    case OrPattern(first, rest) =>
      AlternativePasses(first, P.PrintRest(rest, k), depth);
      RestPasses(rest, k, depth);
    case _ => BarePatternPasses(p, k, depth);
  }

  lemma {:induction false} AlternativePasses(p: A.Pattern, k: Stream, depth: nat)
    requires depth > 0 || !P.AlternativeShows(p)
    ensures ScanLead(P.PrintAlternative(p, k), depth) == ScanLead(k, depth)
    decreases p, 3
  {
    if p.OrPattern? { InParensPasses(p, k, depth); } else { BarePatternPasses(p, k, depth); }
  }

  lemma {:induction false} InParensPasses(p: A.Pattern, k: Stream, depth: nat)
    ensures ScanLead(P.InParens(p, k), depth) == ScanLead(k, depth)
    decreases p, 2
  {
    PassParens(P.Print(p, More(RPAREN, k)), depth);
    PatternPasses(p, More(RPAREN, k), depth + 1);
    PassParens(k, depth + 1);
  }

  lemma {:induction false} RestPasses(ps: seq<A.Pattern>, k: Stream, depth: nat)
    requires depth > 0 || forall q <- ps :: !P.AlternativeShows(q)
    ensures ScanLead(P.PrintRest(ps, k), depth) == ScanLead(k, depth)
    decreases ps, 0
  {
    if ps != [] {
      var tail := P.PrintRest(ps[1..], k);
      Pass(P.PIPE, P.PrintAlternative(ps[0], tail), depth);
      AlternativePasses(ps[0], tail, depth);
      RestPasses(ps[1..], k, depth);
    }
  }

  lemma {:induction false} BarePatternPasses(p: A.Pattern, k: Stream, depth: nat)
    requires !p.OrPattern? && (depth > 0 || !P.ShowsBrace(p))
    ensures ScanLead(P.Bare(p, k), depth) == ScanLead(k, depth)
    decreases p, 0
  {
    match p
    case WildcardPattern => Pass(P.UNDERSCORE, k, depth);
    case IdentPattern(name) => Pass(SegmentWord(name), k, depth);
    case MutIdentPattern(name) =>
      Pass(MUT, More(Word(Ident, name, 0), k), depth);
      Pass(Word(Ident, name, 0), k, depth);
    case LiteralPattern(value) => Pass(P.LiteralWord(value), k, depth);
    case TuplePattern(None, elements) =>
      PassParens(k, depth + 1);
      if elements != [] {
        PatternPasses(elements[0], More(COMMA, P.PrintList(elements[1..], More(RPAREN, k))), depth + 1);
        PatternsPass(elements[1..], More(RPAREN, k), depth + 1);
      }
    case TuplePattern(Some(path), elements) =>
      PathPasses(path, More(LPAREN, P.PrintList(elements, More(RPAREN, k))), depth);
      PatternsPass(elements, More(RPAREN, k), depth + 1);
      PassParens(k, depth + 1);
    case StructPattern(path, fields) => StructPasses(path, fields, k, depth);
    case RefPattern(isMut, inner) => RefPasses(isMut, inner, k, depth);
  }

  lemma {:induction false} RefPasses(isMut: bool, inner: A.Pattern, k: Stream, depth: nat)
    requires depth > 0 || !P.ShowsBrace(A.RefPattern(isMut, inner))
    ensures ScanLead(P.Bare(A.RefPattern(isMut, inner), k), depth) == ScanLead(k, depth)
    decreases inner, 4
  {
    var tail := P.PrintReferred(isMut, inner, k);
    Pass(AMP, if isMut then More(MUT, tail) else tail, depth);
    if isMut { Pass(MUT, tail, depth); }
    if inner.OrPattern? || (!isMut && inner.MutIdentPattern?) {
      InParensPasses(inner, k, depth);
    } else {
      BarePatternPasses(inner, k, depth);
    }
  }

  lemma {:induction false} StructPasses(path: A.Path, fields: seq<A.FieldPattern>, k: Stream, depth: nat)
    requires depth > 0
    ensures ScanLead(P.Bare(A.StructPattern(path, fields), k), depth) == ScanLead(k, depth)
    decreases fields, 2
  {
    var inside := P.PrintFields(fields, More(RBRACE, k));
    PathPasses(path, More(LBRACE, inside), depth);
    assert ScanLead(More(LBRACE, inside), depth) == ScanLead(inside, depth + 1);
    FieldsPass(fields, More(RBRACE, k), depth + 1);
    assert ScanLead(More(RBRACE, k), depth + 1) == ScanLead(k, depth);
  }

  lemma {:induction false} PatternsPass(ps: seq<A.Pattern>, k: Stream, depth: nat)
    requires depth > 0
    ensures ScanLead(P.PrintList(ps, k), depth) == ScanLead(k, depth)
    decreases ps, 0
  {
    if ps != [] {
      PatternPasses(ps[0], if |ps| == 1 then k else More(COMMA, P.PrintList(ps[1..], k)), depth);
      if |ps| > 1 {
        Pass(COMMA, P.PrintList(ps[1..], k), depth);
        PatternsPass(ps[1..], k, depth);
      }
    }
  }

  lemma {:induction false} FieldsPass(fields: seq<A.FieldPattern>, k: Stream, depth: nat)
    requires depth > 0
    ensures ScanLead(P.PrintFields(fields, k), depth) == ScanLead(k, depth)
    decreases fields, 1
  {
    if fields != [] {
      var tail := if |fields| == 1 then k else More(COMMA, P.PrintFields(fields[1..], k));
      FieldPasses(fields[0], tail, depth);
      if |fields| > 1 {
        Pass(COMMA, P.PrintFields(fields[1..], k), depth);
        FieldsPass(fields[1..], k, depth);
      }
    }
  }

  lemma {:induction false} FieldPasses(f: A.FieldPattern, k: Stream, depth: nat)
    requires depth > 0
    ensures ScanLead(P.PrintField(f, k), depth) == ScanLead(k, depth)
    decreases f, 0
  {
    var tail := if P.IsShort(f) then k else More(COLON, P.Print(f.pattern, k));
    Pass(Word(Ident, f.name, 0), tail, depth);
    if !P.IsShort(f) {
      Pass(COLON, P.Print(f.pattern, k), depth);
      PatternPasses(f.pattern, k, depth);
    }
  }

  /** A brace outside parentheses ends the lookahead, which then has found nothing. */
  lemma {:induction false} BraceStops(p: A.Pattern, k: Stream)
    requires P.ShowsBrace(p)
    ensures ScanLead(P.Print(p, k), 0) == NoLead
    decreases p, 1
  {
    match p
    case OrPattern(first, rest) =>
      var tail := P.PrintRest(rest, k);
      if P.AlternativeShows(first) {
        BareBraceStops(first, tail);
      } else {
        AlternativePasses(first, tail, 0);
        RestStops(rest, k);
      }
    case _ => BareBraceStops(p, k);
  }

  lemma {:induction false} RestStops(ps: seq<A.Pattern>, k: Stream)
    requires exists q <- ps :: P.AlternativeShows(q)
    ensures ScanLead(P.PrintRest(ps, k), 0) == NoLead
    decreases ps, 0
  {
    var tail := P.PrintRest(ps[1..], k);
    Pass(P.PIPE, P.PrintAlternative(ps[0], tail), 0);
    if P.AlternativeShows(ps[0]) {
      BareBraceStops(ps[0], tail);
    } else {
      AlternativePasses(ps[0], tail, 0);
      var q :| q in ps && P.AlternativeShows(q);
      assert q in ps[1..];
      RestStops(ps[1..], k);
    }
  }

  lemma {:induction false} BareBraceStops(p: A.Pattern, k: Stream)
    requires P.ShowsBrace(p) && !p.OrPattern?
    ensures ScanLead(P.Bare(p, k), 0) == NoLead
    decreases p, 0
  {
    match p
    case StructPattern(path, fields) =>
      PathPasses(path, More(LBRACE, P.PrintFields(fields, More(RBRACE, k))), 0);
    case RefPattern(isMut, inner) =>
      var tail := P.Bare(inner, k);
      Pass(AMP, if isMut then More(MUT, tail) else tail, 0);
      if isMut { Pass(MUT, tail, 0); }
      BareBraceStops(inner, k);
  }
}
