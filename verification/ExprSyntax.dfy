/** Printing expressions, statements and blocks as words, with only the parentheses that the
    precedence ladder and the parser's lookahead need. */
module ExprSyntax {
  import opened Options
  import opened Tokens
  import opened Grammar
  import opened TypeSyntax
  import P = PatternSyntax
  import A = Ast

  const AS := Word(As, "as", 0)
  const DOT := Word(Dot, ".", 0)
  const LBRACKET := Word(LBracket, "[", 0)
  const RBRACKET := Word(RBracket, "]", 0)
  const QUESTION := Word(Question, "?", 0)
  const IF := Word(If, "if", 0)
  const ELSE := Word(Else, "else", 0)
  const MATCH := Word(Match, "match", 0)
  const LOOP := Word(Loop, "loop", 0)
  const WHILE := Word(While, "while", 0)
  const BREAK := Word(Break, "break", 0)
  const CONTINUE := Word(Continue, "continue", 0)
  const RET := Word(Ret, "ret", 0)
  const FAT_ARROW := Word(FatArrow, "=>", 0)
  const DOT_DOT := Word(DotDot, "..", 0)
  const DOT_DOT_EQ := Word(DotDotEq, "..=", 0)
  const DOT_DOT_LESS := Word(DotDotLess, "..<", 0)
  const COLON_EQ := Word(ColonEq, ":=", 0)
  const EQ := Word(Eq, "=", 0)
  const SEMICOLON := Word(Semicolon, ";", 0)

  function UnaryWord(op: A.UnaryOp): Word {
    match op
    case Neg => Word(Minus, "-", 0)
    case Not => Word(Bang, "!", 0)
    case BitNot => Word(Tilde, "~", 0)
  }

  function BinaryWord(op: A.BinaryOp): Word {
    match op
    case Add => Word(Plus, "+", 0)
    case Sub => Word(Minus, "-", 0)
    case Mul => Word(Star, "*", 0)
    case Div => Word(Slash, "/", 0)
    case Mod => Word(Percent, "%", 0)
    case Pow => Word(StarStar, "**", 0)
    case BitAnd => Word(Amp, "&", 0)
    case BitOr => Word(Pipe, "|", 0)
    case BitXor => Word(Caret, "^", 0)
    case Shl => Word(LessLess, "<<", 0)
    case Shr => Word(GreaterGreater, ">>", 0)
    case Eq => Word(EqEq, "==", 0)
    case NotEq => Word(BangEq, "!=", 0)
    case Gt => Word(Greater, ">", 0)
    case Lt => Word(Less, "<", 0)
    case GtEq => Word(GreaterEq, ">=", 0)
    case LtEq => Word(LessEq, "<=", 0)
    case And => Word(AmpAmp, "&&", 0)
    case Or => Word(PipePipe, "||", 0)
  }

  /** Comparisons and the lazy operators have no compound form. */
  predicate IsCompound(op: A.BinaryOp) {
    op.Add? || op.Sub? || op.Mul? || op.Div? || op.Mod? || op.Pow?
    || op.BitAnd? || op.BitOr? || op.BitXor? || op.Shl? || op.Shr?
  }

  function AssignWord(compound: Option<A.BinaryOp>): Word {
    match compound
    case Some(Add) => Word(PlusEq, "+=", 0)
    case Some(Sub) => Word(MinusEq, "-=", 0)
    case Some(Mul) => Word(StarEq, "*=", 0)
    case Some(Div) => Word(SlashEq, "/=", 0)
    case Some(Mod) => Word(PercentEq, "%=", 0)
    case Some(Pow) => Word(StarStarEq, "**=", 0)
    case Some(BitAnd) => Word(AmpEq, "&=", 0)
    case Some(BitOr) => Word(PipeEq, "|=", 0)
    case Some(BitXor) => Word(CaretEq, "^=", 0)
    case Some(Shl) => Word(LessLessEq, "<<=", 0)
    case Some(Shr) => Word(GreaterGreaterEq, ">>=", 0)
    case _ => EQ
  }

  /** The word of a range: without an end only `..=` is more than `..`. */
  function RangeWord(end: Option<A.Expr>, inclusive: bool): Word {
    if inclusive then DOT_DOT_EQ else if end.None? then DOT_DOT else DOT_DOT_LESS
  }

  /** A field is named, or numbered by an integer literal. */
  predicate IsNumber(name: string) {
    name != [] && '0' <= name[0] <= '9'
  }

  function FieldWord(name: string): Word {
    Word(if IsNumber(name) then Integer else Ident, name, 0)
  }

  // ----- Precedence -----

  function OpLevel(op: A.BinaryOp): nat {
    match op
    case Or => OR
    case And => AND
    case BitOr => BIT_OR
    case BitXor => BIT_XOR
    case BitAnd => BIT_AND
    case Shl | Shr => SHIFT
    case Add | Sub => ADD
    case Mul | Div | Mod => MUL
    case Pow => POW
    case _ => CMP
  }

  /** The rung an expression stands on without parentheses; ranges, returns and forms with a
      pattern condition stand below all of them. */
  function Level(e: A.Expr): int {
    match e
    case BinaryExpr(op, _, _) => OpLevel(op)
    case CastExpr(_, _) => CAST
    case UnaryExpr(_, _) | BorrowExpr(_, _) => UNARY
    case ReturnExpr(_) | RangeExpr(_, _, _) => -1
    case IfExpr(PatternCond(_, _), _, _) | WhileExpr(PatternCond(_, _), _) => -1
    case _ => POSTFIX
  }

  /** The rungs for the operands: only the power operator repeats to the right, the
      comparisons repeat on neither side. */
  function LeftLevel(op: A.BinaryOp): nat {
    var level := OpLevel(op);
    if level == POW then CAST else if level == CMP then BIT_OR else level
  }

  function RightLevel(op: A.BinaryOp): nat {
    var level := OpLevel(op);
    if level == POW then POW else level + 1
  }

  // ----- Parentheses -----

  /** The expression ends in a `ret` without a value, which only a `;` or a `}` may follow. */
  predicate EndsBare(e: A.Expr) {
    match e
    case ReturnExpr(None) => true
    case ReturnExpr(Some(result)) => EndsBare(result)
    case UnaryExpr(_, inner) => EndsBare(inner)
    case BorrowExpr(_, inner) => EndsBare(inner)
    case BinaryExpr(_, _, rhs) => EndsBare(rhs)
    case RangeExpr(_, Some(end), _) => EndsBare(end)
    case _ => false
  }

  /** On a rung, an expression that stands on a looser one needs parentheses, unless it ends
      in a bare `ret`: the closing parenthesis could not follow that. */
  predicate NeedsParens(level: int, e: A.Expr) {
    Level(e) < level && !EndsBare(e)
  }

  // ----- What the lookahead sees -----

  function First(lead: Option<StmtLead>, later: Option<StmtLead>): Option<StmtLead> {
    if lead.Some? then lead else later
  }

  /** What the statement lookahead makes of a printed expression: nothing, if it goes past it;
      a brace outside parentheses stops it, and a pattern condition looks like a
      declaration. */
  function Lead(e: A.Expr): (r: Option<StmtLead>)
    ensures r != Some(ReassignLead)
    decreases e, 0
  {
    match e
    case UnaryExpr(_, inner) => LeadAt(UNARY, inner)
    case BorrowExpr(_, inner) => LeadAt(UNARY, inner)
    case BinaryExpr(op, lhs, rhs) => First(LeadAt(LeftLevel(op), lhs), LeadAt(RightLevel(op), rhs))
    case CastExpr(inner, _) => LeadAt(UNARY, inner)
    case CallExpr(callee, _) => if IsNamedField(callee) then None else LeadAt(POSTFIX, callee)
    case MethodCallExpr(receiver, _, _) => LeadAt(POSTFIX, receiver)
    case FieldExpr(receiver, _) => LeadAt(POSTFIX, receiver)
    case IndexExpr(receiver, _) => LeadAt(POSTFIX, receiver)
    case QuestionExpr(inner) => LeadAt(POSTFIX, inner)
    case ReturnExpr(Some(result)) => Lead(result)
    case RangeExpr(start, end, _) => First(LeadOfBound(start), LeadOfBound(end))
    case _ => LeadOfForm(e)
  }

  /** In parentheses nothing is seen. */
  function LeadAt(level: int, e: A.Expr): (r: Option<StmtLead>)
    ensures r != Some(ReassignLead)
    decreases e, 1
  {
    if NeedsParens(level, e) then None else Lead(e)
  }

  function LeadOfBound(bound: Option<A.Expr>): (r: Option<StmtLead>)
    ensures r != Some(ReassignLead)
    decreases bound, 0
  {
    if bound.None? then None else LeadAt(OR, bound.value)
  }

  function LeadOfForm(e: A.Expr): (r: Option<StmtLead>)
    ensures r != Some(ReassignLead)
  {
    match e
    case IfExpr(cond, _, _) => Some(LeadOfCond(cond))
    case WhileExpr(cond, _) => Some(LeadOfCond(cond))
    case StructExpr(_, _, _) | MatchExpr(_, _) | LoopExpr(_) | BlockExpr(_) => Some(NoLead)
    case _ => None
  }

  function LeadOfCond(cond: A.Cond): StmtLead {
    if cond.PatternCond? then DeclLead else NoLead
  }

  /** An expression whose last word must not have another expression behind it. */
  predicate IsOpen(e: A.Expr) {
    match e
    case RangeExpr(_, None, inclusive) => inclusive
    case ReturnExpr(Some(result)) => IsOpen(result)
    case _ => false
  }

  /** In front of a block, and where a statement begins, what looks like a declaration needs
      parentheses. */
  predicate Misleads(e: A.Expr) {
    Lead(e) == Some(DeclLead) || IsOpen(e)
  }

  // ----- Printing -----

  predicate IsNamedField(e: A.Expr) {
    e.FieldExpr? && !IsNumber(e.name)
  }

  function InParens(e: A.Expr, k: Stream): Stream
    decreases e, 3
  {
    More(LPAREN, Bare(e, More(RPAREN, k)))
  }

  /** Prints on a rung, in parentheses if the expression needs them there. */
  function Print(level: int, e: A.Expr, k: Stream): Stream
    decreases e, 4
  {
    if NeedsParens(level, e) then InParens(e, k) else Bare(e, k)
  }

  /** A call of a named field would read as a method call. */
  function PrintCallee(e: A.Expr, k: Stream): Stream
    decreases e, 5
  {
    if IsNamedField(e) then InParens(e, k) else Print(POSTFIX, e, k)
  }

  /** In parentheses if so asked. */
  function PrintGuarded(guarded: bool, e: A.Expr, k: Stream): Stream
    decreases e, 4
  {
    if guarded then InParens(e, k) else Bare(e, k)
  }

  function Bare(e: A.Expr, k: Stream): Stream
    decreases e, 2
  {
    match e
    case LiteralExpr(l) => More(P.LiteralWord(l), k)
    case PathExpr(path) => PrintPath(path, k)
    case UnaryExpr(op, inner) => More(UnaryWord(op), Print(UNARY, inner, k))
    case BorrowExpr(isMut, inner) =>
      More(AMP, if isMut then More(MUT, Print(UNARY, inner, k)) else Print(UNARY, inner, k))
    case BinaryExpr(op, lhs, rhs) =>
      Print(LeftLevel(op), lhs, More(BinaryWord(op), Print(RightLevel(op), rhs, k)))
    case CastExpr(inner, target) => Print(UNARY, inner, More(AS, PrintTarget(target, k)))
    case CallExpr(callee, args) => PrintCallee(callee, More(LPAREN, PrintList(args, More(RPAREN, k))))
    case MethodCallExpr(receiver, name, args) =>
      Print(POSTFIX, receiver, More(DOT, More(Word(Ident, name, 0), More(LPAREN, PrintList(args, More(RPAREN, k))))))
    case FieldExpr(receiver, name) => Print(POSTFIX, receiver, More(DOT, More(FieldWord(name), k)))
    case IndexExpr(receiver, index) =>
      Print(POSTFIX, receiver, More(LBRACKET, Bare(index, More(RBRACKET, k))))
    case QuestionExpr(inner) => Print(POSTFIX, inner, More(QUESTION, k))
    case TupleExpr(elements) =>
      More(LPAREN, if |elements| == 1 then Bare(elements[0], More(COMMA, More(RPAREN, k)))
                   else PrintList(elements, More(RPAREN, k)))
    case _ => PrintForm(e, k)
  }

  /** The forms that begin with a keyword, a brace or a range, and struct literals. */
  function PrintForm(e: A.Expr, k: Stream): Stream
    decreases e, 1
  {
    match e
    case StructExpr(path, init, baseExpr) =>
      PrintPath(path, More(LBRACE, PrintInits(init, baseExpr.Some?, PrintBase(baseExpr, More(RBRACE, k)))))
    case IfExpr(cond, thenBlock, elseBlock) => More(IF, PrintCond(cond, PrintBlock(thenBlock, PrintElse(elseBlock, k))))
    case WhileExpr(cond, body) => More(WHILE, PrintCond(cond, PrintBlock(body, k)))
    case MatchExpr(scrutinee, arms) =>
      More(MATCH, PrintGuarded(Misleads(scrutinee), scrutinee, More(LBRACE, PrintArms(arms, More(RBRACE, k)))))
    case LoopExpr(body) => More(LOOP, PrintBlock(body, k))
    case BlockExpr(block) => PrintBlock(block, k)
    case ReturnExpr(result) => More(RET, PrintResult(result, k))
    case BreakExpr => More(BREAK, k)
    case ContinueExpr => More(CONTINUE, k)
    case RangeExpr(start, end, inclusive) => PrintBound(start, More(RangeWord(end, inclusive), PrintBound(end, k)))
    case _ => k
  }

  function PrintResult(result: Option<A.Expr>, k: Stream): Stream
    decreases result, 0
  {
    if result.None? then k else Bare(result.value, k)
  }

  function PrintBound(bound: Option<A.Expr>, k: Stream): Stream
    decreases bound, 0
  {
    if bound.None? then k else Print(OR, bound.value, k)
  }

  function PrintElse(elseBlock: Option<A.Block>, k: Stream): Stream
    decreases elseBlock, 0
  {
    if elseBlock.None? then k else More(ELSE, PrintBlock(elseBlock.value, k))
  }

  /** The initializer of a pattern condition needs parentheses, because a struct literal may
      stand there and would begin with the brace of the block. */
  function PrintCond(cond: A.Cond, k: Stream): Stream
    decreases cond, 0
  {
    match cond
    case PatternCond(pattern, init) => PrintPattern(pattern, More(COLON_EQ, InParens(init, k)))
    case ExprCond(value) => PrintGuarded(Misleads(value), value, k)
  }

  /** A pattern in front of `:=`, in parentheses if it has a brace outside of them. */
  function PrintPattern(p: A.Pattern, k: Stream): Stream {
    if P.ShowsBrace(p) then P.InParens(p, k) else P.Print(p, k)
  }

  function PrintArms(arms: seq<A.MatchArm>, k: Stream): Stream
    decreases arms, 0
  {
    if arms == [] then k else PrintArm(arms[0], More(ArmEnd(arms[0].body), PrintArms(arms[1..], k)))
  }

  /** Arms end in a comma, which cannot stand behind a bare `ret`. */
  function ArmEnd(body: A.Expr): Word {
    if EndsBare(body) then SEMICOLON else COMMA
  }

  function PrintArm(arm: A.MatchArm, k: Stream): Stream
    decreases arm, 0
  {
    P.Print(arm.pattern, More(FAT_ARROW, Bare(arm.body, k)))
  }

  /** Field initializers, with a comma behind the last one if more comes. */
  function PrintInits(init: seq<A.FieldInit>, more: bool, k: Stream): Stream
    decreases init, 0
  {
    if init == [] then k
    else
      PrintInit(init[0], if |init| == 1 && !more then k else More(COMMA, PrintInits(init[1..], more, k)))
  }

  function PrintInit(f: A.FieldInit, k: Stream): Stream
    decreases f, 0
  {
    More(Word(Ident, f.name, 0), More(COLON, Bare(f.value, k)))
  }

  function PrintBase(baseExpr: Option<A.Expr>, k: Stream): Stream
    decreases baseExpr, 0
  {
    if baseExpr.None? then k else More(DOT_DOT, Bare(baseExpr.value, k))
  }

  function PrintList(es: seq<A.Expr>, k: Stream): Stream
    decreases es, 1
  {
    if es == [] then k else Bare(es[0], AfterFirstExpr(es, k))
  }

  function AfterFirstExpr(es: seq<A.Expr>, k: Stream): Stream
    requires es != []
    decreases es, 0
  {
    if |es| == 1 then k else More(COMMA, PrintList(es[1..], k))
  }

  /** The target of a cast, in parentheses if it could run on into what follows. */
  function PrintTarget(t: A.Type, k: Stream): Stream {
    if IsDelimited(t) then PrintType(t, k) else More(LPAREN, PrintType(t, More(RPAREN, k)))
  }

  // ----- Statements and blocks -----

  function PrintDeclared(ascription: Option<A.Type>, k: Stream): Stream {
    if ascription.None? then k else More(COLON, PrintType(ascription.value, k))
  }

  /** Does the lookahead take the statement for another one if it is printed without
      parentheses? */
  predicate IsMisled(s: A.Stmt) {
    match s
    case DeclStmt(pattern, _, _) => P.ShowsBrace(pattern)
    case ReassignStmt(place, _, _) => Lead(place).Some? || IsOpen(place)
    case ExprStmt(value) => Lead(value) == Some(DeclLead)
  }

  /** A statement, with parentheses around its beginning if so asked. */
  function PrintStmt(s: A.Stmt, guarded: bool, k: Stream): Stream
    decreases s, 0
  {
    match s
    case DeclStmt(pattern, ascription, init) =>
      var tail := PrintDeclared(ascription, More(COLON_EQ, Bare(init, k)));
      if guarded then P.InParens(pattern, tail) else P.Print(pattern, tail)
    case ReassignStmt(place, compound, value) =>
      PrintGuarded(guarded, place, More(AssignWord(compound), Bare(value, k)))
    case ExprStmt(value) => PrintGuarded(guarded, value, k)
  }

  /** Statements that end in a semicolon. */
  function PrintStmts(ss: seq<A.Stmt>, k: Stream): Stream
    decreases ss, 0
  {
    if ss == [] then k else PrintStmt(ss[0], IsMisled(ss[0]), More(SEMICOLON, PrintStmts(ss[1..], k)))
  }

  /** The value of a block, like a statement without its semicolon. */
  function PrintValue(value: Option<A.Expr>, k: Stream): Stream
    decreases value, 0
  {
    if value.None? then k else PrintGuarded(Lead(value.value) == Some(DeclLead), value.value, k)
  }

  function PrintBlock(b: A.Block, k: Stream): Stream
    decreases b, 0
  {
    More(LBRACE, PrintStmts(b.statements, PrintValue(b.value, More(RBRACE, k))))
  }

  // ----- What is covered -----

  /** May the expression stand on the rung, at the end of another?  A bare `ret` may, but no
      looser expression that ends in one. */
  predicate MayEnd(level: int, e: A.Expr) {
    EndsBare(e) ==> Level(e) >= level || e.ReturnExpr?
  }

  /** The expressions that the parser can build: where no struct literal may start, `lit` is
      false, and a bare `ret` comes last. */
  predicate IsPlain(e: A.Expr, lit: bool)
    decreases e, 1
  {
    match e
    case LiteralExpr(_) => true
    case PathExpr(path) => path != []
    case UnaryExpr(_, inner) => IsPlain(inner, lit) && MayEnd(UNARY, inner)
    case BorrowExpr(_, inner) => IsPlain(inner, lit) && MayEnd(UNARY, inner)
    case BinaryExpr(op, lhs, rhs) => IsPlain(lhs, lit) && !EndsBare(lhs) && IsPlain(rhs, lit) && MayEnd(RightLevel(op), rhs)
    case CastExpr(inner, target) => IsPlain(inner, lit) && !EndsBare(inner) && IsType(target)
    case CallExpr(callee, args) => IsPlain(callee, lit) && !EndsBare(callee) && forall arg <- args :: IsPlain(arg, lit) && !EndsBare(arg)
    case MethodCallExpr(receiver, name, args) =>
      IsPlain(receiver, lit) && !EndsBare(receiver) && forall arg <- args :: IsPlain(arg, lit) && !EndsBare(arg)
    case FieldExpr(receiver, _) => IsPlain(receiver, lit) && !EndsBare(receiver)
    case IndexExpr(receiver, index) => IsPlain(receiver, lit) && !EndsBare(receiver) && IsPlain(index, lit) && !EndsBare(index)
    case QuestionExpr(inner) => IsPlain(inner, lit) && !EndsBare(inner)
    case TupleExpr(elements) => elements != [] && forall element <- elements :: IsPlain(element, lit) && !EndsBare(element)
    case _ => IsForm(e, lit)
  }

  predicate IsForm(e: A.Expr, lit: bool)
    decreases e, 0
  {
    match e
    case StructExpr(path, init, baseExpr) =>
      && lit && path != [] && (forall f <- init :: IsPlain(f.value, lit))
      && (forall i | 0 <= i < |init| && EndsBare(init[i].value) :: i == |init| - 1 && baseExpr.None?)
      && (baseExpr.Some? ==> IsPlain(baseExpr.value, lit))
    case IfExpr(cond, thenBlock, elseBlock) =>
      IsCond(cond, lit) && IsBlock(thenBlock, lit) && (elseBlock.Some? ==> IsBlock(elseBlock.value, lit))
    case WhileExpr(cond, body) => IsCond(cond, lit) && IsBlock(body, lit)
    case MatchExpr(scrutinee, arms) =>
      IsPlain(scrutinee, false) && !EndsBare(scrutinee) && forall arm <- arms :: P.IsPattern(arm.pattern) && IsPlain(arm.body, lit)
    case LoopExpr(body) => IsBlock(body, lit)
    case BlockExpr(block) => IsBlock(block, lit)
    case ReturnExpr(result) => result.Some? ==> IsPlain(result.value, lit)
    case BreakExpr | ContinueExpr => true
    case RangeExpr(start, end, _) =>
      (start.Some? ==> IsPlain(start.value, lit) && !EndsBare(start.value)) &&
      (end.Some? ==> IsPlain(end.value, lit) && MayEnd(OR, end.value))
    case _ => false
  }

  predicate IsCond(cond: A.Cond, lit: bool)
    decreases cond, 0
  {
    match cond
    case PatternCond(pattern, init) => P.IsPattern(pattern) && IsPlain(init, lit) && !EndsBare(init)
    case ExprCond(value) => IsPlain(value, false) && !EndsBare(value)
  }

  predicate IsStmt(s: A.Stmt, lit: bool)
    decreases s, 0
  {
    match s
    case DeclStmt(pattern, ascription, init) =>
      P.IsPattern(pattern) && (ascription.Some? ==> IsType(ascription.value)) && IsPlain(init, lit)
    case ReassignStmt(place, compound, value) =>
      IsPlain(place, lit) && !EndsBare(place) && (compound.Some? ==> IsCompound(compound.value)) && IsPlain(value, lit)
    case ExprStmt(value) => IsPlain(value, lit)
  }

  predicate IsBlock(b: A.Block, lit: bool)
    decreases b, 0
  {
    (forall s <- b.statements :: IsStmt(s, lit)) && (b.value.Some? ==> IsPlain(b.value.value, lit))
  }

  /** Fit to be a part of another expression, wherever. */
  predicate IsPart(e: A.Expr, lit: bool) {
    IsPlain(e, lit) && !EndsBare(e)
  }

  /** Fit to be the last operand of another expression. */
  predicate IsOperand(level: int, e: A.Expr, lit: bool) {
    IsPlain(e, lit) && MayEnd(level, e)
  }

  // ----- What can follow -----

  /** The rung on which a token would extend the expression before it: a range operator
      extends whole expressions only, and -2 means that it extends nothing. */
  function Extends(kind: Kind, lit: bool): int {
    if kind == LParen || kind == Dot || kind == LBracket || kind == Question || kind == ColonColon
       || kind == Else || (kind == LBrace && lit) then POSTFIX
    else if kind == As then CAST
    else if kind == StarStar then POW
    else if OpAt(MUL, kind).Some? then MUL
    else if OpAt(ADD, kind).Some? then ADD
    else if OpAt(SHIFT, kind).Some? then SHIFT
    else if kind == Amp then BIT_AND
    else if kind == Caret then BIT_XOR
    else if kind == Pipe then BIT_OR
    else if OpAt(CMP, kind).Some? then CMP
    else if kind == AmpAmp then AND
    else if kind == PipePipe then OR
    else if IsRangeOp(kind) then -1
    else -2
  }

  predicate Follows(level: int, k: Stream, lit: bool) {
    k.More? && Extends(k.head.kind, lit) < level
  }

  /** A bare `ret` needs one of these behind it. */
  predicate MayStop(e: A.Expr, k: Stream) {
    EndsBare(e) ==> k.More? && (k.head.kind == Semicolon || k.head.kind == RBrace || k.head.kind == Eof)
  }

  /** May a token follow the expression as a whole? */
  predicate Stops(e: A.Expr, k: Stream) {
    && k.More? && MayStop(e, k)
    && (IsOpen(e) ==>
          IsCloser(k.head.kind) || k.head.kind == Comma || k.head.kind == Semicolon || k.head.kind == Eof)
  }

  // ----- How printed expressions begin -----

  /** The tokens a tightest expression can begin with. */
  predicate StartsPostfix(kind: Kind) {
    || IsLiteral(kind) || IsPathSegment(kind) || kind == LParen || kind == LBrace
    || kind == If || kind == Match || kind == Loop || kind == While || kind == Break || kind == Continue || kind == Ret
  }

  predicate StartsExpr(kind: Kind) {
    StartsPostfix(kind) || kind == Amp || UnaryOpOf(kind).Some?
  }

  predicate StartsWhole(kind: Kind) {
    StartsExpr(kind) || IsRangeOp(kind)
  }

  lemma {:induction false} PrintHead(level: int, e: A.Expr, k: Stream, lit: bool)
    requires IsOperand(level, e, lit)
    ensures Print(level, e, k).More? && StartsWhole(Print(level, e, k).head.kind)
    ensures level >= OR ==> StartsExpr(Print(level, e, k).head.kind)
    ensures level == POSTFIX ==> StartsPostfix(Print(level, e, k).head.kind)
    decreases e, 2
  {
    if !NeedsParens(level, e) {
      BareHead(e, k, lit);
    }
  }

  lemma {:induction false} CalleeHead(e: A.Expr, k: Stream, lit: bool)
    requires IsPart(e, lit)
    ensures PrintCallee(e, k).More? && StartsPostfix(PrintCallee(e, k).head.kind)
    decreases e, 3
  {
    if !IsNamedField(e) {
      PrintHead(POSTFIX, e, k, lit);
    }
  }

  lemma {:induction false} BareHead(e: A.Expr, k: Stream, lit: bool)
    requires IsPlain(e, lit)
    ensures Bare(e, k).More? && StartsWhole(Bare(e, k).head.kind)
    ensures !e.RangeExpr? ==> StartsExpr(Bare(e, k).head.kind)
    ensures Level(e) == POSTFIX || e.ReturnExpr? ==> StartsPostfix(Bare(e, k).head.kind)
    decreases e, 1
  {
    match e
    case BinaryExpr(op, lhs, rhs) =>
      PrintHead(LeftLevel(op), lhs, More(BinaryWord(op), Print(RightLevel(op), rhs, k)), lit);
    case CastExpr(inner, target) => PrintHead(UNARY, inner, More(AS, PrintTarget(target, k)), lit);
    case CallExpr(callee, args) =>
      CalleeHead(callee, More(LPAREN, PrintList(args, More(RPAREN, k))), lit);
    case MethodCallExpr(receiver, name, args) =>
      PrintHead(POSTFIX, receiver, More(DOT, More(Word(Ident, name, 0), More(LPAREN, PrintList(args, More(RPAREN, k))))), lit);
    case FieldExpr(receiver, name) => PrintHead(POSTFIX, receiver, More(DOT, More(FieldWord(name), k)), lit);
    case IndexExpr(receiver, index) =>
      PrintHead(POSTFIX, receiver, More(LBRACKET, Bare(index, More(RBRACKET, k))), lit);
    case QuestionExpr(inner) => PrintHead(POSTFIX, inner, More(QUESTION, k), lit);
    case LiteralExpr(_) =>
    case PathExpr(_) =>
    case UnaryExpr(_, _) =>
    case BorrowExpr(_, _) =>
    case TupleExpr(_) =>
    case _ => FormHead(e, k, lit);
  }

  lemma {:induction false} FormHead(e: A.Expr, k: Stream, lit: bool)
    requires IsForm(e, lit)
    ensures PrintForm(e, k).More? && StartsWhole(PrintForm(e, k).head.kind)
    ensures !e.RangeExpr? ==> StartsPostfix(PrintForm(e, k).head.kind)
    decreases e, 0
  {
    match e
    case RangeExpr(start, end, inclusive) =>
      if start.Some? {
        PrintHead(OR, start.value, More(RangeWord(end, inclusive), PrintBound(end, k)), lit);
      }
    case _ =>
  }
}
