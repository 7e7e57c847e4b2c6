/** The scope tree of a syntax tree: which constructs open a scope, and what stands in it. */
module Lowering {
  import opened Options
  import opened Scoping
  import Ast

  // ----- Patterns -----

  function LowerPattern(p: Ast.Pattern): Pattern<string>
    decreases p, 1
  {
    match p
    case WildcardPattern => PlainPattern(WildcardForm, [])
    case IdentPattern(name) => Binder(false, name)
    case MutIdentPattern(name) => Binder(true, name)
    case LiteralPattern(value) => PlainPattern(LiteralPatternForm(value), [])
    case TuplePattern(head, elements) => PlainPattern(TuplePatternForm(head), LowerPatterns(elements))
    case StructPattern(path, fields) =>
      PlainPattern(StructPatternForm(path, FieldNames(fields)), LowerFields(fields))
    case RefPattern(isMut, inner) => PlainPattern(RefPatternForm(isMut), [LowerPattern(inner)])
    case OrPattern(first, rest) => OrPattern(LowerPattern(first), LowerPatterns(rest))
  }

  function LowerPatterns(ps: seq<Ast.Pattern>): (r: seq<Pattern<string>>)
    ensures |r| == |ps|
    decreases ps, 0
  {
    if ps == [] then [] else [LowerPattern(ps[0])] + LowerPatterns(ps[1..])
  }

  function FieldNames(fields: seq<Ast.FieldPattern>): seq<string> {
    if fields == [] then [] else [fields[0].name] + FieldNames(fields[1..])
  }

  function LowerFields(fields: seq<Ast.FieldPattern>): seq<Pattern<string>>
    decreases fields, 0
  {
    if fields == [] then [] else [LowerPattern(fields[0].pattern)] + LowerFields(fields[1..])
  }

  // ----- Expressions -----

  function LowerOptional(e: Option<Ast.Expr>): seq<Tree<string>>
    decreases e, 0
  {
    match e
    case None => []
    case Some(x) => [LowerExpr(x)]
  }

  function LowerExpr(e: Ast.Expr): Tree<string>
    decreases e, 1
  {
    match e
    case LiteralExpr(value) => Group(LiteralForm(value), [])
    case PathExpr(path) => if |path| == 1 then Use(path[0]) else Group(PathForm(path), [])
    case StructExpr(path, init, baseExpr) =>
      Group(StructForm(path, InitNames(init), baseExpr.Some?), LowerInits(init) + LowerOptional(baseExpr))
    case TupleExpr(elements) => Group(TupleForm, LowerExprs(elements))
    case UnaryExpr(uop, inner) => Group(UnaryForm(uop), [LowerExpr(inner)])
    case BorrowExpr(isMut, inner) => Group(BorrowForm(isMut), [LowerExpr(inner)])
    case BinaryExpr(op, lhs, rhs) => Group(BinaryForm(op), [LowerExpr(lhs), LowerExpr(rhs)])
    case CastExpr(inner, target) => Group(CastForm(target), [LowerExpr(inner)])
    case CallExpr(callee, args) => Group(CallForm, [LowerExpr(callee)] + LowerExprs(args))
    case MethodCallExpr(receiver, name, args) =>
      Group(MethodCallForm(name), [LowerExpr(receiver)] + LowerExprs(args))
    case FieldExpr(receiver, name) => Group(FieldForm(name), [LowerExpr(receiver)])
    case IndexExpr(receiver, index) => Group(IndexForm, [LowerExpr(receiver), LowerExpr(index)])
    case QuestionExpr(inner) => Group(QuestionForm, [LowerExpr(inner)])
    case IfExpr(cond, thenBlock, elseBlock) =>
      Group(IfForm(elseBlock.Some?), LowerCond(cond, LowerBlock(thenBlock)) + LowerElse(elseBlock))
    case MatchExpr(scrutinee, arms) => Group(MatchForm, [LowerExpr(scrutinee)] + LowerArms(arms))
    case LoopExpr(body) => Group(LoopForm, [LowerBlock(body)])
    case WhileExpr(cond, body) => Group(WhileForm, LowerCond(cond, LowerBlock(body)))
    case BlockExpr(block) => Group(BlockExprForm, [LowerBlock(block)])
    case ReturnExpr(result) => Group(ReturnForm(result.Some?), LowerOptional(result))
    case BreakExpr => Group(BreakForm, [])
    case ContinueExpr => Group(ContinueForm, [])
    case RangeExpr(start, end, inclusive) =>
      Group(RangeForm(start.Some?, end.Some?, inclusive), LowerOptional(start) + LowerOptional(end))
  }

  function LowerExprs(es: seq<Ast.Expr>): (r: seq<Tree<string>>)
    decreases es, 0
  {
    if es == [] then [] else [LowerExpr(es[0])] + LowerExprs(es[1..])
  }

  function InitNames(init: seq<Ast.FieldInit>): seq<string> {
    if init == [] then [] else [init[0].name] + InitNames(init[1..])
  }

  function LowerInits(init: seq<Ast.FieldInit>): seq<Tree<string>>
    decreases init, 0
  {
    if init == [] then [] else [LowerExpr(init[0].value)] + LowerInits(init[1..])
  }

  /** A pattern condition's initializer stands outside the scope its names are in; that
      scope holds the guarded block and nothing else. */
  function LowerCond(cond: Ast.Cond, body: Tree<string>): seq<Tree<string>>
    decreases cond, 0
  {
    match cond
    case PatternCond(pattern, init) =>
      [LowerExpr(init), Scope(ConditionForm, [Bind(LowerPattern(pattern)), body])]
    case ExprCond(value) => [LowerExpr(value), body]
  }

  function LowerElse(block: Option<Ast.Block>): seq<Tree<string>>
    decreases block, 0
  {
    match block
    case None => []
    case Some(b) => [LowerBlock(b)]
  }

  function LowerArm(arm: Ast.MatchArm): Tree<string>
    decreases arm, 1
  {
    Scope(ArmForm, [Bind(LowerPattern(arm.pattern)), LowerExpr(arm.body)])
  }

  function LowerArms(arms: seq<Ast.MatchArm>): seq<Tree<string>>
    decreases arms, 0
  {
    if arms == [] then [] else [LowerArm(arms[0])] + LowerArms(arms[1..])
  }

  // ----- Blocks and statements -----

  function LowerBlock(b: Ast.Block): Tree<string>
    decreases b, 0
  {
    Scope(BlockForm(b.value.Some?), LowerStmts(b.statements) + LowerOptional(b.value))
  }

  /** Initializers evaluate before the names they are bound to exist. */
  function LowerStmt(s: Ast.Stmt): Tree<string>
    decreases s, 1
  {
    match s
    case DeclStmt(pattern, ascription, init) =>
      Group(DeclForm(ascription), [LowerExpr(init), Bind(LowerPattern(pattern))])
    case ReassignStmt(place, compound, value) =>
      Group(ReassignForm(compound), [LowerExpr(place), LowerExpr(value)])
    case ExprStmt(value) => Group(ExprStmtForm, [LowerExpr(value)])
  }

  function LowerStmts(ss: seq<Ast.Stmt>): seq<Tree<string>>
    decreases ss, 0
  {
    if ss == [] then [] else [LowerStmt(ss[0])] + LowerStmts(ss[1..])
  }

  // ----- Items -----

  function ParamTypes(params: seq<Ast.FnParam>): seq<Ast.Type> {
    if params == [] then [] else [params[0].paramType] + ParamTypes(params[1..])
  }

  function LowerParams(params: seq<Ast.FnParam>): seq<Tree<string>> {
    if params == [] then [] else [Bind(LowerPattern(params[0].pattern))] + LowerParams(params[1..])
  }

  function LowerItem(item: Ast.Item): Tree<string>
    decreases item, 1
  {
    match item
    case FnItem(isPub, name, params, returnType, body) =>
      Scope(FnForm(isPub, name, ParamTypes(params), returnType), LowerParams(params) + [LowerBlock(body)])
    case StaticItem(isPub, name, itemType, init) => Scope(StaticForm(isPub, name, itemType), [LowerExpr(init)])
    case ConstItem(isPub, name, itemType, init) => Scope(ConstForm(isPub, name, itemType), [LowerExpr(init)])
    case ImplItem(isPub, target, methods) => Group(ImplForm(isPub, target), LowerItems(methods))
    case ModItem(isPub, name, items, isInline) => Group(ModForm(isPub, name, isInline), LowerItems(items))
    case StructItem(_, _, _) => Group(UnvisitedForm(item), [])
    case EnumItem(_, _, _) => Group(UnvisitedForm(item), [])
    case UseItem(_, _, _) => Group(UnvisitedForm(item), [])
  }

  function LowerItems(items: seq<Ast.Item>): seq<Tree<string>>
    decreases items, 0
  {
    if items == [] then [] else [LowerItem(items[0])] + LowerItems(items[1..])
  }

  /** A file's items stand in one scope, which binds nothing. */
  function LowerProgram(items: seq<Ast.Item>): Tree<string> {
    Group(ProgramForm, LowerItems(items))
  }
}
