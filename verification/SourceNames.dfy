/** Syntax trees whose names are all ones that source text can spell. */
module SourceNames {
  import opened Options
  import opened Spelling
  import opened Ast

  predicate SourcePath(path: Path) {
    forall name <- path :: IsWord(name)
  }

  predicate SourcePattern(p: Pattern)
    decreases p
  {
    match p
    case IdentPattern(name) => IsWord(name)
    case MutIdentPattern(name) => IsWord(name)
    case TuplePattern(_, elements) => forall q <- elements :: SourcePattern(q)
    case StructPattern(_, fields) => forall f <- fields :: SourcePattern(f.pattern)
    case RefPattern(_, inner) => SourcePattern(inner)
    case OrPattern(first, rest) => SourcePattern(first) && forall q <- rest :: SourcePattern(q)
    case _ => true
  }

  predicate SourcePatterns(ps: seq<Pattern>) {
    forall q <- ps :: SourcePattern(q)
  }

  predicate SourceFields(fields: seq<FieldPattern>) {
    forall f <- fields :: SourcePattern(f.pattern)
  }

  predicate SourceOption(e: Option<Expr>)
    decreases e
  {
    e.Some? ==> SourceExpr(e.value)
  }

  predicate SourceExpr(e: Expr)
    decreases e
  {
    match e
    case PathExpr(path) => SourcePath(path)
    case StructExpr(_, init, baseExpr) => (forall i <- init :: SourceExpr(i.value)) && SourceOption(baseExpr)
    case TupleExpr(elements) => forall x <- elements :: SourceExpr(x)
    case UnaryExpr(_, inner) => SourceExpr(inner)
    case BorrowExpr(_, inner) => SourceExpr(inner)
    case BinaryExpr(_, lhs, rhs) => SourceExpr(lhs) && SourceExpr(rhs)
    case CastExpr(inner, _) => SourceExpr(inner)
    case CallExpr(callee, args) => SourceExpr(callee) && forall x <- args :: SourceExpr(x)
    case MethodCallExpr(receiver, _, args) => SourceExpr(receiver) && forall x <- args :: SourceExpr(x)
    case FieldExpr(receiver, _) => SourceExpr(receiver)
    case IndexExpr(receiver, index) => SourceExpr(receiver) && SourceExpr(index)
    case QuestionExpr(inner) => SourceExpr(inner)
    case IfExpr(cond, thenBlock, elseBlock) =>
      SourceCond(cond) && SourceBlock(thenBlock) && (elseBlock.Some? ==> SourceBlock(elseBlock.value))
    case MatchExpr(scrutinee, arms) => SourceExpr(scrutinee) && forall a <- arms :: SourceArm(a)
    case LoopExpr(body) => SourceBlock(body)
    case WhileExpr(cond, body) => SourceCond(cond) && SourceBlock(body)
    case BlockExpr(block) => SourceBlock(block)
    case ReturnExpr(result) => SourceOption(result)
    case RangeExpr(start, end, _) => SourceOption(start) && SourceOption(end)
    case _ => true
  }

  predicate SourceExprs(es: seq<Expr>) {
    forall x <- es :: SourceExpr(x)
  }

  predicate SourceInits(init: seq<FieldInit>) {
    forall i <- init :: SourceExpr(i.value)
  }

  predicate SourceCond(cond: Cond)
    decreases cond
  {
    match cond
    case PatternCond(pattern, init) => SourcePattern(pattern) && SourceExpr(init)
    case ExprCond(value) => SourceExpr(value)
  }

  predicate SourceArm(arm: MatchArm)
    decreases arm
  {
    SourcePattern(arm.pattern) && SourceExpr(arm.body)
  }

  predicate SourceArms(arms: seq<MatchArm>) {
    forall a <- arms :: SourceArm(a)
  }

  predicate SourceBlock(b: Block)
    decreases b
  {
    (forall s <- b.statements :: SourceStmt(s)) && SourceOption(b.value)
  }

  predicate SourceStmt(s: Stmt)
    decreases s
  {
    match s
    case DeclStmt(pattern, _, init) => SourcePattern(pattern) && SourceExpr(init)
    case ReassignStmt(place, _, value) => SourceExpr(place) && SourceExpr(value)
    case ExprStmt(value) => SourceExpr(value)
  }

  predicate SourceStmts(ss: seq<Stmt>) {
    forall s <- ss :: SourceStmt(s)
  }

  predicate SourceParams(params: seq<FnParam>) {
    forall q <- params :: SourcePattern(q.pattern)
  }

  predicate SourceItem(item: Item)
    decreases item
  {
    match item
    case FnItem(_, _, params, _, body) => SourceParams(params) && SourceBlock(body)
    case StaticItem(_, _, _, init) => SourceExpr(init)
    case ConstItem(_, _, _, init) => SourceExpr(init)
    case ImplItem(_, _, methods) => forall m <- methods :: SourceItem(m)
    case ModItem(_, name, items, _) => IsWord(name) && forall m <- items :: SourceItem(m)
    case UseItem(_, path, _) => SourcePath(path)
    case _ => true
  }

  predicate SourceItems(items: seq<Item>) {
    forall m <- items :: SourceItem(m)
  }

  // ----- Module names alone -----

  /** Every module declared among the items, or inside another, has a name of source text, and
      every use has a path of such names. */
  predicate SourceModules(items: seq<Item>)
    decreases items
  {
    forall m <- items :: SourceUse(m) && (m.ModItem? ==> IsWord(m.name) && SourceModules(m.items))
  }

  predicate SourceUse(item: Item) {
    item.UseItem? ==> SourcePath(item.path)
  }

  lemma {:induction false} ItemsNameModules(items: seq<Item>)
    requires SourceItems(items)
    ensures SourceModules(items)
    decreases items
  {
    forall m <- items ensures SourceUse(m) && (m.ModItem? ==> IsWord(m.name) && SourceModules(m.items)) {
      assert SourceItem(m);
      if m.ModItem? { ItemsNameModules(m.items); }
    }
  }
}
