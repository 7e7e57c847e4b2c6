/** Lowering keeps everything: different syntax trees have different scope trees. */
module LoweringKeeps {
  import opened Options
  import opened Scoping
  import opened Lowering
  import Ast

  lemma SameFirst<T>(x: T, xs: seq<T>, y: T, ys: seq<T>)
    requires [x] + xs == [y] + ys
    ensures x == y && xs == ys
  {
    assert ([x] + xs)[0] == x && ([y] + ys)[0] == y;
    assert ([x] + xs)[1..] == xs && ([y] + ys)[1..] == ys;
  }

  lemma SameHalves<T>(a: seq<T>, b: seq<T>, c: seq<T>, d: seq<T>)
    requires a + b == c + d && |a| == |c|
    ensures a == c && b == d
  {
    assert (a + b)[..|a|] == a && (c + d)[..|c|] == c;
    assert (a + b)[|a|..] == b && (c + d)[|c|..] == d;
  }

  lemma SameOne<T>(a: T, b: T)
    requires [a] == [b]
    ensures a == b
  {
    assert [a][0] == [b][0];
  }

  lemma SameTwo<T>(a: T, b: T, c: T, d: T)
    requires [a, b] == [c, d]
    ensures a == c && b == d
  {
    assert [a, b][0] == [c, d][0] && [a, b][1] == [c, d][1];
  }

  lemma FromParts<T>(a: seq<T>, b: seq<T>)
    requires a != [] && b != [] && a[0] == b[0] && a[1..] == b[1..]
    ensures a == b
  {
    assert a == [a[0]] + a[1..] && b == [b[0]] + b[1..];
  }

  // ----- Patterns -----

  lemma {:induction false} PatternKept(p: Ast.Pattern, q: Ast.Pattern)
    requires LowerPattern(p) == LowerPattern(q)
    ensures p == q
    decreases p, 1
  {
    match p
    case TuplePattern(_, elements) => PatternsKept(elements, q.elements);
    case StructPattern(_, fields) => FieldsKept(fields, q.fields);
    case RefPattern(_, inner) =>
      SameOne(LowerPattern(inner), LowerPattern(q.inner));
      PatternKept(inner, q.inner);
    case OrPattern(first, rest) =>
      PatternKept(first, q.first);
      PatternsKept(rest, q.rest);
    case _ =>
  }

  lemma {:induction false} PatternsKept(ps: seq<Ast.Pattern>, qs: seq<Ast.Pattern>)
    requires LowerPatterns(ps) == LowerPatterns(qs)
    ensures ps == qs
    decreases ps, 0
  {
    if ps != [] && qs != [] {
      SameFirst(LowerPattern(ps[0]), LowerPatterns(ps[1..]), LowerPattern(qs[0]), LowerPatterns(qs[1..]));
      PatternKept(ps[0], qs[0]);
      PatternsKept(ps[1..], qs[1..]);
      FromParts(ps, qs);
    }
  }

  lemma {:induction false} FieldsKept(fs: seq<Ast.FieldPattern>, gs: seq<Ast.FieldPattern>)
    requires LowerFields(fs) == LowerFields(gs) && FieldNames(fs) == FieldNames(gs)
    ensures fs == gs
    decreases fs, 0
  {
    if fs != [] && gs != [] {
      SameFirst(LowerPattern(fs[0].pattern), LowerFields(fs[1..]), LowerPattern(gs[0].pattern), LowerFields(gs[1..]));
      SameFirst(fs[0].name, FieldNames(fs[1..]), gs[0].name, FieldNames(gs[1..]));
      PatternKept(fs[0].pattern, gs[0].pattern);
      FieldsKept(fs[1..], gs[1..]);
      FromParts(fs, gs);
    }
  }

  // ----- Expressions -----

  lemma {:induction false} OptionalKept(e: Option<Ast.Expr>, f: Option<Ast.Expr>)
    requires LowerOptional(e) == LowerOptional(f)
    ensures e == f
    decreases e, 0
  {
    if e.Some? && f.Some? {
      assert LowerOptional(e)[0] == LowerOptional(f)[0];
      ExprKept(e.value, f.value);
    }
  }

  lemma {:induction false} ExprKept(e: Ast.Expr, f: Ast.Expr)
    requires LowerExpr(e) == LowerExpr(f)
    ensures e == f
    decreases e, 1
  {
    SameOperation(e, f);
    SameMember(e, f);
    SameControl(e, f);
    match e
    case PathExpr(path) =>
      if |path| == 1 { assert path == [path[0]] && f.path == [f.path[0]]; }
    case StructExpr(_, init, baseExpr) =>
      InitsMeasure(init);
      InitsMeasure(f.init);
      SameHalves(LowerInits(init), LowerOptional(baseExpr), LowerInits(f.init), LowerOptional(f.baseExpr));
      InitsKept(init, f.init);
      OptionalKept(baseExpr, f.baseExpr);
    case TupleExpr(elements) => ExprsKept(elements, f.elements);
    case UnaryExpr(_, inner) =>
      SameOne(LowerExpr(inner), LowerExpr(f.inner));
      ExprKept(inner, f.inner);
    case BorrowExpr(_, inner) =>
      SameOne(LowerExpr(inner), LowerExpr(f.inner));
      ExprKept(inner, f.inner);
    case BinaryExpr(_, lhs, rhs) =>
      SameTwo(LowerExpr(lhs), LowerExpr(rhs), LowerExpr(f.lhs), LowerExpr(f.rhs));
      ExprKept(lhs, f.lhs);
      ExprKept(rhs, f.rhs);
    case CastExpr(inner, _) =>
      SameOne(LowerExpr(inner), LowerExpr(f.inner));
      ExprKept(inner, f.inner);
    case CallExpr(callee, args) =>
      SameFirst(LowerExpr(callee), LowerExprs(args), LowerExpr(f.callee), LowerExprs(f.args));
      ExprKept(callee, f.callee);
      ExprsKept(args, f.args);
    case MethodCallExpr(receiver, _, args) =>
      SameFirst(LowerExpr(receiver), LowerExprs(args), LowerExpr(f.receiver), LowerExprs(f.args));
      ExprKept(receiver, f.receiver);
      ExprsKept(args, f.args);
    case FieldExpr(receiver, _) =>
      SameOne(LowerExpr(receiver), LowerExpr(f.receiver));
      ExprKept(receiver, f.receiver);
    case IndexExpr(receiver, index) =>
      SameTwo(LowerExpr(receiver), LowerExpr(index), LowerExpr(f.receiver), LowerExpr(f.index));
      ExprKept(receiver, f.receiver);
      ExprKept(index, f.index);
    case QuestionExpr(inner) =>
      SameOne(LowerExpr(inner), LowerExpr(f.inner));
      ExprKept(inner, f.inner);
    case IfExpr(cond, thenBlock, elseBlock) => IfKept(cond, thenBlock, elseBlock, f.cond, f.thenBlock, f.elseBlock, e);
    case MatchExpr(scrutinee, arms) =>
      SameFirst(LowerExpr(scrutinee), LowerArms(arms), LowerExpr(f.scrutinee), LowerArms(f.arms));
      ExprKept(scrutinee, f.scrutinee);
      ArmsKept(arms, f.arms);
    case LoopExpr(body) =>
      SameOne(LowerBlock(body), LowerBlock(f.body));
      BlockKept(body, f.body);
    case WhileExpr(cond, body) =>
      CondKept(cond, LowerBlock(body), f.cond, LowerBlock(f.body));
      BlockKept(body, f.body);
    case BlockExpr(block) =>
      SameOne(LowerBlock(block), LowerBlock(f.block));
      BlockKept(block, f.block);
    case ReturnExpr(result) => OptionalKept(result, f.result);
    case RangeExpr(start, end, _) =>
      SameHalves(LowerOptional(start), LowerOptional(end), LowerOptional(f.start), LowerOptional(f.end));
      OptionalKept(start, f.start);
      OptionalKept(end, f.end);
    case _ =>
  }

  /** The form of a node tells what it was, and all but its parts. */
  lemma SameOperation(e: Ast.Expr, f: Ast.Expr)
    requires LowerExpr(e) == LowerExpr(f)
    ensures match e
      case LiteralExpr(value) => f == Ast.LiteralExpr(value)
      case PathExpr(path) => f.PathExpr? && |f.path| == |path| && (|path| != 1 ==> f.path == path)
      case StructExpr(path, init, _) => f.StructExpr? && f.path == path && InitNames(f.init) == InitNames(init)
      case TupleExpr(_) => f.TupleExpr?
      case UnaryExpr(uop, _) => f.UnaryExpr? && f.uop == uop
      case BorrowExpr(isMut, _) => f.BorrowExpr? && f.isMut == isMut
      case BinaryExpr(op, _, _) => f.BinaryExpr? && f.op == op
      case CastExpr(_, target) => f.CastExpr? && f.target == target
      case CallExpr(_, _) => f.CallExpr?
      case _ => true
  {
  }

  lemma SameMember(e: Ast.Expr, f: Ast.Expr)
    requires LowerExpr(e) == LowerExpr(f)
    ensures match e
      case MethodCallExpr(_, name, _) => f.MethodCallExpr? && f.name == name
      case FieldExpr(_, name) => f.FieldExpr? && f.name == name
      case IndexExpr(_, _) => f.IndexExpr?
      case QuestionExpr(_) => f.QuestionExpr?
      case _ => true
  {
  }

  lemma SameControl(e: Ast.Expr, f: Ast.Expr)
    requires LowerExpr(e) == LowerExpr(f)
    ensures match e
      case IfExpr(_, _, elseBlock) => f.IfExpr? && f.elseBlock.Some? == elseBlock.Some?
      case MatchExpr(_, _) => f.MatchExpr?
      case LoopExpr(_) => f.LoopExpr?
      case WhileExpr(_, _) => f.WhileExpr?
      case BlockExpr(_) => f.BlockExpr?
      case ReturnExpr(result) => f.ReturnExpr? && f.result.Some? == result.Some?
      case BreakExpr => f.BreakExpr?
      case ContinueExpr => f.ContinueExpr?
      case RangeExpr(start, end, inclusive) =>
        f.RangeExpr? && f.start.Some? == start.Some? && f.end.Some? == end.Some? && f.inclusive == inclusive
      case _ => true
  {
  }

  lemma {:induction false} InitsMeasure(init: seq<Ast.FieldInit>)
    ensures |LowerInits(init)| == |InitNames(init)| == |init|
  {
    if init != [] { InitsMeasure(init[1..]); }
  }

  lemma {:induction false} ExprsKept(es: seq<Ast.Expr>, fs: seq<Ast.Expr>)
    requires LowerExprs(es) == LowerExprs(fs)
    ensures es == fs
    decreases es, 0
  {
    if es != [] && fs != [] {
      SameFirst(LowerExpr(es[0]), LowerExprs(es[1..]), LowerExpr(fs[0]), LowerExprs(fs[1..]));
      ExprKept(es[0], fs[0]);
      ExprsKept(es[1..], fs[1..]);
      FromParts(es, fs);
    }
  }

  lemma {:induction false} InitsKept(fs: seq<Ast.FieldInit>, gs: seq<Ast.FieldInit>)
    requires LowerInits(fs) == LowerInits(gs) && InitNames(fs) == InitNames(gs)
    ensures fs == gs
    decreases fs, 0
  {
    if fs != [] && gs != [] {
      SameFirst(LowerExpr(fs[0].value), LowerInits(fs[1..]), LowerExpr(gs[0].value), LowerInits(gs[1..]));
      SameFirst(fs[0].name, InitNames(fs[1..]), gs[0].name, InitNames(gs[1..]));
      ExprKept(fs[0].value, gs[0].value);
      InitsKept(fs[1..], gs[1..]);
      FromParts(fs, gs);
    }
  }

  lemma {:induction false} CondKept(cond: Ast.Cond, body: Tree<string>, cond': Ast.Cond, body': Tree<string>)
    requires LowerCond(cond, body) == LowerCond(cond', body') && IsBlock(body) && IsBlock(body')
    ensures cond == cond' && body == body'
    decreases cond, 0
  {
    var ts, us := LowerCond(cond, body), LowerCond(cond', body');
    assert ts[0] == us[0] && ts[1] == us[1];
    match cond
    case PatternCond(pattern, init) =>
      assert ts[1] == Scope(ConditionForm, [Bind(LowerPattern(pattern)), body]);
      assert us[1] == Scope(ConditionForm, [Bind(LowerPattern(cond'.pattern)), body']);
      SameTwo(Bind(LowerPattern(pattern)), body, Bind(LowerPattern(cond'.pattern)), body');
      PatternKept(pattern, cond'.pattern);
      ExprKept(init, cond'.init);
    case ExprCond(value) => ExprKept(value, cond'.value);
  }

  predicate IsBlock(t: Tree<string>) {
    t.Scope? && t.form.BlockForm?
  }

  lemma {:induction false} IfKept(cond: Ast.Cond, block: Ast.Block, els: Option<Ast.Block>,
                                  cond': Ast.Cond, block': Ast.Block, els': Option<Ast.Block>, e: Ast.Expr)
    requires e == Ast.IfExpr(cond, block, els) && els.Some? == els'.Some?
    requires LowerCond(cond, LowerBlock(block)) + LowerElse(els) == LowerCond(cond', LowerBlock(block')) + LowerElse(els')
    ensures cond == cond' && block == block' && els == els'
    decreases e, 0
  {
    SameHalves(LowerCond(cond, LowerBlock(block)), LowerElse(els), LowerCond(cond', LowerBlock(block')), LowerElse(els'));
    CondKept(cond, LowerBlock(block), cond', LowerBlock(block'));
    BlockKept(block, block');
    if els.Some? {
      SameOne(LowerBlock(els.value), LowerBlock(els'.value));
      BlockKept(els.value, els'.value);
    }
  }

  lemma {:induction false} ArmsKept(arms: seq<Ast.MatchArm>, others: seq<Ast.MatchArm>)
    requires LowerArms(arms) == LowerArms(others)
    ensures arms == others
    decreases arms, 0
  {
    if arms != [] && others != [] {
      SameFirst(LowerArm(arms[0]), LowerArms(arms[1..]), LowerArm(others[0]), LowerArms(others[1..]));
      ArmKept(arms[0], others[0]);
      ArmsKept(arms[1..], others[1..]);
      FromParts(arms, others);
    }
  }

  lemma {:induction false} ArmKept(arm: Ast.MatchArm, other: Ast.MatchArm)
    requires LowerArm(arm) == LowerArm(other)
    ensures arm == other
    decreases arm, 0
  {
    SameTwo(Bind(LowerPattern(arm.pattern)), LowerExpr(arm.body), Bind(LowerPattern(other.pattern)), LowerExpr(other.body));
    PatternKept(arm.pattern, other.pattern);
    ExprKept(arm.body, other.body);
  }

  // ----- Blocks and statements -----

  lemma {:induction false} BlockKept(b: Ast.Block, c: Ast.Block)
    requires LowerBlock(b) == LowerBlock(c)
    ensures b == c
    decreases b, 0
  {
    StmtsMeasure(b.statements);
    StmtsMeasure(c.statements);
    var parts := LowerStmts(b.statements) + LowerOptional(b.value);
    assert parts == LowerStmts(c.statements) + LowerOptional(c.value);
    assert |LowerOptional(b.value)| == |LowerOptional(c.value)|;
    assert |LowerStmts(b.statements)| == |parts| - |LowerOptional(b.value)| == |LowerStmts(c.statements)|;
    SameHalves(LowerStmts(b.statements), LowerOptional(b.value), LowerStmts(c.statements), LowerOptional(c.value));
    StmtsKept(b.statements, c.statements);
    OptionalKept(b.value, c.value);
  }

  lemma {:induction false} StmtsMeasure(ss: seq<Ast.Stmt>)
    ensures |LowerStmts(ss)| == |ss|
  {
    if ss != [] { StmtsMeasure(ss[1..]); }
  }

  lemma {:induction false} StmtsKept(ss: seq<Ast.Stmt>, ts: seq<Ast.Stmt>)
    requires LowerStmts(ss) == LowerStmts(ts)
    ensures ss == ts
    decreases ss, 0
  {
    if ss != [] && ts != [] {
      SameFirst(LowerStmt(ss[0]), LowerStmts(ss[1..]), LowerStmt(ts[0]), LowerStmts(ts[1..]));
      StmtKept(ss[0], ts[0]);
      StmtsKept(ss[1..], ts[1..]);
      FromParts(ss, ts);
    }
  }

  lemma {:induction false} StmtKept(s: Ast.Stmt, t: Ast.Stmt)
    requires LowerStmt(s) == LowerStmt(t)
    ensures s == t
    decreases s, 0
  {
    match s
    case DeclStmt(pattern, _, init) =>
      SameTwo(LowerExpr(init), Bind(LowerPattern(pattern)), LowerExpr(t.init), Bind(LowerPattern(t.pattern)));
      ExprKept(init, t.init);
      PatternKept(pattern, t.pattern);
    case ReassignStmt(place, _, value) =>
      SameTwo(LowerExpr(place), LowerExpr(value), LowerExpr(t.place), LowerExpr(t.value));
      ExprKept(place, t.place);
      ExprKept(value, t.value);
    case ExprStmt(value) =>
      SameOne(LowerExpr(value), LowerExpr(t.value));
      ExprKept(value, t.value);
  }

  // ----- Items -----

  lemma {:induction false} ParamsKept(ps: seq<Ast.FnParam>, qs: seq<Ast.FnParam>)
    requires LowerParams(ps) == LowerParams(qs) && ParamTypes(ps) == ParamTypes(qs)
    ensures ps == qs
  {
    if ps != [] && qs != [] {
      SameFirst(Bind(LowerPattern(ps[0].pattern)), LowerParams(ps[1..]), Bind(LowerPattern(qs[0].pattern)), LowerParams(qs[1..]));
      SameFirst(ps[0].paramType, ParamTypes(ps[1..]), qs[0].paramType, ParamTypes(qs[1..]));
      PatternKept(ps[0].pattern, qs[0].pattern);
      ParamsKept(ps[1..], qs[1..]);
      FromParts(ps, qs);
    }
  }

  lemma {:induction false} ParamsMeasure(ps: seq<Ast.FnParam>)
    ensures |LowerParams(ps)| == |ParamTypes(ps)| == |ps|
  {
    if ps != [] { ParamsMeasure(ps[1..]); }
  }

  lemma {:induction false} ItemKept(i: Ast.Item, j: Ast.Item)
    requires LowerItem(i) == LowerItem(j)
    ensures i == j
    decreases i, 1
  {
    match i
    case FnItem(_, _, params, _, body) =>
      ParamsMeasure(params);
      ParamsMeasure(j.params);
      SameHalves(LowerParams(params), [LowerBlock(body)], LowerParams(j.params), [LowerBlock(j.body)]);
      SameOne(LowerBlock(body), LowerBlock(j.body));
      ParamsKept(params, j.params);
      BlockKept(body, j.body);
    case StaticItem(_, _, _, init) =>
      SameOne(LowerExpr(init), LowerExpr(j.init));
      ExprKept(init, j.init);
    case ConstItem(_, _, _, init) =>
      SameOne(LowerExpr(init), LowerExpr(j.init));
      ExprKept(init, j.init);
    case ImplItem(_, _, methods) => ItemsKept(methods, j.methods);
    case ModItem(_, _, items, _) => ItemsKept(items, j.items);
    case _ =>
  }

  lemma {:induction false} ItemsKept(items: seq<Ast.Item>, others: seq<Ast.Item>)
    requires LowerItems(items) == LowerItems(others)
    ensures items == others
    decreases items, 0
  {
    if items != [] && others != [] {
      SameFirst(LowerItem(items[0]), LowerItems(items[1..]), LowerItem(others[0]), LowerItems(others[1..]));
      ItemKept(items[0], others[0]);
      ItemsKept(items[1..], others[1..]);
      FromParts(items, others);
    }
  }

  /** Programs with the same scope tree are the same program. */
  lemma ProgramKept(items: seq<Ast.Item>, others: seq<Ast.Item>)
    requires LowerProgram(items) == LowerProgram(others)
    ensures items == others
  {
    ItemsKept(items, others);
  }
}
