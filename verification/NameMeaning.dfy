/** What the names of a syntax tree mean, said on the tree itself: the binding that each
    single-segment path and each binder stands for, in the order in which they take effect.
    Scope trees mean the same. */
module NameMeaning {
  import opened Options
  import opened Scoping
  import opened Lowering
  import Ast
  import Spelling

  /** A name that is used, or bound. */
  datatype Occurrence<N> = Used(name: N) | Bound(name: N)

  type Names = seq<string>
  type Refs = seq<Occurrence<Ref>>

  // ----- Patterns -----

  /** The binders of a pattern, and the innermost scope after it. */
  function PatternOccs(depth: nat, top: Names, p: Ast.Pattern): (Names, Refs)
    decreases p, 1
  {
    match p
    case IdentPattern(name) => BinderOccs(depth, top, name)
    case MutIdentPattern(name) => BinderOccs(depth, top, name)
    case TuplePattern(_, elements) => PatternsOccs(depth, top, elements)
    case StructPattern(_, fields) => FieldsOccs(depth, top, fields)
    case RefPattern(_, inner) => PatternOccs(depth, top, inner)
    case OrPattern(first, rest) =>
      var (names, occs) := PatternOccs(depth + 1, [], first);
      (top + names, occs + AlternativesOccs(depth + 1, names, rest))
    case _ => (top, [])
  }

  function BinderOccs(depth: nat, top: Names, name: string): (Names, Refs) {
    (Introduce(depth, top, name).0, [Bound(Introduce(depth, top, name).1)])
  }

  function PatternsOccs(depth: nat, top: Names, ps: seq<Ast.Pattern>): (Names, Refs)
    decreases ps, 0
  {
    if ps == [] then (top, [])
    else
      var (top1, occs) := PatternOccs(depth, top, ps[0]);
      var (top2, later) := PatternsOccs(depth, top1, ps[1..]);
      (top2, occs + later)
  }

  function FieldsOccs(depth: nat, top: Names, fields: seq<Ast.FieldPattern>): (Names, Refs)
    decreases fields, 0
  {
    if fields == [] then (top, [])
    else
      var (top1, occs) := PatternOccs(depth, top, fields[0].pattern);
      var (top2, later) := FieldsOccs(depth, top1, fields[1..]);
      (top2, occs + later)
  }

  /** Every later alternative starts from the names of the first. */
  function AlternativesOccs(depth: nat, names: Names, ps: seq<Ast.Pattern>): Refs
    decreases ps, 0
  {
    if ps == [] then [] else PatternOccs(depth, names, ps[0]).1 + AlternativesOccs(depth, names, ps[1..])
  }

  // ----- Expressions: uses see all open scopes, and bind nothing around them -----

  function ExprOccs(scopes: seq<Names>, e: Ast.Expr): Refs
    decreases e, 1
  {
    match e
    case PathExpr(path) => if |path| == 1 then [Used(Resolve(scopes, path[0]))] else []
    case StructExpr(_, init, baseExpr) => InitsOccs(scopes, init) + OptionOccs(scopes, baseExpr)
    case TupleExpr(elements) => ExprsOccs(scopes, elements)
    case UnaryExpr(_, inner) => ExprOccs(scopes, inner)
    case BorrowExpr(_, inner) => ExprOccs(scopes, inner)
    case BinaryExpr(_, lhs, rhs) => ExprOccs(scopes, lhs) + ExprOccs(scopes, rhs)
    case CastExpr(inner, _) => ExprOccs(scopes, inner)
    case CallExpr(callee, args) => ExprOccs(scopes, callee) + ExprsOccs(scopes, args)
    case MethodCallExpr(receiver, _, args) => ExprOccs(scopes, receiver) + ExprsOccs(scopes, args)
    case FieldExpr(receiver, _) => ExprOccs(scopes, receiver)
    case IndexExpr(receiver, index) => ExprOccs(scopes, receiver) + ExprOccs(scopes, index)
    case QuestionExpr(inner) => ExprOccs(scopes, inner)
    case IfExpr(cond, thenBlock, elseBlock) =>
      var (inside, occs) := CondOccs(scopes, cond);
      occs + BlockOccs(inside, thenBlock) + ElseOccs(scopes, elseBlock)
    case WhileExpr(cond, body) =>
      var (inside, occs) := CondOccs(scopes, cond);
      occs + BlockOccs(inside, body)
    case MatchExpr(scrutinee, arms) => ExprOccs(scopes, scrutinee) + ArmsOccs(scopes, arms)
    case LoopExpr(body) => BlockOccs(scopes, body)
    case BlockExpr(block) => BlockOccs(scopes, block)
    case ReturnExpr(result) => OptionOccs(scopes, result)
    case RangeExpr(start, end, _) => OptionOccs(scopes, start) + OptionOccs(scopes, end)
    case _ => []
  }

  function ExprsOccs(scopes: seq<Names>, es: seq<Ast.Expr>): Refs
    decreases es, 0
  {
    if es == [] then [] else ExprOccs(scopes, es[0]) + ExprsOccs(scopes, es[1..])
  }

  function OptionOccs(scopes: seq<Names>, e: Option<Ast.Expr>): Refs
    decreases e, 0
  {
    if e.None? then [] else ExprOccs(scopes, e.value)
  }

  function InitsOccs(scopes: seq<Names>, init: seq<Ast.FieldInit>): Refs
    decreases init, 0
  {
    if init == [] then [] else ExprOccs(scopes, init[0].value) + InitsOccs(scopes, init[1..])
  }

  function ElseOccs(scopes: seq<Names>, elseBlock: Option<Ast.Block>): Refs
    decreases elseBlock, 0
  {
    if elseBlock.None? then [] else BlockOccs(scopes, elseBlock.value)
  }

  /** The scopes of the block that is guarded, and what comes before it.  The initializer of a
      pattern condition does not see its names; the block does, and what comes after it does
      not. */
  function CondOccs(scopes: seq<Names>, cond: Ast.Cond): (seq<Names>, Refs)
    decreases cond, 1
  {
    match cond
    case PatternCond(pattern, init) =>
      var (names, occs) := PatternOccs(|scopes|, [], pattern);
      (scopes + [names], ExprOccs(scopes, init) + occs)
    case ExprCond(value) => (scopes, ExprOccs(scopes, value))
  }

  /** The names of an arm are seen in its body alone. */
  function ArmsOccs(scopes: seq<Names>, arms: seq<Ast.MatchArm>): Refs
    decreases arms, 1
  {
    if arms == [] then [] else ArmOccs(scopes, arms[0]) + ArmsOccs(scopes, arms[1..])
  }

  function ArmOccs(scopes: seq<Names>, arm: Ast.MatchArm): Refs
    decreases arm, 0
  {
    var (names, occs) := PatternOccs(|scopes|, [], arm.pattern);
    occs + ExprOccs(scopes + [names], arm.body)
  }

  // ----- Blocks and statements -----

  /** The value of a block sees the names that its statements bind. */
  function BlockOccs(scopes: seq<Names>, b: Ast.Block): Refs
    decreases b, 0
  {
    var (names, occs) := StmtsOccs(scopes, [], b.statements);
    occs + OptionOccs(scopes + [names], b.value)
  }

  function StmtsOccs(below: seq<Names>, top: Names, ss: seq<Ast.Stmt>): (Names, Refs)
    decreases ss, 1
  {
    if ss == [] then (top, [])
    else
      var (top1, occs) := StmtOccs(below, top, ss[0]);
      var (top2, later) := StmtsOccs(below, top1, ss[1..]);
      (top2, occs + later)
  }

  /** The uses in an initializer have the meaning that they would have before the
      statement: the names it declares are there for what comes after. */
  function StmtOccs(below: seq<Names>, top: Names, s: Ast.Stmt): (Names, Refs)
    decreases s, 0
  {
    match s
    case DeclStmt(pattern, _, init) =>
      var (top', occs) := PatternOccs(|below|, top, pattern);
      (top', ExprOccs(below + [top], init) + occs)
    case ReassignStmt(place, _, value) => (top, ExprOccs(below + [top], place) + ExprOccs(below + [top], value))
    case ExprStmt(value) => (top, ExprOccs(below + [top], value))
  }

  // ----- Items: functions see nothing of each other's names -----

  function ParamsOccs(depth: nat, top: Names, params: seq<Ast.FnParam>): (Names, Refs)
    decreases |params|
  {
    if params == [] then (top, [])
    else
      var (top1, occs) := PatternOccs(depth, top, params[0].pattern);
      var (top2, later) := ParamsOccs(depth, top1, params[1..]);
      (top2, occs + later)
  }

  /** All items stand in the outermost scope, which stays empty. */
  function ItemOccs(item: Ast.Item): Refs
    decreases item, 1
  {
    match item
    case FnItem(_, _, params, _, body) =>
      var (names, occs) := ParamsOccs(1, [], params);
      occs + BlockOccs([[], names], body)
    case StaticItem(_, _, _, init) => ExprOccs([[], []], init)
    case ConstItem(_, _, _, init) => ExprOccs([[], []], init)
    case ImplItem(_, _, methods) => ItemsOccs(methods)
    case ModItem(_, _, items, _) => ItemsOccs(items)
    case _ => []
  }

  function ItemsOccs(items: seq<Ast.Item>): Refs
    decreases items, 0
  {
    if items == [] then [] else ItemOccs(items[0]) + ItemsOccs(items[1..])
  }

  // ----- The names of a scope tree in the same order -----

  function PatternNames<N>(p: Pattern<N>): seq<Occurrence<N>>
    decreases p, 1
  {
    match p
    case Binder(_, name) => [Bound(name)]
    case PlainPattern(_, parts) => PatternsNames(parts)
    case OrPattern(first, rest) => PatternNames(first) + PatternsNames(rest)
  }

  function PatternsNames<N>(ps: seq<Pattern<N>>): seq<Occurrence<N>>
    decreases ps, 0
  {
    if ps == [] then [] else PatternNames(ps[0]) + PatternsNames(ps[1..])
  }

  function TreeNames<N>(t: Tree<N>): seq<Occurrence<N>>
    decreases t, 1
  {
    match t
    case Use(name) => [Used(name)]
    case Bind(p) => PatternNames(p)
    case Group(_, parts) => TreesNames(parts)
    case Scope(_, parts) => TreesNames(parts)
  }

  function TreesNames<N>(ts: seq<Tree<N>>): seq<Occurrence<N>>
    decreases ts, 0
  {
    if ts == [] then [] else TreeNames(ts[0]) + TreesNames(ts[1..])
  }

  // ----- Scope trees mean the same -----

  /** Trees that carry these meanings, and leave that innermost scope behind. */
  ghost predicate Mean(below: seq<Names>, top: Names, ts: seq<Tree<string>>, top': Names, occs: Refs) {
    TreesRefs(below, top, ts).0 == top' && TreesNames(TreesRefs(below, top, ts).1) == occs
  }

  ghost predicate Means(below: seq<Names>, top: Names, t: Tree<string>, top': Names, occs: Refs) {
    TreeRefs(below, top, t).0 == top' && TreeNames(TreeRefs(below, top, t).1) == occs
  }

  lemma MeanNothing(below: seq<Names>, top: Names)
    ensures Mean(below, top, [], top, [])
  {
  }

  lemma MeanFirst(below: seq<Names>, top: Names, t: Tree<string>, ts: seq<Tree<string>>,
                  top1: Names, top2: Names, occs: Refs, later: Refs)
    requires Means(below, top, t, top1, occs) && Mean(below, top1, ts, top2, later)
    ensures Mean(below, top, [t] + ts, top2, occs + later)
  {
    assert ([t] + ts)[0] == t && ([t] + ts)[1..] == ts;
    var (_, t') := TreeRefs(below, top, t);
    var (_, ts') := TreesRefs(below, top1, ts);
    assert ([t'] + ts')[0] == t' && ([t'] + ts')[1..] == ts';
  }

  lemma MeanOne(below: seq<Names>, top: Names, t: Tree<string>, top': Names, occs: Refs)
    requires Means(below, top, t, top', occs)
    ensures Mean(below, top, [t], top', occs)
  {
    MeanNothing(below, top');
    MeanFirst(below, top, t, [], top', top', occs, []);
    assert [t] + [] == [t] && occs + [] == occs;
  }

  lemma MeanTwo(below: seq<Names>, top: Names, t: Tree<string>, u: Tree<string>,
                top1: Names, top2: Names, occs: Refs, later: Refs)
    requires Means(below, top, t, top1, occs) && Means(below, top1, u, top2, later)
    ensures Mean(below, top, [t, u], top2, occs + later)
  {
    MeanOne(below, top1, u, top2, later);
    MeanFirst(below, top, t, [u], top1, top2, occs, later);
    assert [t] + [u] == [t, u];
  }

  lemma {:induction false} MeanBoth(below: seq<Names>, top: Names, ts: seq<Tree<string>>, us: seq<Tree<string>>,
                                    top1: Names, top2: Names, occs: Refs, later: Refs)
    requires Mean(below, top, ts, top1, occs) && Mean(below, top1, us, top2, later)
    ensures Mean(below, top, ts + us, top2, occs + later)
    decreases ts
  {
    if ts == [] {
      assert ts + us == us && occs + later == later;
    } else {
      var t, rest := ts[0], ts[1..];
      var (topA, t') := TreeRefs(below, top, t);
      var (_, rest') := TreesRefs(below, topA, rest);
      assert ([t'] + rest')[0] == t' && ([t'] + rest')[1..] == rest';
      MeanBoth(below, topA, rest, us, top1, top2, TreesNames(rest'), later);
      MeanFirst(below, top, t, rest + us, topA, top2, TreeNames(t'), TreesNames(rest') + later);
      assert [t] + (rest + us) == ts + us;
      Regroup(TreeNames(t'), TreesNames(rest'), later);
    }
  }

  lemma Regroup<T>(a: seq<T>, b: seq<T>, c: seq<T>)
    ensures a + (b + c) == a + b + c
  {
  }

  lemma GroupMeans(below: seq<Names>, top: Names, form: Form, parts: seq<Tree<string>>, top': Names, occs: Refs)
    requires Mean(below, top, parts, top', occs)
    ensures Means(below, top, Group(form, parts), top', occs)
  {
  }

  lemma ScopeMeans(below: seq<Names>, top: Names, form: Form, parts: seq<Tree<string>>, top': Names, occs: Refs)
    requires Mean(below + [top], [], parts, top', occs)
    ensures Means(below, top, Scope(form, parts), top, occs)
  {
  }

  // ----- Patterns -----

  ghost predicate PatternMeans(depth: nat, top: Names, p: Pattern<string>, r: (Names, Refs)) {
    PatternRefs(depth, top, p).0 == r.0 && PatternNames(PatternRefs(depth, top, p).1) == r.1
  }

  ghost predicate PatternsMean(depth: nat, top: Names, ps: seq<Pattern<string>>, r: (Names, Refs)) {
    PatternsRefs(depth, top, ps).0 == r.0 && PatternsNames(PatternsRefs(depth, top, ps).1) == r.1
  }

  lemma PatternsStep(depth: nat, top: Names, p: Pattern<string>, ps: seq<Pattern<string>>, r: (Names, Refs), later: (Names, Refs))
    requires PatternMeans(depth, top, p, r) && PatternsMean(depth, r.0, ps, later)
    ensures PatternsMean(depth, top, [p] + ps, (later.0, r.1 + later.1))
  {
    assert ([p] + ps)[0] == p && ([p] + ps)[1..] == ps;
    var p', ps' := PatternRefs(depth, top, p).1, PatternsRefs(depth, r.0, ps).1;
    assert ([p'] + ps')[0] == p' && ([p'] + ps')[1..] == ps';
  }

  lemma {:induction false} PatternIs(depth: nat, top: Names, p: Ast.Pattern)
    ensures PatternMeans(depth, top, LowerPattern(p), PatternOccs(depth, top, p))
    decreases p, 1
  {
    match p
    case TuplePattern(_, elements) => PatternsAre(depth, top, elements);
    case StructPattern(_, fields) => FieldsAre(depth, top, fields);
    case RefPattern(_, inner) =>
      PatternIs(depth, top, inner);
      var r := PatternOccs(depth, top, inner);
      PatternsStep(depth, top, LowerPattern(inner), [], r, (r.0, []));
      assert [LowerPattern(inner)] + [] == [LowerPattern(inner)] && r.1 + [] == r.1;
    case OrPattern(first, rest) =>
      PatternIs(depth + 1, [], first);
      AlternativesAre(depth + 1, PatternOccs(depth + 1, [], first).0, rest);
    case _ =>
  }

  lemma {:induction false} PatternsAre(depth: nat, top: Names, ps: seq<Ast.Pattern>)
    ensures PatternsMean(depth, top, LowerPatterns(ps), PatternsOccs(depth, top, ps))
    decreases ps, 0
  {
    if ps != [] {
      PatternIs(depth, top, ps[0]);
      var r := PatternOccs(depth, top, ps[0]);
      PatternsAre(depth, r.0, ps[1..]);
      PatternsStep(depth, top, LowerPattern(ps[0]), LowerPatterns(ps[1..]), r, PatternsOccs(depth, r.0, ps[1..]));
    }
  }

  lemma {:induction false} FieldsAre(depth: nat, top: Names, fields: seq<Ast.FieldPattern>)
    ensures PatternsMean(depth, top, LowerFields(fields), FieldsOccs(depth, top, fields))
    decreases fields, 0
  {
    if fields != [] {
      var p := fields[0].pattern;
      PatternIs(depth, top, p);
      var r := PatternOccs(depth, top, p);
      FieldsAre(depth, r.0, fields[1..]);
      PatternsStep(depth, top, LowerPattern(p), LowerFields(fields[1..]), r, FieldsOccs(depth, r.0, fields[1..]));
    }
  }

  lemma {:induction false} AlternativesAre(depth: nat, names: Names, ps: seq<Ast.Pattern>)
    ensures PatternsNames(AlternativesRefs(depth, names, LowerPatterns(ps))) == AlternativesOccs(depth, names, ps)
    decreases ps, 0
  {
    if ps != [] {
      PatternIs(depth, names, ps[0]);
      AlternativesAre(depth, names, ps[1..]);
      var p, later := LowerPattern(ps[0]), LowerPatterns(ps[1..]);
      assert ([p] + later)[0] == p && ([p] + later)[1..] == later;
      var p', later' := PatternRefs(depth, names, p).1, AlternativesRefs(depth, names, later);
      assert ([p'] + later')[0] == p' && ([p'] + later')[1..] == later';
    }
  }

  // ----- Expressions -----

  lemma {:induction false} ExprMeans(below: seq<Names>, top: Names, e: Ast.Expr)
    ensures Means(below, top, LowerExpr(e), top, ExprOccs(below + [top], e))
    decreases e, 2
  {
    if e.PathExpr? || e.LiteralExpr? || e.BreakExpr? || e.ContinueExpr? {
    } else {
      var form := LowerExpr(e).form;
      PartsMean(below, top, e);
      GroupMeans(below, top, form, LowerExpr(e).parts, top, ExprOccs(below + [top], e));
    }
  }

  lemma {:induction false} PartsMean(below: seq<Names>, top: Names, e: Ast.Expr)
    requires !e.PathExpr? && !e.LiteralExpr? && !e.BreakExpr? && !e.ContinueExpr?
    ensures Mean(below, top, LowerExpr(e).parts, top, ExprOccs(below + [top], e))
    decreases e, 1
  {
    var scopes := below + [top];
    match e
    case StructExpr(_, init, baseExpr) =>
      InitsMean(below, top, init);
      OptionMeans(below, top, baseExpr);
      MeanBoth(below, top, LowerInits(init), LowerOptional(baseExpr), top, top, InitsOccs(scopes, init), OptionOccs(scopes, baseExpr));
    case TupleExpr(elements) => ExprsMean(below, top, elements);
    case UnaryExpr(_, inner) => OneMeans(below, top, inner);
    case BorrowExpr(_, inner) => OneMeans(below, top, inner);
    case BinaryExpr(_, lhs, rhs) =>
      ExprMeans(below, top, lhs);
      ExprMeans(below, top, rhs);
      MeanTwo(below, top, LowerExpr(lhs), LowerExpr(rhs), top, top, ExprOccs(scopes, lhs), ExprOccs(scopes, rhs));
    case CastExpr(inner, _) => OneMeans(below, top, inner);
    case CallExpr(callee, args) =>
      ExprMeans(below, top, callee);
      ExprsMean(below, top, args);
      MeanFirst(below, top, LowerExpr(callee), LowerExprs(args), top, top, ExprOccs(scopes, callee), ExprsOccs(scopes, args));
    case MethodCallExpr(receiver, _, args) =>
      ExprMeans(below, top, receiver);
      ExprsMean(below, top, args);
      MeanFirst(below, top, LowerExpr(receiver), LowerExprs(args), top, top, ExprOccs(scopes, receiver), ExprsOccs(scopes, args));
    case FieldExpr(receiver, _) => OneMeans(below, top, receiver);
    case IndexExpr(receiver, index) =>
      ExprMeans(below, top, receiver);
      ExprMeans(below, top, index);
      MeanTwo(below, top, LowerExpr(receiver), LowerExpr(index), top, top, ExprOccs(scopes, receiver), ExprOccs(scopes, index));
    case QuestionExpr(inner) => OneMeans(below, top, inner);
    case IfExpr(cond, thenBlock, elseBlock) =>
      var (inside, occs) := CondOccs(scopes, cond);
      BlockMeansInside(inside, thenBlock);
      CondMeans(below, top, cond, LowerBlock(thenBlock), BlockOccs(inside, thenBlock));
      ElseMeans(below, top, elseBlock);
      MeanBoth(below, top, LowerCond(cond, LowerBlock(thenBlock)), LowerElse(elseBlock), top, top,
        occs + BlockOccs(inside, thenBlock), ElseOccs(scopes, elseBlock));
    case WhileExpr(cond, body) =>
      var (inside, occs) := CondOccs(scopes, cond);
      BlockMeansInside(inside, body);
      CondMeans(below, top, cond, LowerBlock(body), BlockOccs(inside, body));
    case MatchExpr(scrutinee, arms) =>
      ExprMeans(below, top, scrutinee);
      ArmsMean(below, top, arms);
      MeanFirst(below, top, LowerExpr(scrutinee), LowerArms(arms), top, top, ExprOccs(scopes, scrutinee), ArmsOccs(scopes, arms));
    case LoopExpr(body) =>
      BlockMeans(below, top, body);
      MeanOne(below, top, LowerBlock(body), top, BlockOccs(scopes, body));
    case BlockExpr(block) =>
      BlockMeans(below, top, block);
      MeanOne(below, top, LowerBlock(block), top, BlockOccs(scopes, block));
    case ReturnExpr(result) => OptionMeans(below, top, result);
    case RangeExpr(start, end, _) =>
      OptionMeans(below, top, start);
      OptionMeans(below, top, end);
      MeanBoth(below, top, LowerOptional(start), LowerOptional(end), top, top, OptionOccs(scopes, start), OptionOccs(scopes, end));
  }

  lemma {:induction false} OneMeans(below: seq<Names>, top: Names, e: Ast.Expr)
    ensures Mean(below, top, [LowerExpr(e)], top, ExprOccs(below + [top], e))
    decreases e, 3
  {
    ExprMeans(below, top, e);
    MeanOne(below, top, LowerExpr(e), top, ExprOccs(below + [top], e));
  }

  lemma {:induction false} ExprsMean(below: seq<Names>, top: Names, es: seq<Ast.Expr>)
    ensures Mean(below, top, LowerExprs(es), top, ExprsOccs(below + [top], es))
    decreases es, 0
  {
    if es == [] {
      MeanNothing(below, top);
    } else {
      ExprMeans(below, top, es[0]);
      ExprsMean(below, top, es[1..]);
      MeanFirst(below, top, LowerExpr(es[0]), LowerExprs(es[1..]), top, top,
        ExprOccs(below + [top], es[0]), ExprsOccs(below + [top], es[1..]));
    }
  }

  lemma {:induction false} InitsMean(below: seq<Names>, top: Names, init: seq<Ast.FieldInit>)
    ensures Mean(below, top, LowerInits(init), top, InitsOccs(below + [top], init))
    decreases init, 0
  {
    if init == [] {
      MeanNothing(below, top);
    } else {
      ExprMeans(below, top, init[0].value);
      InitsMean(below, top, init[1..]);
      MeanFirst(below, top, LowerExpr(init[0].value), LowerInits(init[1..]), top, top,
        ExprOccs(below + [top], init[0].value), InitsOccs(below + [top], init[1..]));
    }
  }

  lemma {:induction false} OptionMeans(below: seq<Names>, top: Names, e: Option<Ast.Expr>)
    ensures Mean(below, top, LowerOptional(e), top, OptionOccs(below + [top], e))
    decreases e, 0
  {
    if e.None? {
      MeanNothing(below, top);
    } else {
      OneMeans(below, top, e.value);
    }
  }

  // ----- Conditions, arms and blocks -----

  lemma {:induction false} ElseMeans(below: seq<Names>, top: Names, elseBlock: Option<Ast.Block>)
    ensures Mean(below, top, LowerElse(elseBlock), top, ElseOccs(below + [top], elseBlock))
    decreases elseBlock, 0
  {
    if elseBlock.None? {
      MeanNothing(below, top);
    } else {
      BlockMeans(below, top, elseBlock.value);
      MeanOne(below, top, LowerBlock(elseBlock.value), top, BlockOccs(below + [top], elseBlock.value));
    }
  }

  /** A block under a stack of scopes of which the last is the innermost. */
  lemma {:induction false} BlockMeansInside(scopes: seq<Names>, b: Ast.Block)
    requires scopes != []
    ensures var last := |scopes| - 1;
      Means(scopes[..last], scopes[last], LowerBlock(b), scopes[last], BlockOccs(scopes, b))
    decreases b, 1
  {
    var last := |scopes| - 1;
    BlockMeans(scopes[..last], scopes[last], b);
    assert scopes[..last] + [scopes[last]] == scopes;
  }

  lemma BindMeans(below: seq<Names>, top: Names, p: Ast.Pattern)
    ensures var r := PatternOccs(|below|, top, p); Means(below, top, Bind(LowerPattern(p)), r.0, r.1)
  {
    PatternIs(|below|, top, p);
  }

  /** A condition and what it guards, given what that means in the scopes of the condition. */
  lemma {:induction false} CondMeans(below: seq<Names>, top: Names, cond: Ast.Cond, body: Tree<string>, guarded: Refs)
    requires var inside := CondOccs(below + [top], cond).0; var last := |inside| - 1;
      inside != [] && Means(inside[..last], inside[last], body, inside[last], guarded)
    ensures Mean(below, top, LowerCond(cond, body), top, CondOccs(below + [top], cond).1 + guarded)
    decreases cond, 0
  {
    var scopes := below + [top];
    match cond
    case PatternCond(pattern, init) =>
      var (names, occs) := PatternOccs(|scopes|, [], pattern);
      assert (scopes + [names])[..|scopes|] == scopes;
      ExprMeans(below, top, init);
      BindMeans(scopes, [], pattern);
      var parts := [Bind(LowerPattern(pattern)), body];
      MeanTwo(scopes, [], parts[0], body, names, names, occs, guarded);
      ScopeMeans(below, top, ConditionForm, parts, names, occs + guarded);
      MeanTwo(below, top, LowerExpr(init), Scope(ConditionForm, parts), top, top, ExprOccs(scopes, init), occs + guarded);
      Regroup(ExprOccs(scopes, init), occs, guarded);
    case ExprCond(value) =>
      assert scopes[..|below|] == below;
      ExprMeans(below, top, value);
      MeanTwo(below, top, LowerExpr(value), body, top, top, ExprOccs(scopes, value), guarded);
  }

  lemma {:induction false} ArmsMean(below: seq<Names>, top: Names, arms: seq<Ast.MatchArm>)
    ensures Mean(below, top, LowerArms(arms), top, ArmsOccs(below + [top], arms))
    decreases arms, 1
  {
    if arms == [] {
      MeanNothing(below, top);
    } else {
      ArmMeans(below, top, arms[0]);
      ArmsMean(below, top, arms[1..]);
      MeanFirst(below, top, LowerArm(arms[0]), LowerArms(arms[1..]), top, top,
        ArmOccs(below + [top], arms[0]), ArmsOccs(below + [top], arms[1..]));
    }
  }

  lemma {:induction false} ArmMeans(below: seq<Names>, top: Names, arm: Ast.MatchArm)
    ensures Means(below, top, LowerArm(arm), top, ArmOccs(below + [top], arm))
    decreases arm, 0
  {
    var scopes := below + [top];
    var (names, occs) := PatternOccs(|scopes|, [], arm.pattern);
    var inner := ExprOccs(scopes + [names], arm.body);
    BindMeans(scopes, [], arm.pattern);
    ExprMeans(scopes, names, arm.body);
    var parts := [Bind(LowerPattern(arm.pattern)), LowerExpr(arm.body)];
    MeanTwo(scopes, [], parts[0], parts[1], names, names, occs, inner);
    ScopeMeans(below, top, ArmForm, parts, names, occs + inner);
  }

  lemma {:induction false} BlockMeans(below: seq<Names>, top: Names, b: Ast.Block)
    ensures Means(below, top, LowerBlock(b), top, BlockOccs(below + [top], b))
    decreases b, 0
  {
    var scopes := below + [top];
    var (names, occs) := StmtsOccs(scopes, [], b.statements);
    var inner := OptionOccs(scopes + [names], b.value);
    StmtsMean(scopes, [], b.statements);
    OptionMeans(scopes, names, b.value);
    MeanBoth(scopes, [], LowerStmts(b.statements), LowerOptional(b.value), names, names, occs, inner);
    ScopeMeans(below, top, BlockForm(b.value.Some?), LowerStmts(b.statements) + LowerOptional(b.value), names, occs + inner);
  }

  lemma {:induction false} StmtsMean(below: seq<Names>, top: Names, ss: seq<Ast.Stmt>)
    ensures var r := StmtsOccs(below, top, ss); Mean(below, top, LowerStmts(ss), r.0, r.1)
    decreases ss, 1
  {
    if ss == [] {
      MeanNothing(below, top);
    } else {
      var (top1, occs) := StmtOccs(below, top, ss[0]);
      var (top2, later) := StmtsOccs(below, top1, ss[1..]);
      StmtMeans(below, top, ss[0]);
      StmtsMean(below, top1, ss[1..]);
      MeanFirst(below, top, LowerStmt(ss[0]), LowerStmts(ss[1..]), top1, top2, occs, later);
    }
  }

  lemma {:induction false} StmtMeans(below: seq<Names>, top: Names, s: Ast.Stmt)
    ensures var r := StmtOccs(below, top, s); Means(below, top, LowerStmt(s), r.0, r.1)
    decreases s, 0
  {
    match s
    case DeclStmt(pattern, ascription, init) =>
      var (top', occs) := PatternOccs(|below|, top, pattern);
      ExprMeans(below, top, init);
      BindMeans(below, top, pattern);
      var parts := [LowerExpr(init), Bind(LowerPattern(pattern))];
      MeanTwo(below, top, parts[0], parts[1], top, top', ExprOccs(below + [top], init), occs);
      GroupMeans(below, top, DeclForm(ascription), parts, top', ExprOccs(below + [top], init) + occs);
    case ReassignStmt(place, compound, value) =>
      ExprMeans(below, top, place);
      ExprMeans(below, top, value);
      MeanTwo(below, top, LowerExpr(place), LowerExpr(value), top, top, ExprOccs(below + [top], place), ExprOccs(below + [top], value));
      GroupMeans(below, top, ReassignForm(compound), [LowerExpr(place), LowerExpr(value)], top,
        ExprOccs(below + [top], place) + ExprOccs(below + [top], value));
    case ExprStmt(value) =>
      OneMeans(below, top, value);
      GroupMeans(below, top, ExprStmtForm, [LowerExpr(value)], top, ExprOccs(below + [top], value));
  }

  // ----- Items -----

  lemma {:induction false} ParamsMean(below: seq<Names>, top: Names, params: seq<Ast.FnParam>)
    ensures var r := ParamsOccs(|below|, top, params); Mean(below, top, LowerParams(params), r.0, r.1)
    decreases |params|
  {
    if params == [] {
      MeanNothing(below, top);
    } else {
      var p := params[0].pattern;
      var (top1, occs) := PatternOccs(|below|, top, p);
      var (top2, later) := ParamsOccs(|below|, top1, params[1..]);
      BindMeans(below, top, p);
      ParamsMean(below, top1, params[1..]);
      MeanFirst(below, top, Bind(LowerPattern(p)), LowerParams(params[1..]), top1, top2, occs, later);
    }
  }

  lemma OutermostIsEmpty()
    ensures var outside: seq<Names>, none: Names := [], []; outside + [none] == [none]
  {
  }

  lemma FnMeans(item: Ast.Item)
    requires item.FnItem?
    ensures Means([], [], LowerItem(item), [], ItemOccs(item))
  {
    var FnItem(_, _, params, _, body) := item;
    var (names, occs) := ParamsOccs(1, [], params);
    ParamsMean([[]], [], params);
    BlockMeans([[]], names, body);
    assert [[]] + [names] == [[], names];
    var inner := BlockOccs([[], names], body);
    MeanOne([[]], names, LowerBlock(body), names, inner);
    MeanBoth([[]], [], LowerParams(params), [LowerBlock(body)], names, names, occs, inner);
    OutermostIsEmpty();
    ScopeMeans([], [], LowerItem(item).form, LowerParams(params) + [LowerBlock(body)], names, occs + inner);
  }

  lemma InitMeans(form: Form, init: Ast.Expr)
    ensures Means([], [], Scope(form, [LowerExpr(init)]), [], ExprOccs([[], []], init))
  {
    OneMeans([[]], [], init);
    var none: Names := [];
    assert [none] + [none] == [none, none];
    OutermostIsEmpty();
    ScopeMeans([], [], form, [LowerExpr(init)], [], ExprOccs([[], []], init));
  }

  lemma {:induction false} ItemMeans(item: Ast.Item)
    ensures Means([], [], LowerItem(item), [], ItemOccs(item))
    decreases item, 1
  {
    match item
    case FnItem(_, _, _, _, _) => FnMeans(item);
    case StaticItem(_, _, _, init) => InitMeans(LowerItem(item).form, init);
    case ConstItem(_, _, _, init) => InitMeans(LowerItem(item).form, init);
    case ImplItem(_, _, methods) =>
      ItemsMean(methods);
      GroupMeans([], [], LowerItem(item).form, LowerItems(methods), [], ItemsOccs(methods));
    case ModItem(_, _, items, _) =>
      ItemsMean(items);
      GroupMeans([], [], LowerItem(item).form, LowerItems(items), [], ItemsOccs(items));
    case _ =>
  }

  lemma {:induction false} ItemsMean(items: seq<Ast.Item>)
    ensures Mean([], [], LowerItems(items), [], ItemsOccs(items))
    decreases items, 0
  {
    if items == [] {
      MeanNothing([], []);
    } else {
      ItemMeans(items[0]);
      ItemsMean(items[1..]);
      MeanFirst([], [], LowerItem(items[0]), LowerItems(items[1..]), [], [], ItemOccs(items[0]), ItemsOccs(items[1..]));
    }
  }

  /** The name-free form of a program carries exactly the meanings of its names, in order. */
  lemma ProgramMeans(items: seq<Ast.Item>)
    ensures TreeNames(NameFree(LowerProgram(items))) == ItemsOccs(items)
  {
    ItemsMean(items);
    GroupMeans([], [], ProgramForm, LowerItems(items), [], ItemsOccs(items));
  }

  // ----- What a reference refers to -----

  /** The place is the innermost scope with the name, and its first binding there. */
  predicate IsInnermost(scopes: seq<Names>, name: string, depth: nat, index: nat) {
    && depth < |scopes| && index < |scopes[depth]| && scopes[depth][index] == name
    && name !in scopes[depth][..index]
    && forall d | depth < d < |scopes| :: name !in scopes[d]
  }

  lemma IndexIsFirst(names: Names, name: string, j: nat)
    ensures IndexOf(names, name) == Some(j) <==> j < |names| && names[j] == name && name !in names[..j]
  {
  }

  lemma {:induction false} FindsInnermost(scopes: seq<Names>, name: string, depth: nat, index: nat)
    ensures Find(scopes, name) == Some((depth, index)) <==> IsInnermost(scopes, name, depth, index)
    ensures Find(scopes, name).None? <==> forall d | 0 <= d < |scopes| :: name !in scopes[d]
    decreases |scopes|
  {
    if scopes != [] {
      var last := |scopes| - 1;
      IndexIsFirst(scopes[last], name, index);
      FindsInnermost(scopes[..last], name, depth, index);
      if depth < last {
        assert scopes[..last][depth] == scopes[depth];
      }
    }
  }

  /** A use refers to the innermost binding of its name, and is free exactly if there is none
      or it is a path keyword. */
  lemma UseIsInnermost(scopes: seq<Names>, name: string, depth: nat, index: nat)
    ensures Resolve(scopes, name) == Local(depth, index) <==> !Spelling.IsKeyword(name) && IsInnermost(scopes, name, depth, index)
    ensures Resolve(scopes, name) == Free(name) <==> Spelling.IsKeyword(name) || forall d | 0 <= d < |scopes| :: name !in scopes[d]
  {
    FindsInnermost(scopes, name, depth, index);
  }

  /** A binder stands for the binding that a use of its name right behind it refers to. */
  lemma BinderIsFound(below: seq<Names>, top: Names, name: string)
    ensures var (top', ref) := Introduce(|below|, top, name);
      Spelling.IsKeyword(name) || Resolve(below + [top'], name) == ref
  {
    var (top', ref) := Introduce(|below|, top, name);
    if !Spelling.IsKeyword(name) {
      var scopes := below + [top'];
      IndexIsFirst(top', name, ref.index);
      FindsInnermost(scopes, name, |below|, ref.index);
    }
  }
}

