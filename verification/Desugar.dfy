/** The pass itself: a walk over the syntax tree with a stack of scopes, a counter and a
    bag of errors.  Every visit is proved to do what `Renaming` says of the scope tree. */
module Desugar {
  import opened Options
  import opened Spelling
  import opened Scoping
  import opened Renaming
  import opened Lowering
  import opened RenamingMeaning
  import opened RenamingOnce
  import opened RenamingAccepts
  import opened LoweringKeeps
  import M = NameMeaning
  import Ast

  lemma {:induction false} VisitAppend(below: seq<seq<Binding>>, st: State, a: seq<Tree<string>>, b: seq<Tree<string>>)
    ensures var (st1, a') := VisitTrees(below, st, a);
      var (st2, b') := VisitTrees(below, st1, b);
      VisitTrees(below, st, a + b) == (st2, a' + b')
    decreases |a|
  {
    if a == [] {
      EmptyAppends(b);
      EmptyAppends(VisitTrees(below, st, b).1);
    } else {
      var (st1, t') := VisitTree(below, st, a[0]);
      var (st2, a') := VisitTrees(below, st1, a[1..]);
      VisitAppend(below, st1, a[1..], b);
      VisitFirst(below, st, a[0], a[1..] + b);
      FirstOfBoth(a, b);
      Associates(t', a', VisitTrees(below, st2, b).1);
    }
  }

  lemma EmptyAppends<T>(b: seq<T>)
    ensures [] + b == b
  {
  }

  lemma FirstOfBoth<T>(a: seq<T>, b: seq<T>)
    requires a != []
    ensures a + b == [a[0]] + (a[1..] + b)
  {
  }

  lemma Associates<T>(t: T, a: seq<T>, b: seq<T>)
    ensures [t] + (a + b) == ([t] + a) + b
  {
  }

  lemma VisitOne(below: seq<seq<Binding>>, st: State, t: Tree<string>)
    ensures var (st1, t') := VisitTree(below, st, t); VisitTrees(below, st, [t]) == (st1, [t'])
  {
    var (st1, t') := VisitTree(below, st, t);
    assert [t][1..] == [] && VisitTrees(below, st1, []) == (st1, []);
    assert [t'] + [] == [t'];
  }

  lemma VisitTwo(below: seq<seq<Binding>>, st: State, t: Tree<string>, u: Tree<string>)
    ensures var (st1, t') := VisitTree(below, st, t);
      var (st2, u') := VisitTree(below, st1, u);
      VisitTrees(below, st, [t, u]) == (st2, [t', u'])
  {
    assert [t, u][1..] == [u];
    var (st1, t') := VisitTree(below, st, t);
    VisitOne(below, st1, u);
    assert [t'] + [VisitTree(below, st1, u).1] == [t', VisitTree(below, st1, u).1];
  }

  lemma VisitFirst(below: seq<seq<Binding>>, st: State, t: Tree<string>, ts: seq<Tree<string>>)
    ensures var (st1, t') := VisitTree(below, st, t);
      var (st2, ts') := VisitTrees(below, st1, ts);
      VisitTrees(below, st, [t] + ts) == (st2, [t'] + ts')
  {
    assert ([t] + ts)[1..] == ts;
  }

  lemma OnePattern(below: seq<seq<Binding>>, st: State, p: Pattern<string>)
    ensures var (st1, p') := Renaming.VisitPattern(below, st, p);
      Renaming.VisitPatterns(below, st, [p]) == (st1, [p'])
  {
    var (st1, p') := Renaming.VisitPattern(below, st, p);
    assert [p][1..] == [] && Renaming.VisitPatterns(below, st1, []) == (st1, []);
    assert [p'] + [] == [p'];
  }

  class Pass {
    var scopes: seq<seq<Binding>>
    var counter: nat
    var errors: seq<Error>

    constructor ()
      ensures scopes == [] && counter == 0 && errors == []
    {
      scopes, counter, errors := [], 0, [];
    }

    ghost function Below(): seq<seq<Binding>>
      reads this
      requires |scopes| > 0
    {
      scopes[..|scopes| - 1]
    }

    ghost function Now(): State
      reads this
      requires |scopes| > 0
    {
      State(scopes[|scopes| - 1], counter, errors)
    }

    /** The pass is where `Renaming` says. */
    ghost predicate At(below: seq<seq<Binding>>, st: State)
      reads this
      ensures At(below, st) ==> |scopes| > 0 && Below() == below && Now() == st
    {
      scopes == below + [st.top] && counter == st.counter && errors == st.errors
    }

    lemma Here()
      requires |scopes| > 0
      ensures At(Below(), Now())
    {
    }

    method PushScope()
      modifies this`scopes
      ensures scopes == old(scopes) + [[]]
      ensures |old(scopes)| > 0 ==> At(old(Below()) + [old(Now()).top], old(Now()).(top := []))
    {
      scopes := scopes + [[]];
      assert |old(scopes)| > 0 ==> old(scopes) == old(Below()) + [old(Now()).top];
    }

    method PopScope()
      requires |scopes| > 0
      modifies this`scopes
      ensures scopes == old(Below())
    {
      scopes := scopes[..|scopes| - 1];
    }

    /** The position of a name's first binding in the innermost scope. */
    method FindInnermost(name: string) returns (r: Option<nat>)
      requires |scopes| > 0
      ensures r == IndexOf(Origs(Now().top), name)
    {
      var scope := scopes[|scopes| - 1];
      for i := 0 to |scope|
        invariant name !in Origs(scope)[..i]
      {
        if scope[i].orig == name {
          IndexIsFirst(Origs(scope), name, i);
          return Some(i);
        }
      }
      assert Origs(scope)[..|scope|] == Origs(scope);
      return None;
    }

    method LookupName(name: string) returns (r: string)
      ensures r == Renaming.Lookup(scopes, name)
    {
      if IsKeyword(name) {
        return name;
      }
      ghost var origs := OrigScopes(scopes);
      var k := |scopes|;
      assert origs[..k] == origs;
      while k > 0
        invariant 0 <= k <= |scopes|
        invariant Find(origs, name) == Find(origs[..k], name)
      {
        k := k - 1;
        var scope := scopes[k];
        assert origs[..k + 1][..k] == origs[..k];
        for i := 0 to |scope|
          invariant name !in Origs(scope)[..i]
        {
          if scope[i].orig == name {
            IndexIsFirst(Origs(scope), name, i);
            return scope[i].spelled;
          }
        }
        assert Origs(scope)[..|scope|] == Origs(scope);
      }
      return name;
    }

    method IsShadowed(name: string) returns (shadowed: bool)
      requires |scopes| > 0
      ensures shadowed == Shadows(Below(), name)
    {
      ghost var below := Below();
      for i := 0 to |scopes| - 1
        invariant forall k :: 0 <= k < i ==> name !in Origs(below[k])
      {
        var scope := scopes[i];
        assert scope == below[i] && scope in below;
        for j := 0 to |scope|
          invariant forall k :: 0 <= k < j ==> scope[k].orig != name
        {
          if scope[j].orig == name {
            OrigsIs(scope, name);
            return true;
          }
        }
        OrigsIs(scope, name);
      }
      return false;
    }

    method DeclareNamed(name: string) returns (name': string)
      requires |scopes| > 0
      modifies this
      ensures At(old(Below()), Declare(old(Below()), old(Now()), name).0)
      ensures name' == Declare(old(Below()), old(Now()), name).1
    {
      Here();
      if IsKeyword(name) {
        return name;
      }
      var last := |scopes| - 1;
      var existing := FindInnermost(name);
      if existing.Some? {
        var j := existing.value;
        if scopes[last][j].preseeded {
          scopes := scopes[last := scopes[last][j := scopes[last][j].(seen := true)]];
          return scopes[last][j].spelled;
        }
        errors := errors + [AlreadyBound(name)];
        return name;
      }
      var shadowed := IsShadowed(name);
      if !shadowed {
        scopes := scopes[last := scopes[last] + [Binding(name, name, false, false)]];
        return name;
      }
      name' := Minted(name, counter);
      counter := counter + 1;
      scopes := scopes[last := scopes[last] + [Binding(name, name', false, false)]];
    }

    // ----- Patterns -----

    method VisitPattern(p: Ast.Pattern) returns (p': Ast.Pattern)
      requires |scopes| > 0
      modifies this
      ensures var (st, q) := Renaming.VisitPattern(old(Below()), old(Now()), LowerPattern(p));
        At(old(Below()), st) && LowerPattern(p') == q
      decreases p, 1
    {
      Here();
      match p
      case WildcardPattern => p' := p;
      case IdentPattern(name) =>
        var name' := DeclareNamed(name);
        p' := Ast.IdentPattern(name');
      case MutIdentPattern(name) =>
        var name' := DeclareNamed(name);
        p' := Ast.MutIdentPattern(name');
      case LiteralPattern(_) => p' := p;
      case TuplePattern(head, elements) =>
        var elements' := VisitPatterns(elements);
        p' := Ast.TuplePattern(head, elements');
      case StructPattern(path, fields) =>
        var fields' := VisitFields(fields);
        p' := Ast.StructPattern(path, fields');
      case RefPattern(isMut, inner) =>
        OnePattern(Below(), Now(), LowerPattern(inner));
        var inner' := VisitPattern(inner);
        p' := Ast.RefPattern(isMut, inner');
      case OrPattern(first, rest) =>
        p' := VisitOr(first, rest, p);
    }

    method VisitPatterns(ps: seq<Ast.Pattern>) returns (ps': seq<Ast.Pattern>)
      requires |scopes| > 0
      modifies this
      ensures var (st, qs) := Renaming.VisitPatterns(old(Below()), old(Now()), LowerPatterns(ps));
        At(old(Below()), st) && LowerPatterns(ps') == qs
      decreases ps, 0
    {
      Here();
      if ps == [] {
        return [];
      }
      var p' := VisitPattern(ps[0]);
      var rest' := VisitPatterns(ps[1..]);
      ps' := [p'] + rest';
    }

    method VisitFields(fields: seq<Ast.FieldPattern>) returns (fields': seq<Ast.FieldPattern>)
      requires |scopes| > 0
      modifies this
      ensures var (st, qs) := Renaming.VisitPatterns(old(Below()), old(Now()), LowerFields(fields));
        At(old(Below()), st) && LowerFields(fields') == qs
      ensures FieldNames(fields') == FieldNames(fields)
      decreases fields, 0
    {
      Here();
      if fields == [] {
        return [];
      }
      var p' := VisitPattern(fields[0].pattern);
      var rest' := VisitFields(fields[1..]);
      fields' := [Ast.FieldPattern(fields[0].name, p')] + rest';
    }

    method VisitOr(first: Ast.Pattern, rest: seq<Ast.Pattern>, ghost p: Ast.Pattern) returns (p': Ast.Pattern)
      requires p == Ast.OrPattern(first, rest)
      requires |scopes| > 0
      modifies this
      ensures var (st, q) := Renaming.VisitPattern(old(Below()), old(Now()), LowerPattern(p));
        At(old(Below()), st) && LowerPattern(p') == q
      decreases p, 0
    {
      var first', names := VisitFirstAlternative(first);
      var rest' := VisitAlternatives(names, rest);
      MergeNames(names);
      p' := Ast.OrPattern(first', rest');
    }

    /** In a scope of its own, whose names are handed on. */
    method VisitFirstAlternative(p: Ast.Pattern) returns (p': Ast.Pattern, names: seq<Binding>)
      requires |scopes| > 0
      modifies this
      ensures var (st, q) := Renaming.VisitPattern(old(scopes), old(Now()).(top := []), LowerPattern(p));
        names == st.top && At(old(Below()), st.(top := old(Now()).top)) && LowerPattern(p') == q
      ensures scopes == old(scopes)
      decreases p, 2
    {
      Here();
      PushScope();
      p' := VisitPattern(p);
      names := scopes[|scopes| - 1];
      PopScope();
      assert scopes == old(scopes);
    }

    method VisitAlternatives(names: seq<Binding>, ps: seq<Ast.Pattern>) returns (ps': seq<Ast.Pattern>)
      requires |scopes| > 0
      modifies this
      ensures var (st, qs) := Renaming.VisitAlternatives(old(scopes), old(Now()).(top := names), LowerPatterns(ps));
        At(old(Below()), st.(top := old(Now()).top)) && LowerPatterns(ps') == qs
      decreases ps, 0
    {
      if ps == [] {
        return [];
      }
      PushScope();
      scopes := scopes[|scopes| - 1 := Preseed(names)];
      assert At(old(scopes), old(Now()).(top := Preseed(names)));
      var p' := VisitPattern(ps[0]);
      var mismatch := IsMismatch(names);
      if mismatch {
        errors := errors + [OrPatternMismatch];
      }
      PopScope();
      assert scopes == old(scopes);
      var rest' := VisitAlternatives(names, ps[1..]);
      ps' := [p'] + rest';
    }

    method IsMismatch(names: seq<Binding>) returns (mismatch: bool)
      requires |scopes| > 0
      ensures mismatch == Mismatched(Now().top, names)
    {
      var scope := scopes[|scopes| - 1];
      if |scope| != |names| {
        return true;
      }
      for i := 0 to |scope|
        invariant forall k :: 0 <= k < i ==> !scope[k].preseeded || scope[k].seen
      {
        if scope[i].preseeded && !scope[i].seen {
          assert scope[i] in scope;
          return true;
        }
      }
      return false;
    }

    method MergeNames(names: seq<Binding>)
      requires |scopes| > 0
      modifies this
      ensures At(old(Below()), Merge(old(Now()), names))
    {
      Here();
      var last := |scopes| - 1;
      for i := 0 to |names|
        invariant |scopes| == last + 1 && Below() == old(Below())
        invariant Merge(Now(), names[i..]) == Merge(old(Now()), names)
      {
        var clash := false;
        for j := 0 to |scopes[last]|
          invariant clash == exists k :: 0 <= k < j && scopes[last][k].orig == names[i].orig && !scopes[last][k].preseeded
        {
          if scopes[last][j].orig == names[i].orig && !scopes[last][j].preseeded {
            clash := true;
          }
        }
        assert clash == Clashes(Now().top, names[i].orig);
        assert names[i..][1..] == names[i + 1..];
        if clash {
          errors := errors + [AlreadyBound(names[i].orig)];
        } else {
          scopes := scopes[last := scopes[last] + [names[i]]];
        }
      }
      assert names[|names|..] == [];
    }

    // ----- Expressions -----

    method VisitExpr(e: Ast.Expr) returns (e': Ast.Expr)
      requires |scopes| > 0
      modifies this
      ensures var (st, t) := VisitTree(old(Below()), old(Now()), LowerExpr(e));
        At(old(Below()), st) && LowerExpr(e') == t
      decreases e, 2
    {
      Here();
      match e
      case LiteralExpr(_) => e' := e;
      case PathExpr(path) =>
        e' := e;
        if |path| == 1 {
          var resolved := LookupName(path[0]);
          if resolved != path[0] {
            e' := Ast.PathExpr([resolved]);
          }
        }
      case UnaryExpr(_, _) => e' := VisitOperands(e);
      case BorrowExpr(_, _) => e' := VisitOperands(e);
      case BinaryExpr(_, _, _) => e' := VisitTwoOperands(e);
      case CastExpr(_, _) => e' := VisitOperands(e);
      case FieldExpr(_, _) => e' := VisitOperands(e);
      case IndexExpr(_, _) => e' := VisitTwoOperands(e);
      case QuestionExpr(_) => e' := VisitOperands(e);
      case StructExpr(_, _, _) => e' := VisitStruct(e);
      case TupleExpr(_) => e' := VisitParts(e);
      case CallExpr(_, _) => e' := VisitParts(e);
      case MethodCallExpr(_, _, _) => e' := VisitParts(e);
      case ReturnExpr(_) => e' := VisitReturn(e);
      case RangeExpr(_, _, _) => e' := VisitRange(e);
      case IfExpr(_, _, _) => e' := VisitIf(e);
      case MatchExpr(_, _) => e' := VisitControl(e);
      case LoopExpr(_) => e' := VisitBody(e);
      case WhileExpr(_, _) => e' := VisitControl(e);
      case BlockExpr(_) => e' := VisitBody(e);
      case BreakExpr => e' := e;
      case ContinueExpr => e' := e;
    }

    /** The forms with one operand. */
    method VisitOperands(e: Ast.Expr) returns (e': Ast.Expr)
      requires |scopes| > 0
      requires e.UnaryExpr? || e.BorrowExpr? || e.CastExpr? || e.FieldExpr? || e.QuestionExpr?
      modifies this
      ensures var (st, t) := VisitTree(old(Below()), old(Now()), LowerExpr(e));
        At(old(Below()), st) && LowerExpr(e') == t
      decreases e, 1
    {
      Here();
      match e
      case UnaryExpr(uop, inner) =>
        VisitOne(Below(), Now(), LowerExpr(inner));
        var inner' := VisitExpr(inner);
        e' := Ast.UnaryExpr(uop, inner');
      case BorrowExpr(isMut, inner) =>
        VisitOne(Below(), Now(), LowerExpr(inner));
        var inner' := VisitExpr(inner);
        e' := Ast.BorrowExpr(isMut, inner');
      case CastExpr(inner, target) =>
        VisitOne(Below(), Now(), LowerExpr(inner));
        var inner' := VisitExpr(inner);
        e' := Ast.CastExpr(inner', target);
      case FieldExpr(receiver, name) =>
        VisitOne(Below(), Now(), LowerExpr(receiver));
        var receiver' := VisitExpr(receiver);
        e' := Ast.FieldExpr(receiver', name);
      case QuestionExpr(inner) =>
        VisitOne(Below(), Now(), LowerExpr(inner));
        var inner' := VisitExpr(inner);
        e' := Ast.QuestionExpr(inner');
    }

    /** The forms with lists of parts. */
    method VisitParts(e: Ast.Expr) returns (e': Ast.Expr)
      requires |scopes| > 0
      requires e.TupleExpr? || e.CallExpr? || e.MethodCallExpr?
      modifies this
      ensures var (st, t) := VisitTree(old(Below()), old(Now()), LowerExpr(e));
        At(old(Below()), st) && LowerExpr(e') == t
      decreases e, 1
    {
      Here();
      match e
      case TupleExpr(elements) =>
        var elements' := VisitExprs(elements);
        e' := Ast.TupleExpr(elements');
      case CallExpr(callee, args) =>
        VisitFirst(Below(), Now(), LowerExpr(callee), LowerExprs(args));
        var callee' := VisitExpr(callee);
        var args' := VisitExprs(args);
        e' := Ast.CallExpr(callee', args');
      case MethodCallExpr(receiver, name, args) =>
        VisitFirst(Below(), Now(), LowerExpr(receiver), LowerExprs(args));
        var receiver' := VisitExpr(receiver);
        var args' := VisitExprs(args);
        e' := Ast.MethodCallExpr(receiver', name, args');
    }

    method VisitStruct(e: Ast.Expr) returns (e': Ast.Expr)
      requires |scopes| > 0 && e.StructExpr?
      modifies this
      ensures var (st, t) := VisitTree(old(Below()), old(Now()), LowerExpr(e));
        At(old(Below()), st) && LowerExpr(e') == t
      decreases e, 1
    {
      Here();
      VisitAppend(Below(), Now(), LowerInits(e.init), LowerOptional(e.baseExpr));
      var init' := VisitInits(e.init);
      var base' := VisitOptional(e.baseExpr);
      e' := Ast.StructExpr(e.path, init', base');
    }

    /** The forms with two operands. */
    method VisitTwoOperands(e: Ast.Expr) returns (e': Ast.Expr)
      requires |scopes| > 0
      requires e.BinaryExpr? || e.IndexExpr?
      modifies this
      ensures var (st, t) := VisitTree(old(Below()), old(Now()), LowerExpr(e));
        At(old(Below()), st) && LowerExpr(e') == t
      decreases e, 1
    {
      Here();
      match e
      case BinaryExpr(op, lhs, rhs) =>
        VisitTwo(Below(), Now(), LowerExpr(lhs), LowerExpr(rhs));
        var lhs' := VisitExpr(lhs);
        var rhs' := VisitExpr(rhs);
        e' := Ast.BinaryExpr(op, lhs', rhs');
      case IndexExpr(receiver, index) =>
        VisitTwo(Below(), Now(), LowerExpr(receiver), LowerExpr(index));
        var receiver' := VisitExpr(receiver);
        var index' := VisitExpr(index);
        e' := Ast.IndexExpr(receiver', index');
    }

    /** The forms whose parts may be absent. */
    method VisitReturn(e: Ast.Expr) returns (e': Ast.Expr)
      requires |scopes| > 0 && e.ReturnExpr?
      modifies this
      ensures var (st, t) := VisitTree(old(Below()), old(Now()), LowerExpr(e));
        At(old(Below()), st) && LowerExpr(e') == t
      decreases e, 1
    {
      Here();
      var result' := VisitOptional(e.result);
      e' := Ast.ReturnExpr(result');
    }

    method VisitRange(e: Ast.Expr) returns (e': Ast.Expr)
      requires |scopes| > 0 && e.RangeExpr?
      modifies this
      ensures var (st, t) := VisitTree(old(Below()), old(Now()), LowerExpr(e));
        At(old(Below()), st) && LowerExpr(e') == t
      decreases e, 1
    {
      Here();
      VisitAppend(Below(), Now(), LowerOptional(e.start), LowerOptional(e.end));
      var start' := VisitOptional(e.start);
      var end' := VisitOptional(e.end);
      e' := Ast.RangeExpr(start', end', e.inclusive);
    }

    /** The forms that are one block. */
    method VisitBody(e: Ast.Expr) returns (e': Ast.Expr)
      requires |scopes| > 0
      requires e.LoopExpr? || e.BlockExpr?
      modifies this
      ensures var (st, t) := VisitTree(old(Below()), old(Now()), LowerExpr(e));
        At(old(Below()), st) && LowerExpr(e') == t
      decreases e, 1
    {
      Here();
      match e
      case LoopExpr(body) =>
        VisitOne(Below(), Now(), LowerBlock(body));
        var body' := VisitBlock(body);
        e' := Ast.LoopExpr(body');
      case BlockExpr(block) =>
        VisitOne(Below(), Now(), LowerBlock(block));
        var block' := VisitBlock(block);
        e' := Ast.BlockExpr(block');
    }

    /** The forms with conditions or arms. */
    method VisitControl(e: Ast.Expr) returns (e': Ast.Expr)
      requires |scopes| > 0
      requires e.MatchExpr? || e.WhileExpr?
      modifies this
      ensures var (st, t) := VisitTree(old(Below()), old(Now()), LowerExpr(e));
        At(old(Below()), st) && LowerExpr(e') == t
      decreases e, 1
    {
      Here();
      match e
      case MatchExpr(scrutinee, arms) =>
        VisitFirst(Below(), Now(), LowerExpr(scrutinee), LowerArms(arms));
        var scrutinee' := VisitExpr(scrutinee);
        var arms' := VisitArms(arms);
        e' := Ast.MatchExpr(scrutinee', arms');
      case WhileExpr(cond, body) =>
        var cond', body' := VisitGuarded(cond, body, e);
        e' := Ast.WhileExpr(cond', body');
    }

    method VisitIf(e: Ast.Expr) returns (e': Ast.Expr)
      requires |scopes| > 0 && e.IfExpr?
      modifies this
      ensures var (st, t) := VisitTree(old(Below()), old(Now()), LowerExpr(e));
        At(old(Below()), st) && LowerExpr(e') == t
      decreases e, 1
    {
      Here();
      VisitAppend(Below(), Now(), LowerCond(e.cond, LowerBlock(e.thenBlock)), LowerElse(e.elseBlock));
      var cond', then' := VisitGuarded(e.cond, e.thenBlock, e);
      var else' := VisitElse(e.elseBlock);
      e' := Ast.IfExpr(cond', then', else');
    }

    method VisitOptional(e: Option<Ast.Expr>) returns (e': Option<Ast.Expr>)
      requires |scopes| > 0
      modifies this
      ensures var (st, ts) := VisitTrees(old(Below()), old(Now()), LowerOptional(e));
        At(old(Below()), st) && LowerOptional(e') == ts
      ensures e'.Some? == e.Some?
      decreases e, 0
    {
      Here();
      match e
      case None => e' := None;
      case Some(x) =>
        VisitOne(Below(), Now(), LowerExpr(x));
        var x' := VisitExpr(x);
        e' := Some(x');
    }

    method VisitExprs(es: seq<Ast.Expr>) returns (es': seq<Ast.Expr>)
      requires |scopes| > 0
      modifies this
      ensures var (st, ts) := VisitTrees(old(Below()), old(Now()), LowerExprs(es));
        At(old(Below()), st) && LowerExprs(es') == ts
      decreases es, 0
    {
      Here();
      if es == [] {
        return [];
      }
      var e' := VisitExpr(es[0]);
      var rest' := VisitExprs(es[1..]);
      es' := [e'] + rest';
    }

    method VisitInits(init: seq<Ast.FieldInit>) returns (init': seq<Ast.FieldInit>)
      requires |scopes| > 0
      modifies this
      ensures var (st, ts) := VisitTrees(old(Below()), old(Now()), LowerInits(init));
        At(old(Below()), st) && LowerInits(init') == ts
      ensures InitNames(init') == InitNames(init)
      decreases init, 0
    {
      Here();
      if init == [] {
        return [];
      }
      var e' := VisitExpr(init[0].value);
      var rest' := VisitInits(init[1..]);
      init' := [Ast.FieldInit(init[0].name, e')] + rest';
    }

    /** A condition; a pattern condition leaves its scope open. */
    method VisitCond(cond: Ast.Cond) returns (cond': Ast.Cond, pushed: bool)
      requires |scopes| > 0
      modifies this
      ensures pushed == cond.PatternCond? == cond'.PatternCond?
      ensures cond.ExprCond? ==>
        var (st, t) := VisitTree(old(Below()), old(Now()), LowerExpr(cond.value));
        At(old(Below()), st) && LowerExpr(cond'.value) == t
      ensures cond.PatternCond? ==>
        var (st1, t) := VisitTree(old(Below()), old(Now()), LowerExpr(cond.init));
        var below := old(Below()) + [st1.top];
        var (st2, q) := Renaming.VisitPattern(below, st1.(top := []), LowerPattern(cond.pattern));
        At(below, st2) && LowerExpr(cond'.init) == t && LowerPattern(cond'.pattern) == q
      decreases cond, 0
    {
      match cond
      case PatternCond(pattern, init) =>
        var init' := VisitExpr(init);
        PushScope();
        var pattern' := VisitPattern(pattern);
        cond', pushed := Ast.PatternCond(pattern', init'), true;
      case ExprCond(value) =>
        var value' := VisitExpr(value);
        cond', pushed := Ast.ExprCond(value'), false;
    }

    /** A condition and the block it guards. */
    method VisitGuarded(cond: Ast.Cond, body: Ast.Block, ghost e: Ast.Expr)
      returns (cond': Ast.Cond, body': Ast.Block)
      requires |scopes| > 0
      requires match e
        case IfExpr(c, b, _) => c == cond && b == body
        case WhileExpr(c, b) => c == cond && b == body
        case _ => false
      modifies this
      ensures var (st, ts) := VisitTrees(old(Below()), old(Now()), LowerCond(cond, LowerBlock(body)));
        At(old(Below()), st) && LowerCond(cond', LowerBlock(body')) == ts
      decreases e, 0
    {
      Here();
      ghost var below, st := Below(), Now();
      if cond.PatternCond? {
        ghost var st1 := VisitTree(below, st, LowerExpr(cond.init)).0;
        VisitTwo(below, st, LowerExpr(cond.init), LowerCond(cond, LowerBlock(body))[1]);
        VisitTwo(below + [st1.top], st1.(top := []), Bind(LowerPattern(cond.pattern)), LowerBlock(body));
      } else {
        VisitTwo(below, st, LowerExpr(cond.value), LowerBlock(body));
      }
      var pushed;
      cond', pushed := VisitCond(cond);
      body' := VisitBlock(body);
      if pushed {
        PopScope();
        assert scopes == below + [VisitTree(below, st, LowerExpr(cond.init)).0.top];
      }
    }

    method VisitElse(block: Option<Ast.Block>) returns (block': Option<Ast.Block>)
      requires |scopes| > 0
      modifies this
      ensures var (st, ts) := VisitTrees(old(Below()), old(Now()), LowerElse(block));
        At(old(Below()), st) && LowerElse(block') == ts
      ensures block'.Some? == block.Some?
      decreases block, 0
    {
      Here();
      match block
      case None => block' := None;
      case Some(b) =>
        VisitOne(Below(), Now(), LowerBlock(b));
        var b' := VisitBlock(b);
        block' := Some(b');
    }

    method VisitArm(arm: Ast.MatchArm) returns (arm': Ast.MatchArm)
      requires |scopes| > 0
      modifies this
      ensures var (st, t) := VisitTree(old(Below()), old(Now()), LowerArm(arm));
        At(old(Below()), st) && LowerArm(arm') == t
      decreases arm, 1
    {
      PushScope();
      VisitTwo(Below(), Now(), Bind(LowerPattern(arm.pattern)), LowerExpr(arm.body));
      var pattern' := VisitPattern(arm.pattern);
      var body' := VisitExpr(arm.body);
      PopScope();
      assert scopes == old(Below()) + [old(Now()).top];
      arm' := Ast.MatchArm(pattern', body');
    }

    method VisitArms(arms: seq<Ast.MatchArm>) returns (arms': seq<Ast.MatchArm>)
      requires |scopes| > 0
      modifies this
      ensures var (st, ts) := VisitTrees(old(Below()), old(Now()), LowerArms(arms));
        At(old(Below()), st) && LowerArms(arms') == ts
      decreases arms, 0
    {
      Here();
      if arms == [] {
        return [];
      }
      var arm' := VisitArm(arms[0]);
      var rest' := VisitArms(arms[1..]);
      arms' := [arm'] + rest';
    }

    // ----- Blocks and statements -----

    method VisitBlock(b: Ast.Block) returns (b': Ast.Block)
      requires |scopes| > 0
      modifies this
      ensures var (st, t) := VisitTree(old(Below()), old(Now()), LowerBlock(b));
        At(old(Below()), st) && LowerBlock(b') == t
      decreases b, 0
    {
      PushScope();
      VisitAppend(Below(), Now(), LowerStmts(b.statements), LowerOptional(b.value));
      var statements' := VisitStmts(b.statements);
      var value' := VisitOptional(b.value);
      PopScope();
      assert scopes == old(Below()) + [old(Now()).top];
      b' := Ast.Block(statements', value');
    }

    method VisitStmt(s: Ast.Stmt) returns (s': Ast.Stmt)
      requires |scopes| > 0
      modifies this
      ensures var (st, t) := VisitTree(old(Below()), old(Now()), LowerStmt(s));
        At(old(Below()), st) && LowerStmt(s') == t
      decreases s, 1
    {
      match s
      case DeclStmt(pattern, ascription, init) =>
        VisitTwo(Below(), Now(), LowerExpr(init), Bind(LowerPattern(pattern)));
        var init' := VisitExpr(init);
        var pattern' := VisitPattern(pattern);
        s' := Ast.DeclStmt(pattern', ascription, init');
      case ReassignStmt(place, compound, value) =>
        VisitTwo(Below(), Now(), LowerExpr(place), LowerExpr(value));
        var place' := VisitExpr(place);
        var value' := VisitExpr(value);
        s' := Ast.ReassignStmt(place', compound, value');
      case ExprStmt(value) =>
        VisitOne(Below(), Now(), LowerExpr(value));
        var value' := VisitExpr(value);
        s' := Ast.ExprStmt(value');
    }

    method VisitStmts(ss: seq<Ast.Stmt>) returns (ss': seq<Ast.Stmt>)
      requires |scopes| > 0
      modifies this
      ensures var (st, ts) := VisitTrees(old(Below()), old(Now()), LowerStmts(ss));
        At(old(Below()), st) && LowerStmts(ss') == ts
      decreases ss, 0
    {
      Here();
      if ss == [] {
        return [];
      }
      var s' := VisitStmt(ss[0]);
      var rest' := VisitStmts(ss[1..]);
      ss' := [s'] + rest';
    }

    // ----- Items -----

    method VisitParams(params: seq<Ast.FnParam>) returns (params': seq<Ast.FnParam>)
      requires |scopes| > 0
      modifies this
      ensures var (st, ts) := VisitTrees(old(Below()), old(Now()), LowerParams(params));
        At(old(Below()), st) && LowerParams(params') == ts
      ensures ParamTypes(params') == ParamTypes(params)
    {
      Here();
      if params == [] {
        return [];
      }
      var pattern' := VisitPattern(params[0].pattern);
      var rest' := VisitParams(params[1..]);
      params' := [Ast.FnParam(pattern', params[0].paramType)] + rest';
    }

    method VisitItem(item: Ast.Item) returns (item': Ast.Item)
      requires |scopes| > 0
      modifies this
      ensures var (st, t) := VisitTree(old(Below()), old(Now()), LowerItem(item));
        At(old(Below()), st) && LowerItem(item') == t
      decreases item, 1
    {
      Here();
      match item
      case FnItem(_, _, _, _, _) => item' := VisitFn(item);
      case StaticItem(_, _, _, _) => item' := VisitValueItem(item);
      case ConstItem(_, _, _, _) => item' := VisitValueItem(item);
      case ImplItem(isPub, target, methods) =>
        var methods' := VisitItems(methods);
        item' := Ast.ImplItem(isPub, target, methods');
      case ModItem(isPub, name, items, isInline) =>
        var items' := VisitItems(items);
        item' := Ast.ModItem(isPub, name, items', isInline);
      case StructItem(_, _, _) => item' := item;
      case EnumItem(_, _, _) => item' := item;
      case UseItem(_, _, _) => item' := item;
    }

    method VisitFn(item: Ast.Item) returns (item': Ast.Item)
      requires |scopes| > 0 && item.FnItem?
      modifies this
      ensures var (st, t) := VisitTree(old(Below()), old(Now()), LowerItem(item));
        At(old(Below()), st) && LowerItem(item') == t
      decreases item, 0
    {
      var FnItem(isPub, name, params, returnType, body) := item;
      PushScope();
      VisitAppend(Below(), Now(), LowerParams(params), [LowerBlock(body)]);
      var params' := VisitParams(params);
      VisitOne(Below(), Now(), LowerBlock(body));
      var body' := VisitBlock(body);
      PopScope();
      assert scopes == old(Below()) + [old(Now()).top];
      item' := Ast.FnItem(isPub, name, params', returnType, body');
    }

    method VisitValueItem(item: Ast.Item) returns (item': Ast.Item)
      requires |scopes| > 0 && (item.StaticItem? || item.ConstItem?)
      modifies this
      ensures var (st, t) := VisitTree(old(Below()), old(Now()), LowerItem(item));
        At(old(Below()), st) && LowerItem(item') == t
      decreases item, 0
    {
      PushScope();
      VisitOne(Below(), Now(), LowerExpr(item.init));
      var init' := VisitExpr(item.init);
      PopScope();
      assert scopes == old(Below()) + [old(Now()).top];
      item' := item.(init := init');
    }

    method VisitItems(items: seq<Ast.Item>) returns (items': seq<Ast.Item>)
      requires |scopes| > 0
      modifies this
      ensures var (st, ts) := VisitTrees(old(Below()), old(Now()), LowerItems(items));
        At(old(Below()), st) && LowerItems(items') == ts
      decreases items, 0
    {
      Here();
      if items == [] {
        return [];
      }
      var item' := VisitItem(items[0]);
      var rest' := VisitItems(items[1..]);
      items' := [item'] + rest';
    }
  }

  lemma {:induction false} IndexIsFirst(names: seq<string>, name: string, i: nat)
    requires i < |names| && names[i] == name && name !in names[..i]
    ensures IndexOf(names, name) == Some(i)
  {
    if i > 0 {
      assert names[0] == names[..i][0];
      assert names[1..][..i - 1] == names[..i][1..];
      IndexIsFirst(names[1..], name, i - 1);
    }
  }

  /** What the pass makes of a file, as items: scope trees keep all there is to a program, so
      that there is only one such result. */
  ghost predicate IsResult(items: seq<Ast.Item>, items': seq<Ast.Item>) {
    LowerProgram(items') == Run(LowerProgram(items)).1
  }

  lemma OneResult(items: seq<Ast.Item>, a: seq<Ast.Item>, b: seq<Ast.Item>)
    requires IsResult(items, a) && IsResult(items, b)
    ensures a == b
  {
    ProgramKept(a, b);
  }

  /** A second pass over what an accepted file became returns the very same items. */
  lemma SecondPassReturnsTheSame(items: seq<Ast.Item>, items': seq<Ast.Item>, items'': seq<Ast.Item>)
    requires FromSource(LowerProgram(items)) && Run(LowerProgram(items)).0.errors == []
    requires IsResult(items, items') && IsResult(items', items'')
    ensures items'' == items' && Run(LowerProgram(items')).0.errors == []
  {
    RunIsIdempotent(LowerProgram(items));
    ProgramKept(items'', items');
  }

  /** The pass over a file, with what it promises: errors exactly on programs that are
      not well bound, and otherwise the same program, in which each name of the syntax tree
      stands for the binding that it stood for, with nothing shadowed in it, which the pass
      would leave as it is. */
  method DesugarShadowing(items: seq<Ast.Item>) returns (items': seq<Ast.Item>, errors: seq<Error>)
    ensures Run(LowerProgram(items)).0.errors == errors && IsResult(items, items')
    ensures errors == [] <==> WellBound(LowerProgram(items))
    ensures errors == [] && FromSource(LowerProgram(items)) ==>
      && NameFree(LowerProgram(items')) == NameFree(LowerProgram(items)) && M.ItemsOccs(items') == M.ItemsOccs(items)
      && ShadowFree({}, {}, LowerProgram(items')) && WellBound(LowerProgram(items'))
      && (forall again :: IsResult(items', again) <==> again == items')
      && Run(LowerProgram(items')).0.errors == []
  {
    var pass := new Pass();
    pass.PushScope();
    assert pass.At([], INITIAL);
    items' := pass.VisitItems(items);
    errors := pass.errors;
    pass.PopScope();
    ghost var t := LowerProgram(items);
    assert Run(t).0.errors == errors && Run(t).1 == LowerProgram(items');
    AcceptedExactlyWhenWellBound(t);
    if errors == [] && FromSource(t) {
      RunKeepsMeaning(t);
      M.ProgramMeans(items);
      M.ProgramMeans(items');
      RunRemovesShadowing(t);
      RunIsIdempotent(t);
      forall again ensures IsResult(items', again) <==> again == items' {
        if IsResult(items', again) {
          OneResult(items', again, items');
        }
      }
    }
  }
}
