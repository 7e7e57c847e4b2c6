/** What the parser lets pass beyond what is printed: a comma behind the last of call arguments,
    parameters, fields, variants, patterns and types, a `::` behind a path, separators with
    nothing between them, and a base behind a field without a comma. */
module Trailing {
  import opened Options
  import opened Tokens
  import opened Grammar
  import opened TypeSyntax
  import opened ExprSyntax
  import opened FormSteps
  import P = PatternSyntax
  import R = PatternRoundTrip
  import T = TypeRoundTrip
  import E = ExprRoundTrip
  import I = ItemRoundTrip
  import V = VariantRoundTrip
  import A = Ast

  /** A comma and then the closing word. */
  function CommaThen(close: Word, k: Stream): Stream {
    More(COMMA, More(close, k))
  }

  // ----- Arguments and parameters -----

  lemma {:induction false} ArgListEnds(args: seq<A.Expr>, before: seq<A.Expr>, k: Stream, c: Cursor)
    requires args != [] && (forall arg <- args :: IsPart(arg, c.lit)) && c.bank == 0
    requires c.ts == PrintList(args, CommaThen(RPAREN, k))
    ensures ParseArgList(c, before) == Ok(before + args, c.(ts := More(RPAREN, k))) && !c.Check(RParen)
    decreases |args|
  {
    var more := AfterFirstExpr(args, CommaThen(RPAREN, k));
    var later := if |args| == 1 then More(RPAREN, k) else PrintList(args[1..], CommaThen(RPAREN, k));
    assert IsPart(args[0], c.lit);
    BareHead(args[0], more, c.lit);
    E.PartReads(args[0], more, c);
    R.Step(COMMA, later, c.(ts := more));
    E.ArgStep(before, args[0], c, c.(ts := more));
    T.Regroup(before, args);
    if |args| == 1 {
      assert args == [args[0]];
    } else {
      ArgListEnds(args[1..], before + [args[0]], k, c.(ts := later));
    }
  }

  lemma ArgsMayEndInComma(args: seq<A.Expr>, k: Stream, c: Cursor)
    requires args != [] && (forall arg <- args :: IsPart(arg, c.lit)) && c.bank == 0
    requires c.ts == PrintList(args, CommaThen(RPAREN, k))
    ensures ParseArgs(c) == Ok(args, c.(ts := k))
  {
    ArgListEnds(args, [], k, c);
    assert [] + args == args;
    R.Step(RPAREN, k, c.(ts := More(RPAREN, k)));
  }

  lemma {:induction false} ParamListEnds(ps: seq<A.FnParam>, before: seq<A.FnParam>, k: Stream, c: Cursor)
    requires ps != [] && I.AreParams(ps) && c.bank == 0 && c.lit && c.ts == I.PrintParams(ps, CommaThen(RPAREN, k))
    ensures ParseParamList(c, before) == Ok(before + ps, c.(ts := More(RPAREN, k))) && !c.Check(RParen)
    decreases |ps|
  {
    var later := if |ps| == 1 then More(RPAREN, k) else I.PrintParams(ps[1..], CommaThen(RPAREN, k));
    var more := More(COMMA, later);
    I.ParamReads(ps[0], more, c);
    R.Step(COMMA, later, c.(ts := more));
    T.Regroup(before, ps);
    if |ps| == 1 {
      assert ps == [ps[0]];
    } else {
      ParamListEnds(ps[1..], before + [ps[0]], k, c.(ts := later));
    }
  }

  lemma ParamsMayEndInComma(ps: seq<A.FnParam>, k: Stream, c: Cursor)
    requires ps != [] && I.AreParams(ps) && c.bank == 0 && c.lit && c.ts == I.PrintParams(ps, CommaThen(RPAREN, k))
    ensures ParseParams(c) == Ok(ps, c.(ts := k))
  {
    ParamListEnds(ps, [], k, c);
    assert [] + ps == ps;
    R.Step(RPAREN, k, c.(ts := More(RPAREN, k)));
  }

  // ----- Fields and variants -----

  lemma {:induction false} FieldsMayEndInComma(fs: seq<A.StructField>, before: seq<A.StructField>, k: Stream, c: Cursor)
    requires fs != [] && I.AreFields(fs) && c.bank == 0 && c.lit && c.ts == I.PrintStructFields(fs, CommaThen(RBRACE, k))
    ensures ParseStructFields(c, before) == Ok(before + fs, c.(ts := More(RBRACE, k)))
    decreases |fs|
  {
    var later := if |fs| == 1 then More(RBRACE, k) else I.PrintStructFields(fs[1..], CommaThen(RBRACE, k));
    var more := More(COMMA, later);
    I.FieldReads(fs[0], more, c);
    R.Step(COMMA, later, c.(ts := more));
    T.Regroup(before, fs);
    if |fs| == 1 {
      assert fs == [fs[0]];
    } else {
      FieldsMayEndInComma(fs[1..], before + [fs[0]], k, c.(ts := later));
    }
  }

  lemma {:induction false} VariantsMayEndInComma(vs: seq<A.EnumVariant>, before: seq<A.EnumVariant>, k: Stream, c: Cursor)
    requires vs != [] && (forall v <- vs :: V.IsVariant(v)) && c.bank == 0 && c.lit
    requires c.ts == I.PrintVariants(vs, CommaThen(RBRACE, k))
    ensures ParseVariants(c, before) == Ok(before + vs, c.(ts := More(RBRACE, k)))
    decreases |vs|
  {
    var later := if |vs| == 1 then More(RBRACE, k) else I.PrintVariants(vs[1..], CommaThen(RBRACE, k));
    var more := More(COMMA, later);
    I.VariantReads(vs[0], more, c);
    R.Step(COMMA, later, c.(ts := more));
    T.Regroup(before, vs);
    if |vs| == 1 {
      assert vs == [vs[0]];
    } else {
      VariantsMayEndInComma(vs[1..], before + [vs[0]], k, c.(ts := later));
    }
  }

  // ----- Patterns -----

  lemma {:induction false} PatternListEnds(ps: seq<A.Pattern>, before: seq<A.Pattern>, k: Stream, c: Cursor)
    requires ps != [] && (forall q <- ps :: P.IsPattern(q)) && c.bank == 0 && c.ts == P.PrintList(ps, CommaThen(RPAREN, k))
    ensures ParsePatternList(c, before) == Ok(before + ps, c.(ts := More(RPAREN, k))) && !c.Check(RParen)
    decreases |ps|
  {
    var later := if |ps| == 1 then More(RPAREN, k) else P.PrintList(ps[1..], CommaThen(RPAREN, k));
    var more := More(COMMA, later);
    R.PatternHead(ps[0], more);
    R.PatternReads(ps[0], more, c);
    R.Step(COMMA, later, c.(ts := more));
    R.ListStep(before, ps[0], c, c.(ts := more));
    T.Regroup(before, ps);
    if |ps| == 1 {
      assert ps == [ps[0]];
    } else {
      PatternListEnds(ps[1..], before + [ps[0]], k, c.(ts := later));
    }
  }

  lemma PatternsMayEndInComma(ps: seq<A.Pattern>, k: Stream, c: Cursor)
    requires ps != [] && (forall q <- ps :: P.IsPattern(q)) && c.bank == 0 && c.ts == P.PrintList(ps, CommaThen(RPAREN, k))
    ensures ParsePatternArgs(c) == Ok(ps, c.(ts := k))
  {
    PatternListEnds(ps, [], k, c);
    assert [] + ps == ps;
    R.Step(RPAREN, k, c.(ts := More(RPAREN, k)));
  }

  lemma {:induction false} FieldPatternsMayEndInComma(fs: seq<A.FieldPattern>, before: seq<A.FieldPattern>, k: Stream, c: Cursor)
    requires fs != [] && (forall f <- fs :: P.IsShort(f) || P.IsPattern(f.pattern)) && c.bank == 0
    requires c.ts == P.PrintFields(fs, CommaThen(RBRACE, k))
    ensures ParseFieldPatterns(c, before) == Ok(before + fs, c.(ts := More(RBRACE, k)))
    decreases |fs|
  {
    var later := if |fs| == 1 then More(RBRACE, k) else P.PrintFields(fs[1..], CommaThen(RBRACE, k));
    var more := More(COMMA, later);
    R.FieldReads(fs[0], before, more, c);
    R.Step(COMMA, later, c.(ts := more));
    T.Regroup(before, fs);
    if |fs| == 1 {
      assert fs == [fs[0]];
    } else {
      FieldPatternsMayEndInComma(fs[1..], before + [fs[0]], k, c.(ts := later));
    }
  }

  // ----- Types -----

  lemma ElementReads(t: A.Type, k: Stream, c: Cursor)
    requires IsType(t) && c.bank == 0 && c.ts == PrintType(t, k) && k.More? && k.head == COMMA
    ensures ParseType(c) == Ok(t, c.(ts := k)) && !c.Check(RParen) && !ClosesArgs(c)
  {
    TypeHead(t, k);
    T.PrintedTypeReads(t, c, k);
  }

  lemma {:induction false} TypeArgsMayEndInComma(ts: seq<A.Type>, before: seq<A.Type>, k: Stream, c: Cursor)
    requires ts != [] && (forall t <- ts :: IsType(t)) && c.bank == 0 && c.ts == PrintTypes(ts, CommaThen(GREATER, k))
    ensures ParseTypeArgs(c, before) == Ok(before + ts, c.(ts := More(GREATER, k))) && !ClosesArgs(c)
    decreases |ts|
  {
    var later := if |ts| == 1 then More(GREATER, k) else PrintTypes(ts[1..], CommaThen(GREATER, k));
    var more := More(COMMA, later);
    ElementReads(ts[0], more, c);
    R.Step(COMMA, later, c.(ts := more));
    T.Regroup(before, ts);
    if |ts| == 1 {
      assert ts == [ts[0]];
    } else {
      TypeArgsMayEndInComma(ts[1..], before + [ts[0]], k, c.(ts := later));
    }
  }

  lemma {:induction false} TupleTypesMayEndInComma(ts: seq<A.Type>, before: seq<A.Type>, k: Stream, c: Cursor)
    requires ts != [] && (forall t <- ts :: IsType(t)) && c.bank == 0 && c.ts == PrintTypes(ts, CommaThen(RPAREN, k))
    ensures ParseTupleTypes(c, before) == Ok(before + ts, c.(ts := More(RPAREN, k)))
    decreases |ts|
  {
    var later := if |ts| == 1 then More(RPAREN, k) else PrintTypes(ts[1..], CommaThen(RPAREN, k));
    var more := More(COMMA, later);
    ElementReads(ts[0], more, c);
    TypeHead(ts[0], more);
    R.Step(COMMA, later, c.(ts := more));
    T.Regroup(before, ts);
    if |ts| == 1 {
      assert ts == [ts[0]];
    } else {
      TupleTypesMayEndInComma(ts[1..], before + [ts[0]], k, c.(ts := later));
    }
  }

  // ----- Paths -----

  /** A `::` behind a path is read and dropped. */
  lemma {:induction false} PathMayEndInColons(path: A.Path, before: A.Path, k: Stream, c: Cursor)
    requires path != [] && c.ts == PrintPath(path, More(COLONS, k))
    requires k.More? && k.head.kind != Eof && !IsPathSegment(k.head.kind)
    ensures ParsePath(c, before) == Ok(before + path, c.(ts := k))
    decreases |path|
  {
    var later := if |path| == 1 then k else PrintPath(path[1..], More(COLONS, k));
    R.Step(SegmentWord(path[0]), More(COLONS, later), c);
    R.Step(COLONS, later, c.(ts := More(COLONS, later)));
    T.Regroup(before, path);
    if |path| == 1 {
      assert path == [path[0]];
    } else {
      PathMayEndInColons(path[1..], before + [path[0]], k, c.(ts := later));
    }
  }

  // ----- Separators -----

  /** The word so many times. */
  function Repeat(w: Word, n: nat, k: Stream): Stream {
    if n == 0 then k else More(w, Repeat(w, n - 1, k))
  }

  /** Semicolons without statements, items or methods between them are nothing. */
  lemma {:induction false} SemicolonsAreNothing(n: nat, ss: seq<A.Stmt>, items: seq<A.Item>, inModule: bool, k: Stream, c: Cursor)
    requires c.ts == Repeat(SEMICOLON, n, k)
    ensures ParseStmts(c, ss) == ParseStmts(c.(ts := k), ss)
    ensures ParseItems(c, inModule, items) == ParseItems(c.(ts := k), inModule, items)
    ensures ParseMethods(c, items) == ParseMethods(c.(ts := k), items)
    decreases n
  {
    if n > 0 {
      R.Step(SEMICOLON, Repeat(SEMICOLON, n - 1, k), c);
      SemicolonsAreNothing(n - 1, ss, items, inModule, k, Advance(c));
    }
  }

  /** Nor are commas or semicolons without arms. */
  lemma {:induction false} SeparatorsAreNothing(w: Word, n: nat, arms: seq<A.MatchArm>, k: Stream, c: Cursor)
    requires (w == COMMA || w == SEMICOLON) && c.ts == Repeat(w, n, k)
    ensures ParseArms(c, arms) == ParseArms(c.(ts := k), arms)
    decreases n
  {
    if n > 0 {
      R.Step(w, Repeat(w, n - 1, k), c);
      SeparatorsAreNothing(w, n - 1, arms, k, Advance(c));
    }
  }

  // ----- Struct literals -----

  /** A range is over in front of `..`, and so a base can follow a field whose value is one
      without a comma. */
  lemma BaseMayFollowRange(path: A.Path, name: string, start: Option<A.Expr>, end: A.Expr, inclusive: bool, base: A.Expr,
                           k: Stream, c: Cursor)
    requires (start.Some? ==> IsPart(start.value, c.lit)) && IsPart(end, c.lit) && IsPlain(base, c.lit) && c.bank == 0
    requires var range := A.RangeExpr(start, Some(end), inclusive);
      c.ts == PrintInit(A.FieldInit(name, range), More(DOT_DOT, Bare(base, More(RBRACE, k))))
    ensures ParseStructLiteral(path, c)
      == Ok(A.StructExpr(path, [A.FieldInit(name, A.RangeExpr(start, Some(end), inclusive))], Some(base)), c.(ts := k))
  {
    var f := A.FieldInit(name, A.RangeExpr(start, Some(end), inclusive));
    var right := Bare(base, More(RBRACE, k));
    var late := More(DOT_DOT, right);
    RangePrints(start, end, inclusive, late);
    FieldBeforeBase(name, start, end, inclusive, late, c, c.(ts := Bare(f.value, late)));
    R.Step(DOT_DOT, right, c.(ts := late));
    E.WholeReads(base, More(RBRACE, k), c.(ts := right));
    R.Step(RBRACE, k, c.(ts := More(RBRACE, k)));
    LateStep(path, f, base, c, c.(ts := late), c.(ts := More(RBRACE, k)));
  }

  lemma EndStandsAlone(start: Option<A.Expr>, end: A.Expr, inclusive: bool, k: Stream, c: Cursor)
    requires IsPart(end, c.lit) && c.bank == 0 && k.More? && k.head == DOT_DOT
    requires c.ts == More(RangeWord(Some(end), inclusive), Print(OR, end, k))
    ensures ParseRangeEnd(c, start) == Ok(A.RangeExpr(start, Some(end), inclusive), c.(ts := k))
  {
    var right := Print(OR, end, k);
    R.Step(RangeWord(Some(end), inclusive), right, c);
    var c1 := c.(ts := right);
    E.BoundHead(end, k, c1);
    E.RangeFollows(k, c.lit);
    E.BoundReads(end, k, c1);
    RangeEnd(start, Some(end), inclusive, c, c1, c.(ts := k));
  }

  lemma RangeStandsAlone(start: Option<A.Expr>, end: A.Expr, inclusive: bool, k: Stream, c: Cursor, c1: Cursor)
    requires (start.Some? ==> IsPart(start.value, c.lit)) && IsPart(end, c.lit) && c.bank == 0 && k.More? && k.head == DOT_DOT
    requires c1 == c.(ts := More(RangeWord(Some(end), inclusive), Print(OR, end, k))) && c.ts == PrintBound(start, c1.ts)
    ensures ParseExpr(c) == Ok(A.RangeExpr(start, Some(end), inclusive), c.(ts := k))
  {
    E.StartReads(start, c1.ts, c);
    EndStandsAlone(start, end, inclusive, k, c1);
  }

  lemma RangePrints(start: Option<A.Expr>, end: A.Expr, inclusive: bool, k: Stream)
    ensures Bare(A.RangeExpr(start, Some(end), inclusive), k)
      == PrintBound(start, More(RangeWord(Some(end), inclusive), Print(OR, end, k)))
  {
    var e := A.RangeExpr(start, Some(end), inclusive);
    assert Bare(e, k) == PrintForm(e, k);
    assert PrintBound(Some(end), k) == Print(OR, end, k);
  }

  lemma FieldBeforeBase(name: string, start: Option<A.Expr>, end: A.Expr, inclusive: bool, k: Stream, c: Cursor, c1: Cursor)
    requires (start.Some? ==> IsPart(start.value, c.lit)) && IsPart(end, c.lit) && c.bank == 0 && k.More? && k.head == DOT_DOT
    requires c1 == c.(ts := PrintBound(start, More(RangeWord(Some(end), inclusive), Print(OR, end, k))))
    requires c.ts == More(Word(Ident, name, 0), More(COLON, c1.ts))
    ensures ParseInit(c) == Ok(A.FieldInit(name, A.RangeExpr(start, Some(end), inclusive)), c.(ts := k)) && c.Check(Ident)
  {
    R.Step(Word(Ident, name, 0), More(COLON, c1.ts), c);
    R.Step(COLON, c1.ts, c.(ts := More(COLON, c1.ts)));
    RangeStandsAlone(start, end, inclusive, k, c1, c.(ts := More(RangeWord(Some(end), inclusive), Print(OR, end, k))));
  }

  lemma LateStep(path: A.Path, f: A.FieldInit, base: A.Expr, c: Cursor, c1: Cursor, c2: Cursor)
    requires c.Check(Ident) && ParseInit(c) == Ok(f, c1) && c1.Check(DotDot)
    requires ParseExpr(Advance(c1)) == Ok(base, c2) && c2.Check(RBrace)
    ensures ParseStructLiteral(path, c) == Ok(A.StructExpr(path, [f], Some(base)), Advance(c2))
  {
    assert [] + [f] == [f];
    assert ParseInits(c, []) == Ok(([f], None), c1);
    assert ParseLateBase(None, c1) == Ok(Some(base), c2);
  }
}
