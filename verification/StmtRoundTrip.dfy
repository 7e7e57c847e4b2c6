/** When a statement that is printed without parentheses reads back, and what a struct literal
    does to a pattern condition. */
module StmtRoundTrip {
  import opened Options
  import opened Tokens
  import opened Grammar
  import opened TypeSyntax
  import opened ExprSyntax
  import opened FormSteps
  import opened Lookahead
  import P = PatternSyntax
  import E = ExprRoundTrip
  import T = TypeRoundTrip
  import A = Ast

  // ----- Places with an open range -----

  /** No expression begins with an assignment. */
  lemma {:induction false} NoExprThere(level: nat, c: Cursor)
    requires level <= POW && (c.Peek() == Eq || IsCompoundAssign(c.Peek()))
    ensures ParseBinary(level, c).Fail?
    decreases POW - level
  {
    if level < POW {
      NoExprThere(level + 1, c);
    } else {
      NoPrimaryThere(c);
    }
  }

  lemma NoPrimaryThere(c: Cursor)
    requires c.Peek() == Eq || IsCompoundAssign(c.Peek())
    ensures ParsePow(c).Fail?
  {
    assert ParsePath(c, []).Fail?;
    assert ParsePathExpr(c).Fail?;
    assert ParsePrimary(c).Fail?;
    assert ParseUnary(c).Fail?;
  }

  predicate IsAssigned(k: Stream) {
    k.More? && (k.head.kind == Eq || IsCompoundAssign(k.head.kind))
  }

  lemma OpenRangeFails(start: Option<A.Expr>, k: Stream, c: Cursor)
    requires (start.Some? ==> IsPart(start.value, c.lit)) && c.bank == 0 && c.ts == PrintBound(start, More(DOT_DOT_EQ, k)) && IsAssigned(k)
    ensures ParseExpr(c).Fail?
  {
    var next := More(DOT_DOT_EQ, k);
    E.StartReads(start, next, c);
    Step(DOT_DOT_EQ, k, c.(ts := next));
    NoExprThere(OR, c.(ts := k));
  }

  lemma OpenPrints(e: A.Expr, k: Stream, lit: bool)
    requires IsPlain(e, lit) && IsOpen(e)
    ensures Bare(e, k) == PrintForm(e, k) && IsForm(e, lit)
    ensures e.RangeExpr? ==> Bare(e, k) == PrintBound(e.start, More(DOT_DOT_EQ, k)) && (e.start.Some? ==> IsPart(e.start.value, lit))
    ensures e.ReturnExpr? ==> Bare(e, k) == More(RET, Bare(e.result.value, k)) && IsPlain(e.result.value, lit)
  {
  }

  /** A range without an end takes what comes next for its end, and so fails at an
      assignment. */
  lemma {:induction false} OpenFails(e: A.Expr, k: Stream, c: Cursor)
    requires IsPlain(e, c.lit) && IsOpen(e) && c.bank == 0 && c.ts == Bare(e, k) && IsAssigned(k)
    ensures ParseExpr(c).Fail?
    decreases e
  {
    OpenPrints(e, k, c.lit);
    if e.RangeExpr? {
      OpenRangeFails(e.start, k, c);
    } else {
      var result := e.result.value;
      Step(RET, Bare(result, k), c);
      OpenFails(result, k, Advance(c));
      BareHead(result, k, c.lit);
      ReturnFails(c);
    }
  }

  lemma ReturnFails(c: Cursor)
    requires c.Check(Ret) && ParseExpr(Advance(c)).Fail?
    requires var c1 := Advance(c); !c1.Check(Semicolon) && !c1.Check(RBrace) && !c1.AtEnd()
    ensures ParseExpr(c).Fail?
  {
    assert ParseReturn(c).Fail?;
    assert ParsePrimary(c).Fail?;
    assert ParseUnary(c).Fail?;
    assert ParsePow(c).Fail?;
    FailsOnAllRungs(OR, c);
  }

  lemma {:induction false} FailsOnAllRungs(level: nat, c: Cursor)
    requires level <= POW && ParsePow(c).Fail?
    ensures ParseBinary(level, c).Fail?
    decreases POW - level
  {
    if level < POW {
      FailsOnAllRungs(level + 1, c);
    }
  }

  // ----- Statements without parentheses -----

  lemma DeclLeadTells(c: Cursor)
    requires ScanLead(c.ts, 0) == DeclLead && ParseStmt(c).Ok?
    ensures ParseStmt(c).value.DeclStmt?
  {
  }

  lemma NoLeadTells(c: Cursor)
    requires ScanLead(c.ts, 0) == NoLead && ParseStmt(c).Ok?
    ensures ParseStmt(c).value.ExprStmt?
  {
  }

  /** What the lookahead does not see, a statement is not read as. */
  lemma LeadTells(c: Cursor)
    requires ParseStmt(c).Ok? && ScanLead(c.ts, 0) != ReassignLead
    ensures if ScanLead(c.ts, 0) == DeclLead then ParseStmt(c).value.DeclStmt? else ParseStmt(c).value.ExprStmt?
  {
    if ScanLead(c.ts, 0) == DeclLead {
      DeclLeadTells(c);
    } else {
      NoLeadTells(c);
    }
  }

  /** Without parentheses, a printed statement reads back as itself, with no diagnostics and
      the cursor just past the print, exactly if it misleads nobody: it is no declaration
      with a struct pattern's brace outside parentheses, no assignment to what has a block's
      brace or an open range there, and no expression whose first block has a pattern
      condition in front of it. */
  lemma StatementRoundTrip(s: A.Stmt, k: Stream, c: Cursor)
    requires IsStmt(s, c.lit) && (s.ExprStmt? ==> ScanLead(k, 0) == NoLead)
    requires c.bank == 0 && c.ts == PrintStmt(s, false, k) && Follows(-1, k, c.lit) && Stops(E.LastExpr(s), k)
    ensures ParseStmt(c) == Ok(s, c.(ts := k)) <==> !IsMisled(s)
  {
    if !IsMisled(s) {
      E.StmtReads(s, false, k, c);
    } else {
      E.LeadIs(s, false, k, c.lit);
      if ParseStmt(c).Ok? && ScanLead(c.ts, 0) != ReassignLead {
        LeadTells(c);
      }
      if s.ReassignStmt? && Lead(s.place).None? {
        AssignWordIs(s.compound);
        OpenFails(s.place, More(AssignWord(s.compound), Bare(s.value, k)), c);
      }
    }
  }

  /** A printed block reads back. */
  lemma BlockRoundTrip(b: A.Block, k: Stream, c: Cursor)
    requires IsBlock(b, c.lit) && c.bank == 0 && c.ts == PrintBlock(b, k)
    ensures ParseBlock(c) == Ok(b, c.(ts := k))
  {
    E.BlockReads(b, k, c);
  }

  // ----- Pattern conditions -----

  /** A path in front of an empty block is read with it as a struct literal, where one may
      start. */
  lemma PathTakesBlock(path: A.Path, k: Stream, c: Cursor)
    requires path != [] && c.bank == 0 && c.lit && c.ts == PrintPath(path, More(LBRACE, More(RBRACE, k)))
    requires Follows(-1, k, false)
    ensures ParseExpr(c) == Ok(A.StructExpr(path, [], None), c.(ts := k))
  {
    assert c.ts == PrintForm(A.StructExpr(path, [], None), k);
    E.StructReads(A.StructExpr(path, [], None), k, c);
    PrimaryIsExpr(A.StructExpr(path, [], None), c, c.(ts := k));
  }

  /** So an `if` whose pattern condition ends in a path and whose block is empty is not read,
      unless another block follows. */
  lemma PatternConditionLosesBlock(pattern: A.Pattern, path: A.Path, k: Stream, c: Cursor)
    requires P.IsPattern(pattern) && path != [] && c.bank == 0 && c.lit
    requires c.ts == More(IF, PrintPattern(pattern, More(COLON_EQ, PrintPath(path, More(LBRACE, More(RBRACE, k))))))
    requires Follows(-1, k, false) && k.head.kind != LBrace
    ensures ParseIf(c).Fail?
  {
    var init := PrintPath(path, More(LBRACE, More(RBRACE, k)));
    var next := More(COLON_EQ, init);
    Step(IF, PrintPattern(pattern, next), c);
    DeclaredPasses(pattern, next, 0);
    E.PatternReads(pattern, P.ShowsBrace(pattern), next, Advance(c));
    Step(COLON_EQ, init, c.(ts := next));
    PathTakesBlock(path, k, c.(ts := init));
    PatternCondStep(A.PatternCond(pattern, A.StructExpr(path, [], None)), Advance(c), c.(ts := next));
  }
}
