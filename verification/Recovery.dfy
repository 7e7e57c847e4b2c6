/** What recovery skips: words and bracketed groups of whatever words, up to the next boundary
    outside brackets, so that a statement that does not parse takes nothing else with it. */
module Recovery {
  import opened Options
  import opened Tokens
  import opened Grammar
  import opened TypeSyntax
  import opened ExprSyntax
  import opened FormSteps
  import E = ExprRoundTrip
  import A = Ast

  /** Words with their brackets in pairs, of whatever kinds. */
  datatype Junk =
    | Nothing
    | Plain(word: Word, rest: Junk)
    | Nested(open: Word, inside: Junk, close: Word, rest: Junk)

  /** No boundary at the outer level; inside brackets anything goes. */
  predicate IsJunk(j: Junk, outer: bool) {
    match j
    case Nothing => true
    case Plain(w, rest) =>
      && w.reserved == 0 && w.kind != Eof && !IsOpener(w.kind) && !IsCloser(w.kind)
      && (outer ==> w.kind != Semicolon && w.kind != Comma) && IsJunk(rest, outer)
    case Nested(open, inside, close, rest) =>
      && open.reserved == 0 && IsOpener(open.kind) && close.reserved == 0 && IsCloser(close.kind)
      && IsJunk(inside, false) && IsJunk(rest, outer)
  }

  function Print(j: Junk, k: Stream): Stream {
    match j
    case Nothing => k
    case Plain(w, rest) => More(w, Print(rest, k))
    case Nested(open, inside, close, rest) => More(open, Print(inside, More(close, Print(rest, k))))
  }

  lemma {:induction false} JunkIsSkipped(j: Junk, k: Stream, c: Cursor, depth: nat)
    requires IsJunk(j, depth == 0) && c.ts == Print(j, k)
    ensures SkipToBoundary(c, depth) == SkipToBoundary(c.(ts := k), depth)
    decreases j
  {
    if j.Plain? {
      Step(j.word, Print(j.rest, k), c);
      JunkIsSkipped(j.rest, k, Advance(c), depth);
    } else if j.Nested? {
      var rest := Print(j.rest, k);
      var close := More(j.close, rest);
      Step(j.open, Print(j.inside, close), c);
      JunkIsSkipped(j.inside, close, Advance(c), depth + 1);
      Step(j.close, rest, c.(ts := close));
      JunkIsSkipped(j.rest, k, c.(ts := rest), depth);
    }
  }

  lemma {:induction false} PrintIsLonger(j: Junk, k: Stream)
    ensures Length(Print(j, k)) >= Length(k) && (j != Nothing ==> Length(Print(j, k)) > Length(k))
    decreases j
  {
    if j.Plain? {
      PrintIsLonger(j.rest, k);
    } else if j.Nested? {
      PrintIsLonger(j.rest, k);
      PrintIsLonger(j.inside, More(j.close, Print(j.rest, k)));
    }
  }

  /** Recovery takes the junk, and with it a `;` or a `,`; a closing bracket it leaves, unless
      there is nothing else to take. */
  lemma RecoveryTakesJunk(j: Junk, w: Word, k: Stream, c: Cursor, c1: Cursor)
    requires IsJunk(j, true) && w.reserved == 0
    requires w.kind == Semicolon || w.kind == Comma || IsCloser(w.kind)
    requires c1.ts == More(w, k) && c == c1.(ts := Print(j, c1.ts))
    ensures Synchronize(c) == if IsCloser(w.kind) && j != Nothing then c1 else c1.(ts := k)
  {
    JunkIsSkipped(j, c1.ts, c, 0);
    BoundaryStops(c1);
    PrintIsLonger(j, c1.ts);
    SynchronizeIs(c, c1);
  }

  lemma BoundaryStops(c: Cursor)
    requires c.Peek() == Semicolon || c.Peek() == Comma || IsCloser(c.Peek())
    ensures SkipToBoundary(c, 0) == c
  {
  }

  lemma SynchronizeIs(c: Cursor, b: Cursor)
    requires SkipToBoundary(c, 0) == b && !b.AtEnd()
    ensures Synchronize(c) ==
      if b.Left() == c.Left() || b.Peek() == Semicolon || b.Peek() == Comma then Advance(b) else b
  {
  }

  lemma JunkIsTaken(j: Junk, later: Stream, c: Cursor)
    requires IsJunk(j, true) && c.ts == Print(j, More(SEMICOLON, later))
    ensures Synchronize(c.Report()) == c.(ts := later, diags := c.diags + 1)
  {
    RecoveryTakesJunk(j, SEMICOLON, later, c.Report(), c.Report().(ts := More(SEMICOLON, later)));
  }

  // ----- A statement that does not parse -----

  /** Nothing begins with such a word: no expression, no pattern and no type. */
  predicate BeginsNothing(kind: Kind) {
    && !StartsWhole(kind) && kind != Underscore && kind != Mut && kind != Minus
    && !IsOpener(kind) && !IsCloser(kind) && kind != Semicolon && kind != Comma && kind != Eof
  }

  lemma NoPower(c: Cursor)
    requires BeginsNothing(c.Peek())
    ensures ParsePow(c) == Fail(c.Report())
  {
    assert ParsePath(c, []) == Fail(c.Report());
    assert ParsePathExpr(c) == Fail(c.Report());
    assert ParsePrimary(c) == Fail(c.Report());
    assert ParsePostfix(c) == Fail(c.Report());
    assert ParseUnary(c) == Fail(c.Report());
    assert ParseCast(c) == Fail(c.Report());
  }

  lemma {:induction false} NoBinary(level: nat, c: Cursor)
    requires level <= POW && ParsePow(c).Fail?
    ensures ParseBinary(level, c) == Fail(ParsePow(c).c)
    decreases POW - level
  {
    if level < POW {
      NoBinary(level + 1, c);
    }
  }

  lemma NoExpression(c: Cursor)
    requires BeginsNothing(c.Peek())
    ensures ParseExpr(c) == Fail(c.Report())
  {
    NoPower(c);
    NoBinary(OR, c);
  }

  lemma NoPattern(c: Cursor)
    requires BeginsNothing(c.Peek())
    ensures ParsePattern(c) == Fail(c.Report())
  {
    assert ParsePath(c, []) == Fail(c.Report());
    assert ParsePathPattern(c) == Fail(c.Report());
    assert ParsePrimaryPattern(c) == Fail(c.Report());
  }

  lemma NoStatement(c: Cursor)
    requires BeginsNothing(c.Peek())
    ensures ParseStmt(c) == Fail(c.Report())
  {
    NoExpression(c);
    NoPattern(c);
  }

  lemma BadStep(before: seq<A.Stmt>, c: Cursor, c1: Cursor)
    requires !LoopEnds(c) && !c.Check(Semicolon) && ParseStmt(c) == Fail(c1)
    ensures ParseStmts(c, before) == ParseStmts(Synchronize(c1), before)
  {
  }

  /** A statement that cannot even begin is reported once and dropped, up to its `;`. */
  lemma BadStatementIsDropped(before: seq<A.Stmt>, j: Junk, later: Stream, c: Cursor)
    requires j.Plain? && BeginsNothing(j.word.kind) && IsJunk(j, true)
    requires c.ts == Print(j, More(SEMICOLON, later))
    ensures ParseStmts(c, before) == ParseStmts(c.(ts := later, diags := c.diags + 1), before)
  {
    NoStatement(c);
    JunkIsTaken(j, later, c);
    BadStep(before, c, c.Report());
  }

  ghost predicate AreStmts(ss: seq<A.Stmt>, lit: bool) {
    forall s <- ss :: IsStmt(s, lit)
  }

  /** What comes after the bad statement. */
  lemma RestIsRead(after: seq<A.Stmt>, value: Option<A.Expr>, before: seq<A.Stmt>, k: Stream, c: Cursor)
    requires AreStmts(after, c.lit) && (value.Some? ==> IsPlain(value.value, c.lit)) && c.bank == 0
    requires c.ts == PrintStmts(after, PrintValue(value, More(RBRACE, k)))
    ensures ParseStmts(c, before) == (before + after, value, c.(ts := More(RBRACE, k)))
  {
    var close := More(RBRACE, k);
    E.StmtsRead(after, before, PrintValue(value, close), c);
    E.ValueReads(value, before + after, close, c.(ts := PrintValue(value, close)));
  }

  lemma StatementsRead(ss: seq<A.Stmt>, k: Stream, c: Cursor)
    requires AreStmts(ss, c.lit) && c.bank == 0 && c.ts == PrintStmts(ss, k)
    ensures ParseStmts(c, []) == ParseStmts(c.(ts := k), ss)
  {
    E.StmtsRead(ss, [], k, c);
    assert [] + ss == ss;
  }

  lemma StatementsThenBad(before: seq<A.Stmt>, j: Junk, later: Stream, c: Cursor)
    requires AreStmts(before, c.lit) && c.bank == 0
    requires j.Plain? && BeginsNothing(j.word.kind) && IsJunk(j, true)
    requires c.ts == PrintStmts(before, Print(j, More(SEMICOLON, later)))
    ensures ParseStmts(c, []) == ParseStmts(c.(ts := later, diags := c.diags + 1), before)
  {
    var c1 := c.(ts := Print(j, More(SEMICOLON, later)));
    StatementsRead(before, c1.ts, c);
    BadStatementIsDropped(before, j, later, c1);
    assert c1.(ts := later, diags := c1.diags + 1) == c.(ts := later, diags := c.diags + 1);
  }

  lemma StatementsLoseOnlyBad(before: seq<A.Stmt>, after: seq<A.Stmt>, value: Option<A.Expr>, j: Junk, k: Stream, c: Cursor)
    requires AreStmts(before, c.lit) && AreStmts(after, c.lit) && (value.Some? ==> IsPlain(value.value, c.lit)) && c.bank == 0
    requires j.Plain? && BeginsNothing(j.word.kind) && IsJunk(j, true)
    requires c.ts == PrintStmts(before, Print(j, More(SEMICOLON, PrintStmts(after, PrintValue(value, More(RBRACE, k))))))
    ensures ParseStmts(c, []) == (before + after, value, c.(ts := More(RBRACE, k), diags := c.diags + 1))
  {
    var later := PrintStmts(after, PrintValue(value, More(RBRACE, k)));
    StatementsThenBad(before, j, later, c);
    RestIsRead(after, value, before, k, c.(ts := later, diags := c.diags + 1));
  }

  /** So a block with such a statement in it is read as the block without, with one
      diagnostic. */
  lemma BlockLosesOnlyBad(before: seq<A.Stmt>, after: seq<A.Stmt>, value: Option<A.Expr>, j: Junk, k: Stream, inside: Cursor)
    requires AreStmts(before, inside.lit) && AreStmts(after, inside.lit) && (value.Some? ==> IsPlain(value.value, inside.lit))
    requires j.Plain? && BeginsNothing(j.word.kind) && IsJunk(j, true) && inside.bank == 0
    requires inside.ts == PrintStmts(before, Print(j, More(SEMICOLON, PrintStmts(after, PrintValue(value, More(RBRACE, k))))))
    ensures ParseBlock(inside.(ts := More(LBRACE, inside.ts)))
      == Ok(A.Block(before + after, value), inside.(ts := k, diags := inside.diags + 1))
  {
    var c := inside.(ts := More(LBRACE, inside.ts));
    Step(LBRACE, inside.ts, c);
    StatementsLoseOnlyBad(before, after, value, j, k, inside);
    BlockEnds(before + after, value, k, c, inside);
  }

  lemma BlockEnds(ss: seq<A.Stmt>, value: Option<A.Expr>, k: Stream, c: Cursor, inside: Cursor)
    requires c.Check(LBrace) && Advance(c) == inside
    requires ParseStmts(inside, []) == (ss, value, c.(ts := More(RBRACE, k), diags := c.diags + 1))
    ensures ParseBlock(c) == Ok(A.Block(ss, value), c.(ts := k, diags := c.diags + 1))
  {
    var c1 := c.(ts := More(RBRACE, k), diags := c.diags + 1);
    Step(RBRACE, k, c1);
    BlockStep(A.Block(ss, value), c, c1);
  }

  // ----- A statement without its end -----

  /** Where a statement should end, such a word neither ends it nor goes on with it. */
  predicate IsOutOfPlace(kind: Kind) {
    BeginsNothing(kind) && Extends(kind, true) < -1 && Extends(kind, false) < -1
  }

  lemma KeptStep(before: seq<A.Stmt>, s: A.Stmt, c: Cursor, c1: Cursor)
    requires !LoopEnds(c) && !c.Check(Semicolon) && ParseStmt(c) == Ok(s, c1) && !c1.Check(Semicolon) && !LoopEnds(c1)
    ensures ParseStmts(c, before) == ParseStmts(Synchronize(c1.Report()), before + [s])
  {
  }

  lemma JunkFollows(j: Junk, k: Stream, c: Cursor)
    requires j.Plain? && IsOutOfPlace(j.word.kind) && c.ts == Print(j, k)
    ensures Follows(-1, c.ts, c.lit) && !c.Check(Semicolon) && !LoopEnds(c)
  {
  }

  /** A statement in front of the cursor `c`. */
  function Behind(s: A.Stmt, c: Cursor): Cursor {
    c.(ts := PrintStmt(s, IsMisled(s), c.ts))
  }

  lemma UnendedIsKept(before: seq<A.Stmt>, s: A.Stmt, c: Cursor)
    requires IsStmt(s, c.lit) && c.bank == 0 && (s.ExprStmt? ==> !IsMisled(s) && ScanLead(c.ts, 0) == NoLead)
    requires !EndsBare(E.LastExpr(s)) && !IsOpen(E.LastExpr(s))
    requires Follows(-1, c.ts, c.lit) && !c.Check(Semicolon) && !LoopEnds(c)
    ensures ParseStmts(Behind(s, c), before) == ParseStmts(Synchronize(c.Report()), before + [s])
  {
    E.StmtHead(s, IsMisled(s), c.ts, c.lit);
    E.StmtReads(s, IsMisled(s), c.ts, Behind(s, c));
    KeptStep(before, s, Behind(s, c), c);
  }

  /** A statement with words behind it that do not belong there is kept; the words are
      reported once and skipped. */
  lemma StatementIsKept(before: seq<A.Stmt>, s: A.Stmt, j: Junk, later: Stream, c: Cursor)
    requires IsStmt(s, c.lit) && c.bank == 0 && (s.ExprStmt? ==> !IsMisled(s) && ScanLead(c.ts, 0) == NoLead)
    requires !EndsBare(E.LastExpr(s)) && !IsOpen(E.LastExpr(s))
    requires j.Plain? && IsOutOfPlace(j.word.kind) && IsJunk(j, true) && c.ts == Print(j, More(SEMICOLON, later))
    ensures ParseStmts(Behind(s, c), before) == ParseStmts(c.(ts := later, diags := c.diags + 1), before + [s])
  {
    JunkFollows(j, More(SEMICOLON, later), c);
    UnendedIsKept(before, s, c);
    JunkIsTaken(j, later, c);
  }

  /** A block whose brace is missing at the end of the file is reported. */
  lemma OpenBlockIsReported(ss: seq<A.Stmt>, c: Cursor, inside: Cursor)
    requires AreStmts(ss, c.lit) && c.bank == 0
    requires inside == c.(ts := PrintStmts(ss, More(Word(Eof, "", 0), End))) && c.ts == More(LBRACE, inside.ts)
    ensures ParseBlock(c) == Fail(c.(ts := More(Word(Eof, "", 0), End), diags := c.diags + 1))
  {
    var end := More(Word(Eof, "", 0), End);
    Step(LBRACE, inside.ts, c);
    StatementsRead(ss, end, inside);
    assert ParseStmts(c.(ts := end), ss) == (ss, None, c.(ts := end));
  }

  // ----- Reserved words -----

  /** The reserved words among the tokens from `i` on. */
  function CountReserved(ts: seq<Token>, i: nat): nat
    decreases |ts| - i
  {
    if i >= |ts| then 0 else CountReserved(ts, i + 1) + if IsReserved(ts[i].kind) then 1 else 0
  }

  lemma {:induction false} ReservedAreCounted(ts: seq<Token>, i: nat)
    requires i <= |ts| && forall k | 0 <= k < |ts| && ts[k].kind == Eof :: k == |ts| - 1
    ensures Reserved(Words(ts, i)) + ReservedAhead(ts, i) == CountReserved(ts, i)
    decreases |ts| - i
  {
    if i < |ts| {
      ReservedAreCounted(ts, i + 1);
    }
  }

  /** Whatever else is wrong with a file, each reserved word in it is reported: a file without
      diagnostics has none. */
  lemma ReservedWordsAreReported(tokens: TokenList)
    ensures CountReserved(tokens, 0) <= ParseFile(tokens).1.diags
  {
    ReservedAreCounted(tokens, 0);
  }
}
