/** What the tokens of a text are: where they stand in it, what is left between them, which
    semicolons were inserted, and how far they may go beyond the end. */
module Tokenization {
  import opened Options
  import opened Tokens
  import opened Scanning
  import opened Semicolons
  import opened Spelling

  // ----- Spans -----

  /** Tokens follow each other without overlap, up to `end`. */
  ghost predicate InOrder(ts: seq<Lexed>, end: nat) {
    && (forall k | 0 <= k < |ts| :: ts[k].start < ts[k].end <= end)
    && (forall j, k | 0 <= j < k < |ts| :: ts[j].end <= ts[k].start)
  }

  lemma StepInOrder(out: seq<Lexed>, p: Piece, rest: Pieces)
    requires InOrder(out, p.start) && p.start < p.end
    ensures InOrder(Step(out, p, rest), p.end)
  {
  }

  lemma {:induction false} InsertInOrder(b: string, i: nat, out: seq<Lexed>)
    requires i <= |b| + 1 && InOrder(out, i)
    ensures InOrder(Insert(out, PiecesFrom(b, i)), StopsAt(b, i))
    decreases |b| - i
  {
    if i < |b| && IsBlank(b[i]) {
      InsertInOrder(b, i + 1, out);
    } else if i < |b| {
      var p := PieceAt(b, i);
      var rest := PiecesFrom(b, p.end);
      StepInOrder(out, p, rest);
      InsertInOrder(b, p.end, Step(out, p, rest));
    }
  }

  /** The tokens before the end mark follow each other, and the end mark follows them. */
  lemma TokensAreInOrder(b: string)
    ensures var ts := LexText(b);
      InOrder(ts[..|ts| - 1], ts[|ts| - 1].start)
  {
    InsertInOrder(b, 0, []);
  }

  // ----- What each token is made of -----

  /** A token comes from the piece of the text that starts where it starts. */
  ghost predicate ComesFrom(b: string, t: Lexed) {
    && t.start < |b| && !IsBlank(b[t.start])
    && var p := PieceAt(b, t.start);
       if p.Newline? then t == Lexed(Semicolon, p.start, p.end) else TokensOf(p) == [t]
  }

  lemma {:induction false} InsertComesFrom(b: string, i: nat, out: seq<Lexed>, t: Lexed)
    requires forall u <- out :: ComesFrom(b, u)
    requires t in Insert(out, PiecesFrom(b, i))
    ensures ComesFrom(b, t)
    decreases |b| - i
  {
    if i < |b| && IsBlank(b[i]) {
      InsertComesFrom(b, i + 1, out, t);
    } else if i < |b| {
      var p := PieceAt(b, i);
      var rest := PiecesFrom(b, p.end);
      forall u <- Step(out, p, rest) ensures ComesFrom(b, u) {
      }
      InsertComesFrom(b, p.end, Step(out, p, rest), t);
    }
  }

  lemma TokenComesFrom(b: string, t: Lexed)
    requires t in LexText(b) && t.kind != Eof
    ensures ComesFrom(b, t)
  {
    assert t in Insert([], PiecesFrom(b, 0));
    InsertComesFrom(b, 0, [], t);
  }

  // ----- What is between the tokens -----

  predicate InPlainComment(ps: Pieces, p: nat) {
    ps.Cons? && ((ps.head.Comment? && !ps.head.isDoc && ps.head.start <= p < ps.head.end) || InPlainComment(ps.tail, p))
  }

  ghost predicate InToken(ts: seq<Lexed>, p: nat) {
    exists t <- ts :: t.start <= p < t.end
  }

  lemma StepKeeps(out: seq<Lexed>, p: Piece, rest: Pieces, i: nat)
    requires InToken(out, i)
    ensures InToken(Step(out, p, rest), i)
  {
    var t :| t in out && t.start <= i < t.end;
    assert t in Step(out, p, rest);
  }

  lemma {:induction false} InsertKeeps(out: seq<Lexed>, ps: Pieces, i: nat)
    requires InToken(out, i)
    ensures InToken(Insert(out, ps), i)
    decreases ps
  {
    if ps.Cons? {
      StepKeeps(out, ps.head, ps.tail, i);
      InsertKeeps(Step(out, ps.head, ps.tail), ps.tail, i);
    }
  }

  lemma StepCovers(out: seq<Lexed>, p: Piece, rest: Pieces, i: nat)
    requires p.start <= i < p.end && !p.Newline? && !(p.Comment? && !p.isDoc)
    ensures InToken(Step(out, p, rest), i)
  {
    var t := TokensOf(p)[0];
    assert t in Step(out, p, rest);
  }

  lemma {:induction false} EverythingIsCovered(b: string, i: nat, out: seq<Lexed>, p: nat)
    requires i <= p < |b|
    ensures InToken(Insert(out, PiecesFrom(b, i)), p) || IsBlank(b[p]) || b[p] == '\n' || InPlainComment(PiecesFrom(b, i), p)
    decreases |b| - i
  {
    if IsBlank(b[i]) {
      if i < p {
        EverythingIsCovered(b, i + 1, out, p);
      }
    } else {
      var piece := PieceAt(b, i);
      var rest := PiecesFrom(b, piece.end);
      if piece.end <= p {
        EverythingIsCovered(b, piece.end, Step(out, piece, rest), p);
      } else if !piece.Newline? && !(piece.Comment? && !piece.isDoc) {
        StepCovers(out, piece, rest, p);
        InsertKeeps(Step(out, piece, rest), rest, p);
      }
    }
  }

  /** Every character outside the tokens is a blank, a newline or comment text. */
  lemma NothingIsLost(b: string, p: nat)
    requires p < |b|
    ensures InToken(LexText(b), p) || IsBlank(b[p]) || b[p] == '\n' || InPlainComment(PiecesFrom(b, 0), p)
  {
    EverythingIsCovered(b, 0, [], p);
    var ts := Insert([], PiecesFrom(b, 0));
    if InToken(ts, p) {
      var t :| t in ts && t.start <= p < t.end;
      assert t in LexText(b);
    }
  }

  // ----- Inserted semicolons -----

  /** The tokens of the pieces by themselves. */
  function Raw(ps: Pieces): seq<Lexed> {
    match ps
    case Nil => []
    case Cons(p, tail) => TokensOf(p) + Raw(tail)
  }

  /** Without the semicolons that stand for newlines. */
  function Written(b: string, ts: seq<Lexed>): seq<Lexed> {
    if ts == [] then []
    else
      var t := ts[|ts| - 1];
      Written(b, ts[..|ts| - 1]) + if At(b, t.start) == '\n' then [] else [t]
  }

  lemma WrittenOfOne(b: string, ts: seq<Lexed>, t: Lexed)
    ensures Written(b, ts + [t]) == Written(b, ts) + if At(b, t.start) == '\n' then [] else [t]
  {
    assert (ts + [t])[..|ts|] == ts;
  }

  lemma StepWrites(b: string, i: nat, out: seq<Lexed>, rest: Pieces)
    requires i < |b| && !IsBlank(b[i])
    ensures Written(b, Step(out, PieceAt(b, i), rest)) == Written(b, out) + TokensOf(PieceAt(b, i))
  {
    var p := PieceAt(b, i);
    if Inserts(out, p, rest) {
      WrittenOfOne(b, out, Lexed(Semicolon, p.start, p.end));
    } else if TokensOf(p) == [] {
      assert out + [] == out;
    } else {
      assert TokensOf(p) == [TokensOf(p)[0]];
      WrittenOfOne(b, out, TokensOf(p)[0]);
    }
  }

  lemma Regroup(r: seq<Lexed>, s: seq<Lexed>, t: seq<Lexed>)
    ensures r + s + t == r + (s + t)
  {
  }

  lemma {:induction false} InsertAddsOnly(b: string, i: nat, out: seq<Lexed>)
    ensures Written(b, Insert(out, PiecesFrom(b, i))) == Written(b, out) + Raw(PiecesFrom(b, i))
    decreases |b| - i
  {
    if i < |b| && IsBlank(b[i]) {
      InsertAddsOnly(b, i + 1, out);
    } else if i < |b| {
      var p := PieceAt(b, i);
      var rest := PiecesFrom(b, p.end);
      InsertAddsOnly(b, p.end, Step(out, p, rest));
      StepWrites(b, i, out, rest);
      Regroup(Written(b, out), TokensOf(p), Raw(rest));
    }
  }

  /** Taking the inserted semicolons out again leaves what lexing without insertion gives. */
  lemma InsertionOnlyAddsSemicolons(b: string)
    ensures var ts := LexText(b);
      Written(b, ts[..|ts| - 1]) == Raw(PiecesFrom(b, 0))
  {
    InsertAddsOnly(b, 0, []);
    assert Written(b, []) + Raw(PiecesFrom(b, 0)) == Raw(PiecesFrom(b, 0));
  }

  /** The kind of the first token that is no comment; an unclosed comment and the end of the
      tokens count as the end of input. */
  function FirstKind(b: string, ts: seq<Lexed>): Kind {
    if ts == [] then Eof
    else if ts[0].kind == DocComment then FirstKind(b, ts[1..])
    else if StartsBlockComment(b, ts[0].start) then Eof
    else ts[0].kind
  }

  /** Lookahead tells the kind of the token that is lexed later. */
  lemma {:induction false} LookaheadAgrees(b: string, i: nat)
    ensures NextKind(PiecesFrom(b, i)) == FirstKind(b, Raw(PiecesFrom(b, i)))
    decreases |b| - i
  {
    if i < |b| && IsBlank(b[i]) {
      LookaheadAgrees(b, i + 1);
    } else if i < |b| {
      var p := PieceAt(b, i);
      var rest := Raw(PiecesFrom(b, p.end));
      LookaheadAgrees(b, p.end);
      assert [] + rest == rest;
      if TokensOf(p) != [] {
        assert TokensOf(p) == [TokensOf(p)[0]];
        assert (TokensOf(p) + rest)[1..] == rest;
      }
    }
  }

  predicate NewlineAt(ps: Pieces, n: nat) {
    ps.Cons? && (ps.head == Newline(n, n + 1) || NewlineAt(ps.tail, n))
  }

  /** The tokens that end by `n`. */
  function Before(ts: seq<Lexed>, n: nat): seq<Lexed> {
    if ts == [] || ts[|ts| - 1].end <= n then ts else Before(ts[..|ts| - 1], n)
  }

  lemma {:induction false} InsertExtends(b: string, i: nat, out: seq<Lexed>)
    ensures var ts := Insert(out, PiecesFrom(b, i));
      out <= ts && forall k | |out| <= k < |ts| :: i <= ts[k].start < ts[k].end
    decreases |b| - i
  {
    if i < |b| && IsBlank(b[i]) {
      InsertExtends(b, i + 1, out);
    } else if i < |b| {
      var p := PieceAt(b, i);
      InsertExtends(b, p.end, Step(out, p, PiecesFrom(b, p.end)));
    }
  }

  lemma {:induction false} BeforeIsPrefix(ts: seq<Lexed>, m: nat, n: nat)
    requires m <= |ts| && (forall k | 0 <= k < m :: ts[k].end <= n) && (forall k | m <= k < |ts| :: ts[k].end > n)
    ensures Before(ts, n) == ts[..m]
  {
    if m < |ts| {
      BeforeIsPrefix(ts[..|ts| - 1], m, n);
    }
  }

  /** A token at `n` between those that end before and those that start after. */
  lemma TokenBetween(out: seq<Lexed>, next: seq<Lexed>, ts: seq<Lexed>, n: nat)
    requires InOrder(out, n) && next <= ts
    requires next == out || next == out + [Lexed(Semicolon, n, n + 1)]
    requires forall k | |next| <= k < |ts| :: n + 1 <= ts[k].start < ts[k].end
    ensures Before(ts, n) == out
    ensures Lexed(Semicolon, n, n + 1) in ts <==> next != out
  {
    assert out == next[..|out|] == ts[..|out|];
    assert forall k | 0 <= k < |out| :: ts[k] == out[k];
    BeforeIsPrefix(ts, |out|, n);
    if next != out {
      assert ts[|out|] == next[|out|];
    }
  }

  lemma NewlineRuleHere(b: string, n: nat, out: seq<Lexed>)
    requires n < |b| && b[n] == '\n' && InOrder(out, n)
    ensures var ts := Insert(out, PiecesFrom(b, n));
      Lexed(Semicolon, n, n + 1) in ts
      <==> EndsStatement(LastKind(Before(ts, n))) && !ContinuesLine(NextKind(PiecesFrom(b, n + 1)))
  {
    var rest := PiecesFrom(b, n + 1);
    var next := Step(out, Newline(n, n + 1), rest);
    InsertExtends(b, n + 1, next);
    assert out + [] == out;
    TokenBetween(out, next, Insert(next, rest), n);
  }

  lemma {:induction false} NewlineRuleFrom(b: string, i: nat, out: seq<Lexed>, n: nat)
    requires InOrder(out, i) && NewlineAt(PiecesFrom(b, i), n)
    ensures var ts := Insert(out, PiecesFrom(b, i));
      Lexed(Semicolon, n, n + 1) in ts
      <==> EndsStatement(LastKind(Before(ts, n))) && !ContinuesLine(NextKind(PiecesFrom(b, n + 1)))
    decreases |b| - i
  {
    if IsBlank(b[i]) {
      NewlineRuleFrom(b, i + 1, out, n);
    } else {
      var p := PieceAt(b, i);
      var rest := PiecesFrom(b, p.end);
      var next := Step(out, p, rest);
      if p == Newline(n, n + 1) {
        NewlineRuleHere(b, n, out);
      } else {
        StepInOrder(out, p, rest);
        NewlineRuleFrom(b, p.end, next, n);
      }
    }
  }

  /** A newline outside comments and literals becomes a `;` exactly when the last token
      before it that is no error ends a statement, and the next lexeme does not carry it on. */
  lemma NewlineRule(b: string, n: nat)
    requires NewlineAt(PiecesFrom(b, 0), n)
    ensures var ts := LexText(b);
      Lexed(Semicolon, n, n + 1) in ts
      <==> EndsStatement(LastKind(Before(ts, n))) && !ContinuesLine(NextKind(PiecesFrom(b, n + 1)))
  {
    NewlineRuleFrom(b, 0, [], n);
    var ts := LexText(b);
    var front := Insert([], PiecesFrom(b, 0));
    NewlineInText(b, 0, n);
    assert front == ts[..|ts| - 1];
    assert Before(ts, n) == Before(front, n);
    assert Lexed(Semicolon, n, n + 1) in ts <==> Lexed(Semicolon, n, n + 1) in front;
  }

  lemma {:induction false} NewlineInText(b: string, i: nat, n: nat)
    requires NewlineAt(PiecesFrom(b, i), n)
    ensures n < |b|
    decreases |b| - i
  {
    if IsBlank(b[i]) {
      NewlineInText(b, i + 1, n);
    } else if PieceAt(b, i) != Newline(n, n + 1) {
      NewlineInText(b, PieceAt(b, i).end, n);
    }
  }

  // ----- The end of the text -----

  /** The length of the run of backslashes that ends the text, from `i` on. */
  function TrailingBackslashes(b: string, i: nat): nat
    decreases |b| - i
  {
    if i >= |b| then 0
    else if (forall k | i <= k < |b| :: b[k] == '\\') then |b| - i
    else TrailingBackslashes(b, i + 1)
  }

  lemma RunAfter(b: string, i: nat, j: nat)
    requires i < j <= |b| && b[j - 1] != '\\'
    ensures TrailingBackslashes(b, i) == TrailingBackslashes(b, j)
    decreases j - i
  {
    if i + 1 < j {
      RunAfter(b, i + 1, j);
    }
  }

  lemma RunOfTwo(b: string, i: nat)
    requires i + 2 <= |b| && b[i] == '\\'
    ensures TrailingBackslashes(b, i) % 2 == TrailingBackslashes(b, i + 2) % 2
  {
    if b[i + 1] != '\\' {
      RunAfter(b, i, i + 2);
    } else if exists k :: i + 2 <= k < |b| && b[k] != '\\' {
      var k :| i + 2 <= k < |b| && b[k] != '\\';
      RunAfter(b, i, k + 1);
      RunAfter(b, i + 2, k + 1);
    }
  }

  /** A literal goes beyond the end of the text exactly when it is still open there and the
      text ends in an odd run of backslashes. */
  lemma {:induction false} QuotedOvershoots(b: string, i: nat, quote: char, badEscape: bool, empty: bool)
    requires i <= |b| && quote != '\\'
    ensures var q := ScanQuoted(b, i, quote, badEscape, empty);
      q.end == |b| + 1 <==> !q.closed && q.end >= |b| && TrailingBackslashes(b, i) % 2 == 1
    decreases |b| - i
  {
    if i == |b| || b[i] == quote || b[i] == '\n' {
    } else if b[i] != '\\' {
      RunAfter(b, i, i + 1);
      QuotedOvershoots(b, i + 1, quote, badEscape, false);
    } else if i + 1 == |b| {
      assert TrailingBackslashes(b, i) == 1;
    } else if b[i + 1] == '\n' {
    } else if b[i + 1] == 'u' && UnicodeEnd(b, i + 2).Some? {
      var j := UnicodeEnd(b, i + 2).value;
      RunAfter(b, i, j);
      QuotedOvershoots(b, j, quote, badEscape, false);
    } else {
      RunOfTwo(b, i);
      QuotedOvershoots(b, i + 2, quote, badEscape || !IsEscape(b[i + 1]), false);
    }
  }

  /** All tokens lie in the text, but for an error one character beyond it: a literal still
      open at the end of the text, which ends in an odd run of backslashes. */
  lemma TokensStayInText(b: string, t: Lexed)
    requires t in LexText(b) && t.kind != Eof
    ensures t.end <= |b| + 1
    ensures t.end == |b| + 1 <==> OpenLiteral(b, t) && TrailingBackslashes(b, t.start + 1) % 2 == 1
  {
    TokenComesFrom(b, t);
    if IsQuote(b[t.start]) {
      QuotedToken(b, t);
      QuotedOvershoots(b, t.start + 1, b[t.start], false, true);
    }
  }

  /** The overshoot at its smallest: a quote and a backslash make one error token and an end
      mark, both one character past the text. */
  lemma QuoteAndBackslash()
    ensures LexText("\"\\") == [Lexed(Error, 0, 3), EndMark(3)]
  {
    var b := "\"\\";
    assert ScanQuoted(b, 1, '"', false, true) == Quoted(3, false, true, false);
    assert PieceAt(b, 0) == Lexeme(Error, 0, 3);
    assert PiecesFrom(b, 0) == Cons(PieceAt(b, 0), Nil);
    assert StopsAt(b, 0) == 3;
    assert Insert([], PiecesFrom(b, 0)) == [Lexed(Error, 0, 3)];
  }

  predicate IsQuote(c: char) {
    c == '"' || c == '\''
  }

  lemma QuotedToken(b: string, t: Lexed)
    requires ComesFrom(b, t) && IsQuote(b[t.start])
    ensures t.end == ScanQuoted(b, t.start + 1, b[t.start], false, true).end
  {
    assert PieceAt(b, t.start) == Lexeme(LexemeAt(b, t.start).0, t.start, LexemeAt(b, t.start).1);
  }

  /** A literal that the end of the text, not a newline, leaves open. */
  predicate OpenLiteral(b: string, t: Lexed) {
    && t.start < |b| && t.end >= |b| && IsQuote(b[t.start])
    && !ScanQuoted(b, t.start + 1, b[t.start], false, true).closed
  }

  // ----- Handing over to the parser -----

  /** The characters of a token; the end of the text cuts it off. */
  function Text(b: string, t: Lexed): string {
    if t.start <= t.end <= |b| then b[t.start..t.end]
    else if t.start <= |b| then b[t.start..]
    else ""
  }

  function Spelled(b: string, ts: seq<Lexed>): (r: seq<Token>)
    ensures |r| == |ts| && forall k | 0 <= k < |ts| :: r[k] == Token(ts[k].kind, Text(b, ts[k]))
  {
    seq(|ts|, k requires 0 <= k < |ts| => Token(ts[k].kind, Text(b, ts[k])))
  }

  /** The tokens are what the parser expects: one end-of-file token, which comes last. */
  lemma EndsInOneMark(b: string)
    ensures EndsOnce(Spelled(b, LexText(b)))
  {
    var ts := LexText(b);
    forall k | 0 <= k < |ts| - 1 ensures ts[k].kind != Eof {
      InsertComesFrom(b, 0, [], ts[k]);
    }
  }

  ghost predicate IsWordRun(b: string, i: nat, j: nat) {
    j <= |b| && forall k | i <= k < j :: IsWordChar(b[k])
  }

  lemma {:induction false} WordRun(b: string, i: nat)
    requires i <= |b|
    ensures IsWordRun(b, i, WordEnd(b, i))
    decreases |b| - i
  {
    if IsWordChar(At(b, i)) {
      WordRun(b, i + 1);
    }
  }

  lemma {:induction false} DigitRun(b: string, i: nat)
    requires i <= |b|
    ensures IsWordRun(b, i, DigitsEnd(b, i))
    decreases |b| - i
  {
    if IsDigit(At(b, i)) || At(b, i) == '_' {
      DigitRun(b, i + 1);
    }
  }

  lemma {:induction false} BaseRun(b: string, i: nat, base: char)
    requires i <= |b|
    ensures IsWordRun(b, i, BaseEnd(b, i, base))
    decreases |b| - i
  {
    if IsBaseDigit(base, At(b, i)) {
      BaseRun(b, i + 1, base);
    }
  }

  lemma IntegerIsWord(b: string, i: nat)
    requires i < |b| && IsDigit(b[i]) && NumberAt(b, i).0 == Integer
    ensures IsWordRun(b, i, NumberAt(b, i).1)
  {
    if b[i] == '0' && IsBaseMark(At(b, i + 1)) {
      BaseRun(b, i + 2, b[i + 1]);
      WordRun(b, BaseEnd(b, i + 2, b[i + 1]));
    } else {
      DigitRun(b, i);
      WordRun(b, DigitsEnd(b, i));
    }
  }

  /** Names and integers are spelled with letters, digits and underscores, so that no name
      that the renaming pass mints can occur in a text. */
  lemma NamesComeFromSource(b: string, t: Lexed)
    requires t in LexText(b)
    requires t.kind == Ident || t.kind == Integer || IsKeywordKind(t.kind)
    ensures IsWord(Text(b, t)) && IsSource(Text(b, t))
  {
    TokenComesFrom(b, t);
    LexemeIsWord(b, t.start);
  }

  lemma LexemeIsWord(b: string, i: nat)
    requires i < |b|
    requires LexemeAt(b, i).0 == Ident || LexemeAt(b, i).0 == Integer || IsKeywordKind(LexemeAt(b, i).0)
    ensures IsWordRun(b, i, LexemeAt(b, i).1)
  {
    if IsDigit(b[i]) {
      IntegerIsWord(b, i);
    } else {
      WordRun(b, i);
    }
  }
}
