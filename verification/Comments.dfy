/** What comments are: to the end of the line, or nested blocks; and which tokens end a
    statement or carry it on, by the classes that the grammar has for them. */
module Comments {
  import opened Options
  import opened Tokens
  import opened Scanning
  import opened Semicolons
  import Grammar

  /** Does the text stand there? */
  predicate StandsAt(b: string, i: nat, text: string) {
    i + |text| <= |b| && b[i..i + |text|] == text
  }

  /** Blanks, tabs and carriage returns are nothing; so is a newline but for the semicolon that
      it may stand for. */
  lemma BlanksAreSkipped(b: string, i: nat)
    requires i < |b|
    ensures b[i] in " \t\r" <==> IsBlank(b[i])
    ensures b[i] in " \t\r" ==> PiecesFrom(b, i) == PiecesFrom(b, i + 1)
    ensures b[i] == '\n' ==> PiecesFrom(b, i) == Cons(Newline(i, i + 1), PiecesFrom(b, i + 1))
  {
  }

  // ----- Line comments -----

  lemma {:induction false} LineRuns(b: string, i: nat, j: nat)
    requires i <= j <= |b| && (forall k | i <= k < j :: b[k] != '\n') && (j == |b| || b[j] == '\n')
    ensures LineEnd(b, i) == j
    decreases j - i
  {
    if i < j {
      LineRuns(b, i + 1, j);
    }
  }

  lemma StandsInTwo(b: string, i: nat, x: string, y: string)
    requires StandsAt(b, i, x + y)
    ensures StandsAt(b, i, x) && StandsAt(b, i + |x|, y)
  {
    assert b[i..i + |x|] == b[i..i + |x + y|][..|x|] == (x + y)[..|x|] == x;
    assert b[i + |x|..i + |x| + |y|] == b[i..i + |x + y|][|x|..] == (x + y)[|x|..] == y;
  }

  lemma CharAt(b: string, i: nat, text: string, k: nat)
    requires StandsAt(b, i, text) && k < |text|
    ensures b[i + k] == At(b, i + k) == text[k]
  {
    assert b[i..i + |text|][k] == b[i + k];
  }

  /** Two slashes make everything up to the end of the line a comment; it documents exactly if
      a third one follows and no fourth. */
  lemma LineIsComment(b: string, i: nat, body: string)
    requires StandsAt(b, i, "//" + body) && '\n' !in body
    requires var end := i + 2 + |body|; end == |b| || b[end] == '\n'
    ensures PieceAt(b, i) ==
      Comment(body != "" && body[0] == '/' && (|body| == 1 || body[1] != '/'), i, i + 2 + |body|)
  {
    StandsInTwo(b, i, "//", body);
    CharAt(b, i, "//", 0);
    CharAt(b, i, "//", 1);
    forall k | i + 2 <= k < i + 2 + |body| ensures b[k] != '\n' {
      CharAt(b, i + 2, body, k - i - 2);
    }
    LineRuns(b, i + 2, i + 2 + |body|);
    if |body| > 0 { CharAt(b, i + 2, body, 0); }
    if |body| > 1 { CharAt(b, i + 2, body, 1); }
  }

  // ----- Block comments -----

  /** The inside of a block comment: characters that open or close nothing, and comments. */
  datatype Body = Nothing | Char(c: char, rest: Body) | Block(inner: Body, rest: Body)

  function TextOf(t: Body): string {
    match t
    case Nothing => ""
    case Char(c, rest) => [c] + TextOf(rest)
    case Block(inner, rest) => "/*" + (TextOf(inner) + ("*/" + TextOf(rest)))
  }

  /** No slash or star outside the comments inside. */
  predicate IsQuiet(t: Body) {
    match t
    case Nothing => true
    case Char(c, rest) => c != '/' && c != '*' && IsQuiet(rest)
    case Block(inner, rest) => IsQuiet(inner) && IsQuiet(rest)
  }

  predicate Opens(b: string, i: nat) {
    At(b, i) == '/' && At(b, i + 1) == '*'
  }

  predicate Closes(b: string, i: nat) {
    At(b, i) == '*' && At(b, i + 1) == '/'
  }

  /** The text of the body, character by character. */
  predicate Lies(b: string, i: nat, t: Body)
    decreases t
  {
    match t
    case Nothing => true
    case Char(c, rest) => At(b, i) == c && Lies(b, i + 1, rest)
    case Block(inner, rest) =>
      var close := i + 2 + |TextOf(inner)|;
      Opens(b, i) && Lies(b, i + 2, inner) && Closes(b, close) && Lies(b, close + 2, rest)
  }

  lemma {:induction false} TextLies(b: string, i: nat, t: Body)
    requires StandsAt(b, i, TextOf(t))
    ensures Lies(b, i, t)
    decreases t
  {
    if t.Char? {
      StandsInTwo(b, i, [t.c], TextOf(t.rest));
      CharAt(b, i, [t.c], 0);
      TextLies(b, i + 1, t.rest);
    } else if t.Block? {
      BlockStands(b, i, TextOf(t.inner), TextOf(t.rest));
      TextLies(b, i + 2, t.inner);
      TextLies(b, i + 4 + |TextOf(t.inner)|, t.rest);
    }
  }

  lemma BlockStands(b: string, i: nat, inner: string, rest: string)
    requires StandsAt(b, i, "/*" + (inner + ("*/" + rest)))
    ensures Opens(b, i) && StandsAt(b, i + 2, inner) && Closes(b, i + 2 + |inner|) && StandsAt(b, i + 4 + |inner|, rest)
  {
    var close := i + 2 + |inner|;
    StandsInTwo(b, i, "/*", inner + ("*/" + rest));
    StandsInTwo(b, i + 2, inner, "*/" + rest);
    StandsInTwo(b, close, "*/", rest);
    Marks(b, i);
    Marks(b, close);
  }

  lemma Marks(b: string, i: nat)
    ensures StandsAt(b, i, "/*") ==> Opens(b, i)
    ensures StandsAt(b, i, "*/") ==> Closes(b, i)
  {
    if StandsAt(b, i, "/*") {
      CharAt(b, i, "/*", 0);
      CharAt(b, i, "/*", 1);
    } else if StandsAt(b, i, "*/") {
      CharAt(b, i, "*/", 0);
      CharAt(b, i, "*/", 1);
    }
  }

  lemma MarkIsPassed(b: string, i: nat, depth: nat)
    requires i < |b| && depth > 0
    ensures Opens(b, i) ==> CommentEnd(b, i, depth) == CommentEnd(b, i + 2, depth + 1)
    ensures Closes(b, i) ==> CommentEnd(b, i, depth) == CommentEnd(b, i + 2, depth - 1)
    ensures At(b, i) != '/' && At(b, i) != '*' ==> CommentEnd(b, i, depth) == CommentEnd(b, i + 1, depth)
  {
  }

  /** However deep it is in, the scan goes over what is balanced. */
  lemma {:induction false} BodyIsPassed(b: string, i: nat, t: Body, depth: nat)
    requires IsQuiet(t) && Lies(b, i, t) && depth > 0 && i + |TextOf(t)| <= |b|
    ensures CommentEnd(b, i, depth) == CommentEnd(b, i + |TextOf(t)|, depth)
    decreases t
  {
    if t.Char? {
      MarkIsPassed(b, i, depth);
      BodyIsPassed(b, i + 1, t.rest, depth);
    } else if t.Block? {
      var close := i + 2 + |TextOf(t.inner)|;
      MarkIsPassed(b, i, depth);
      BodyIsPassed(b, i + 2, t.inner, depth + 1);
      MarkIsPassed(b, close, depth + 1);
      BodyIsPassed(b, close + 2, t.rest, depth);
    }
  }

  lemma BlockLies(b: string, i: nat, t: Body)
    requires StandsAt(b, i, "/*" + (TextOf(t) + "*/"))
    ensures var close := i + 2 + |TextOf(t)|; Opens(b, i) && Lies(b, i + 2, t) && Closes(b, close) && close + 2 <= |b|
  {
    StandsInTwo(b, i, "/*", TextOf(t) + "*/");
    StandsInTwo(b, i + 2, TextOf(t), "*/");
    Marks(b, i);
    Marks(b, i + 2 + |TextOf(t)|);
    TextLies(b, i + 2, t);
  }

  /** A block comment with any comments nested in it is one comment up to its own end. */
  lemma BlockIsComment(b: string, i: nat, t: Body)
    requires IsQuiet(t) && StandsAt(b, i, "/*" + (TextOf(t) + "*/"))
    ensures PieceAt(b, i) == Comment(false, i, i + |TextOf(t)| + 4)
  {
    var close := i + 2 + |TextOf(t)|;
    BlockLies(b, i, t);
    BodyIsPassed(b, i + 2, t, 1);
    MarkIsPassed(b, close, 1);
    BlockStarts(b, i);
  }

  lemma BlockStarts(b: string, i: nat)
    requires i < |b| && Opens(b, i)
    ensures var (end, closed) := CommentEnd(b, i + 2, 1);
      PieceAt(b, i) == if closed then Comment(false, i, end) else OpenComment(i, end)
  {
  }

  /** Without its end it is an error up to the end of the text. */
  lemma OpenBlockIsError(b: string, i: nat, t: Body)
    requires IsQuiet(t) && StandsAt(b, i, "/*" + TextOf(t)) && i + 2 + |TextOf(t)| == |b|
    ensures PieceAt(b, i) == OpenComment(i, |b|)
  {
    StandsInTwo(b, i, "/*", TextOf(t));
    Marks(b, i);
    TextLies(b, i + 2, t);
    BodyIsPassed(b, i + 2, t, 1);
    BlockStarts(b, i);
  }

  // ----- Classes of tokens -----

  /** A statement can end after a literal, a closing bracket, a primitive type or a name, and
      after what stands by itself. */
  lemma EndersAre(kind: Kind)
    ensures EndsStatement(kind) <==>
      IsLiteral(kind) || IsCloser(kind) || Grammar.PrimitiveOf(kind).Some? || kind == Str
      || (IsPathSegment(kind) && kind != Super && kind != Package) || kind == Underscore
      || kind == Question || kind == Break || kind == Continue || kind == Ret
  {
  }

  /** A line carries the statement on if it begins with a closing bracket, a comma, an `else`,
      or what can only follow an expression: a dot or a range. */
  lemma ContinuersAre(kind: Kind)
    ensures ContinuesLine(kind) <==>
      IsCloser(kind) || Grammar.IsRangeOp(kind) || kind == Dot || kind == Comma || kind == Else || kind == Eof
  {
  }
}
