/** Tokens from the pieces of a text: the second phase, which ends statements at newlines. */
module Semicolons {
  import opened Tokens
  import opened Scanning
  import opened Spelling

  /** A token and the stretch of text it covers. */
  datatype Lexed = Lexed(kind: Kind, start: nat, end: nat)

  /** The tokens that a newline can end a statement after. */
  predicate EndsStatement(kind: Kind) {
    || kind == Ident || kind == Underscore || kind == Integer || kind == Float || kind == String
    || kind == Char || kind == True || kind == False || kind == RParen || kind == RBracket || kind == RBrace
    || kind == Break || kind == Continue || kind == Ret || kind == Question || kind == Self || kind == SelfType
    || kind == I8 || kind == I16 || kind == I32 || kind == I64 || kind == I128 || kind == Isize
    || kind == U8 || kind == U16 || kind == U32 || kind == U64 || kind == U128 || kind == Usize
    || kind == F32 || kind == F64 || kind == Bool || kind == Str
  }

  /** The tokens that carry a statement on over a newline; there is nothing to end before
      the end of input. */
  predicate ContinuesLine(kind: Kind) {
    || kind == Else || kind == Comma || kind == RParen || kind == RBracket || kind == RBrace || kind == Eof
    || StartsWithDot(kind)
  }

  predicate StartsWithDot(kind: Kind) {
    kind == Dot || kind == DotDot || kind == DotDotEq || kind == DotDotLess
  }

  /** The kind of the next lexeme after newlines and comments; an unclosed comment counts as
      the end of input. */
  function NextKind(ps: Pieces): Kind {
    match ps
    case Nil => Eof
    case Cons(Newline(_, _), tail) => NextKind(tail)
    case Cons(Comment(_, _, _), tail) => NextKind(tail)
    case Cons(OpenComment(_, _), _) => Eof
    case Cons(Lexeme(kind, _, _), _) => kind
  }

  /** The kind of the last token that is no error; end-of-file if there is none. */
  function LastKind(out: seq<Lexed>): Kind {
    if out == [] then Eof
    else if out[|out| - 1].kind != Error then out[|out| - 1].kind
    else LastKind(out[..|out| - 1])
  }

  /** The token a piece of the text gives by itself. */
  function TokensOf(p: Piece): seq<Lexed> {
    match p
    case Newline(_, _) => []
    case Comment(isDoc, start, end) => if isDoc then [Lexed(DocComment, start, end)] else []
    case OpenComment(start, end) => [Lexed(Error, start, end)]
    case Lexeme(kind, start, end) => [Lexed(kind, start, end)]
  }

  /** A newline becomes a `;` exactly when the last token that is no error ends a statement
      and the next lexeme does not carry it on. */
  predicate Inserts(out: seq<Lexed>, p: Piece, rest: Pieces) {
    p.Newline? && EndsStatement(LastKind(out)) && !ContinuesLine(NextKind(rest))
  }

  function Step(out: seq<Lexed>, p: Piece, rest: Pieces): seq<Lexed> {
    if Inserts(out, p, rest) then out + [Lexed(Semicolon, p.start, p.end)] else out + TokensOf(p)
  }

  /** The tokens of the pieces, after those there are already. */
  function Insert(out: seq<Lexed>, ps: Pieces): seq<Lexed>
    decreases ps
  {
    match ps
    case Nil => out
    case Cons(p, tail) => Insert(Step(out, p, tail), tail)
  }

  function EndMark(i: nat): Lexed {
    Lexed(Eof, i, i)
  }

  /** All tokens of a text. */
  function LexText(b: string): seq<Lexed> {
    Insert([], PiecesFrom(b, 0)) + [EndMark(StopsAt(b, 0))]
  }

  lemma LastKindOfOne(out: seq<Lexed>, t: Lexed)
    ensures LastKind(out + [t]) == if t.kind == Error then LastKind(out) else t.kind
  {
    assert (out + [t])[..|out|] == out;
  }

  // ----- Lookahead -----

  /** As much of the next kind as lookahead tells apart. */
  function Coarse(kind: Kind): Kind {
    if StartsWithDot(kind) then Dot
    else if ContinuesLine(kind) then kind
    else Ident
  }

  lemma WordLooksAhead(word: string)
    ensures Coarse(WordKind(word)) == if word == "else" then Else else Ident
  {
  }

  function CoarseSymbol(c: char): Kind {
    if c == ',' then Comma
    else if c == ')' then RParen
    else if c == ']' then RBracket
    else if c == '}' then RBrace
    else if c == '.' then Dot
    else Ident
  }

  lemma SymbolLooksAhead(b: string, i: nat)
    requires i < |b| && !IsAlpha(b[i]) && b[i] != '_'
    ensures Coarse(LexemeAt(b, i).0) == CoarseSymbol(b[i])
  {
  }
}
